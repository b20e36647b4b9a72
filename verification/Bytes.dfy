/** Fields in network byte order. */
module Bytes {
  import opened Types

  function Be16(x: u16): seq<u8> { [x / 0x100, x % 0x100] }

  function Be32(x: u32): seq<u8> { [x / 0x100_0000, x / 0x1_0000 % 0x100, x / 0x100 % 0x100, x % 0x100] }

  function Read16(hi: u8, lo: u8): u16 { var h: int := hi; h * 0x100 + lo }

  function Read32(a: u8, b: u8, c: u8, d: u8): u32 {
    var x: int, y: int, z: int := a, b, c;
    x * 0x100_0000 + y * 0x1_0000 + z * 0x100 + d
  }

  function At16(s: seq<u8>, i: nat): u16
    requires i + 2 <= |s|
  {
    Read16(s[i], s[i + 1])
  }

  function At32(s: seq<u8>, i: nat): u32
    requires i + 4 <= |s|
  {
    Read32(s[i], s[i + 1], s[i + 2], s[i + 3])
  }

  // These bytes stand at this offset.
  ghost predicate Stands(s: seq<u8>, at: nat, bytes: seq<u8>) { at + |bytes| <= |s| && s[at..at + |bytes|] == bytes }

  lemma RoundTrip16(x: u16)
    ensures Read16(Be16(x)[0], Be16(x)[1]) == x
  {
  }

  lemma WriteBack16(a: u8, b: u8)
    ensures Be16(Read16(a, b)) == [a, b]
  {
  }

  lemma RoundTrip32(x: u32)
    ensures var b := Be32(x); Read32(b[0], b[1], b[2], b[3]) == x
  {
    var y, z := x / 0x100, x / 0x1_0000;
    assert x == y * 0x100 + x % 0x100;
    assert y == z * 0x100 + y % 0x100;
    assert z == x / 0x100_0000 * 0x100 + z % 0x100;
  }

  lemma Stands16(s: seq<u8>, at: nat, x: u16)
    requires Stands(s, at, Be16(x))
    ensures At16(s, at) == x
  {
    hide Be16, Read16;
    RoundTrip16(x);
    assert |Be16(x)| == 2 by { Sizes(x, 0); }
    assert s[at..at + 2][0] == s[at] && s[at..at + 2][1] == s[at + 1];
  }

  lemma Stands32(s: seq<u8>, at: nat, x: u32)
    requires Stands(s, at, Be32(x))
    ensures At32(s, at) == x
  {
    hide Be32, Read32;
    RoundTrip32(x);
    assert |Be32(x)| == 4 by { Sizes(0, x); }
    var b := s[at..at + 4];
    assert b[0] == s[at] && b[1] == s[at + 1] && b[2] == s[at + 2] && b[3] == s[at + 3];
  }

  // One of the bytes that stand at an offset.
  lemma StandsByte(s: seq<u8>, at: nat, bytes: seq<u8>, k: nat)
    requires Stands(s, at, bytes) && k < |bytes|
    ensures at + k < |s| && s[at + k] == bytes[k]
  {
    assert s[at..at + |bytes|][k] == s[at + k];
  }

  // Part of what stands at an offset stands further on.
  lemma StandsPart(s: seq<u8>, at: nat, a: seq<u8>, b: seq<u8>)
    requires Stands(s, at, a + b)
    ensures Stands(s, at, a) && Stands(s, at + |a|, b)
  {
    assert s[at..at + |a + b|][..|a|] == a;
    assert s[at..at + |a + b|][|a|..] == b;
  }

  lemma Sizes(x: u16, y: u32)
    ensures |Be16(x)| == 2 && |Be32(y)| == 4
  {
  }
}
