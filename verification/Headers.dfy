/** Ethernet, IPv4 and UDP headers, written into frames in place. */
module Headers {
  import opened Types
  import opened Bytes
  import opened Checksum

  const ETHERTYPE_IPV4: u16 := 0x0800

  type Mac = m: seq<u8> | |m| == 6 witness [0, 0, 0, 0, 0, 0]

  function EthernetHeader(dst: Mac, src: Mac): (h: seq<u8>)
    ensures |h| == 14
  {
    dst + src + Be16(ETHERTYPE_IPV4)
  }

  /** The fields of an IPv4 header without options that vary. */
  datatype Ipv4 = Ipv4(total: u16, ttl: u8, protocol: u8, src: u32, dst: u32)

  function Ipv4Header(i: Ipv4, checksum: u16): (h: seq<u8>)
    ensures |h| == 20
  {
    [0x45, 0] + Be16(i.total) + [0, 0, 0x40, 0, i.ttl, i.protocol] + Be16(checksum) + Be32(i.src) + Be32(i.dst)
  }

  function Ipv4ChecksumOf(i: Ipv4): u16 { ChecksumOf(WordSum(Ipv4Header(i, 0))) }

  /** The header with its checksum filled in. */
  function Ipv4Bytes(i: Ipv4): (h: seq<u8>)
    ensures |h| == 20
  {
    Ipv4Header(i, Ipv4ChecksumOf(i))
  }

  // ---------------------------------------------------------------- writing in place

  method Put(a: array<u8>, at: nat, bytes: seq<u8>)
    requires at + |bytes| <= a.Length
    modifies a
    ensures a[at..at + |bytes|] == bytes
    ensures forall k :: 0 <= k < a.Length ==> a[k] == if at <= k < at + |bytes| then bytes[k - at] else old(a[k])
  {
    for i := 0 to |bytes|
      invariant forall k :: 0 <= k < a.Length ==> a[k] == if at <= k < at + i then bytes[k - at] else old(a[k])
    {
      a[at + i] := bytes[i];
    }
  }

  // The array holds these bytes at an offset and is otherwise as it was.
  twostate predicate Wrote(a: array<u8>, at: nat, bytes: seq<u8>)
    reads a
  {
    && at + |bytes| <= a.Length && a[at..at + |bytes|] == bytes
    && forall k :: 0 <= k < a.Length && !(at <= k < at + |bytes|) ==> a[k] == old(a[k])
  }

  method WriteEthernet(a: array<u8>, at: nat, dst: Mac, src: Mac)
    requires at + 14 <= a.Length
    modifies a
    ensures Wrote(a, at, EthernetHeader(dst, src))
  {
    Put(a, at, dst);
    Put(a, at + 6, src);
    Put(a, at + 12, Be16(ETHERTYPE_IPV4));
    ghost var f := a[..];
    assert f[at..at + 6] == dst && f[at + 6..at + 12] == src && f[at + 12..at + 14] == Be16(ETHERTYPE_IPV4);
    assert f[at..at + 14] == f[at..at + 6] + f[at + 6..at + 12] + f[at + 12..at + 14];
    assert a[at..at + 14] == f[at..at + 14];
  }

  lemma Ipv4ChecksumField(i: Ipv4, c: u16)
    ensures Ipv4Header(i, 0)[10] == 0 && Ipv4Header(i, 0)[11] == 0
    ensures Ipv4Header(i, c) == Fill(Ipv4Header(i, 0), 10, c)
  {
    hide Be32;
    var a := [0x45, 0] + Be16(i.total) + [0, 0, 0x40, 0, i.ttl, i.protocol];
    var b := Be32(i.src) + Be32(i.dst);
    assert Ipv4Header(i, 0) == a + [0, 0] + b;
    assert Ipv4Header(i, c) == a + [c / 0x100, c % 0x100] + b;
  }

  // The header up to its checksum.
  ghost function Ipv4Front(i: Ipv4): (r: seq<u8>)
    ensures |r| == 10
  {
    [0x45, 0] + Be16(i.total) + [0, 0, 0x40, 0, i.ttl, i.protocol]
  }

  method WriteIpv4Front(a: array<u8>, at: nat, i: Ipv4)
    requires at + 10 <= a.Length
    modifies a
    ensures Wrote(a, at, Ipv4Front(i))
  {
    Put(a, at, [0x45, 0]);
    Put(a, at + 2, Be16(i.total));
    Put(a, at + 4, [0, 0]);
    Put(a, at + 6, [0x40, 0]);
    Put(a, at + 8, [i.ttl]);
    Put(a, at + 9, [i.protocol]);
    ghost var f := a[..];
    assert f[at..at + 2] == [0x45, 0] && f[at + 2..at + 4] == Be16(i.total);
    assert f[at + 4..at + 10] == [0, 0, 0x40, 0, i.ttl, i.protocol];
    assert f[at..at + 10] == f[at..at + 2] + f[at + 2..at + 4] + f[at + 4..at + 10];
    assert a[at..at + 10] == f[at..at + 10];
  }

  method WriteIpv4Fields(a: array<u8>, at: nat, i: Ipv4)
    requires at + 20 <= a.Length
    modifies a
    ensures Wrote(a, at, Ipv4Header(i, 0))
  {
    hide Be32, Be16, Ipv4Front;
    Sizes(0, i.src);
    Sizes(0, i.dst);
    WriteIpv4Front(a, at, i);
    Put(a, at + 10, [0, 0]);
    Put(a, at + 12, Be32(i.src));
    Put(a, at + 16, Be32(i.dst));
    Ipv4Parts(i);
    ghost var f := a[..];
    assert f[at..at + 10] == Ipv4Front(i) && f[at + 10..at + 12] == [0, 0];
    assert f[at + 12..at + 16] == Be32(i.src) && f[at + 16..at + 20] == Be32(i.dst);
    assert f[at..at + 20] == f[at..at + 10] + f[at + 10..at + 12] + f[at + 12..at + 16] + f[at + 16..at + 20];
    assert a[at..at + 20] == f[at..at + 20];
  }

  lemma Ipv4Parts(i: Ipv4)
    ensures Ipv4Header(i, 0) == Ipv4Front(i) + [0, 0] + Be32(i.src) + Be32(i.dst)
  {
    hide Be32;
  }

  /** The checksum of a written header verifies. */
  method WriteIpv4(a: array<u8>, at: nat, i: Ipv4)
    requires at + 20 <= a.Length
    modifies a
    ensures Wrote(a, at, Ipv4Bytes(i))
    ensures ChecksumOf(WordSum(a[at..at + 20])) == 0
  {
    hide Ipv4Header, ChecksumOf, WordSum;
    WriteIpv4Fields(a, at, i);
    var c := Ipv4Checksum(a[at..at + 20]);
    ghost var before := a[at..at + 20];
    Put(a, at + 10, Be16(c));
    Ipv4ChecksumField(i, c);
    assert a[at..at + 20] == Fill(before, 10, c);
    FilledHeaderChecks(before, 10);
  }

  // ---------------------------------------------------------------- reading back

  lemma EthernetFields(f: seq<u8>, at: nat, dst: Mac, src: Mac)
    requires Stands(f, at, EthernetHeader(dst, src))
    ensures f[at..at + 6] == dst && f[at + 6..at + 12] == src && At16(f, at + 12) == ETHERTYPE_IPV4
  {
    hide Be16, At16;
    Sizes(ETHERTYPE_IPV4, 0);
    StandsPart(f, at, dst + src, Be16(ETHERTYPE_IPV4));
    StandsPart(f, at, dst, src);
    Stands16(f, at + 12, ETHERTYPE_IPV4);
  }

  // Whatever the checksum.
  lemma Ipv4Fields(f: seq<u8>, at: nat, i: Ipv4, c: u16)
    requires Stands(f, at, Ipv4Header(i, c))
    ensures f[at] == 0x45 && f[at + 9] == i.protocol && At16(f, at + 2) == i.total
    ensures At32(f, at + 12) == i.src && At32(f, at + 16) == i.dst
  {
    hide Be16, Be32, At16, At32;
    var total, src, dst := Be16(i.total), Be32(i.src), Be32(i.dst);
    Sizes(i.total, i.src);
    Sizes(c, i.dst);
    var a := [0x45, 0];
    var b := [0, 0, 0x40, 0, i.ttl, i.protocol];
    StandsPart(f, at, a + total + b + Be16(c) + src, dst);
    StandsPart(f, at, a + total + b + Be16(c), src);
    StandsPart(f, at, a + total + b, Be16(c));
    StandsPart(f, at, a + total, b);
    StandsPart(f, at, a, total);
    StandsByte(f, at, a, 0);
    StandsByte(f, at + 4, b, 5);
    Stands16(f, at + 2, i.total);
    Stands32(f, at + 12, i.src);
    Stands32(f, at + 16, i.dst);
  }
}
