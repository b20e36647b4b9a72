/** GENEVE tunnel headers (RFC 8926) and encapsulated frames. */
module Geneve {
  import opened Types
  import opened Bytes
  import opened Headers

  const ETHERNET_BRIDGING: u16 := 0x6558

  datatype Tlv = Tlv(cls: u16, kind: u8, data: seq<u8>)

  datatype Header = Header(
    version: u8,
    optionsLen: nat,
    oam: bool,
    critical: bool,
    protocol: u16,
    vni: u32,
    options: seq<Tlv>)

  function HeaderLen(h: Header): nat { 8 + h.optionsLen }

  // ---------------------------------------------------------------- encoding

  // The length goes into five bits, in words.
  function TlvBytes(t: Tlv): (r: seq<u8>)
    ensures |r| == 4 + |t.data|
  {
    Be16(t.cls) + [t.kind, |t.data| / 4 % 32] + t.data
  }

  function OptionBytes(options: seq<Tlv>): seq<u8> {
    if options == [] then [] else OptionBytes(options[..|options| - 1]) + TlvBytes(options[|options| - 1])
  }

  // The version goes into two bits and the length of the options into six, in words.
  function BaseBytes(h: Header): (r: seq<u8>)
    ensures |r| == 8
  {
    [h.version % 4 * 64 + h.optionsLen / 4 % 64, (if h.oam then 0x80 else 0) + (if h.critical then 0x40 else 0)] +
    Be16(h.protocol) + [h.vni / 0x1_0000 % 0x100, h.vni / 0x100 % 0x100, h.vni % 0x100, 0]
  }

  function Encoded(h: Header): seq<u8> { BaseBytes(h) + OptionBytes(h.options) }

  ghost predicate WellFormedTlv(t: Tlv) { |t.data| % 4 == 0 && |t.data| <= 124 }

  /** Headers the wire format can hold. */
  ghost predicate WellFormed(h: Header) {
    && h.version == 0 && h.protocol == ETHERNET_BRIDGING && h.vni < 0x100_0000
    && (forall i :: 0 <= i < |h.options| ==> WellFormedTlv(h.options[i]))
    && h.optionsLen == |OptionBytes(h.options)| && h.optionsLen <= 252
  }

  method Encode(h: Header, out: array<u8>, at: nat) returns (n: nat)
    requires at + |Encoded(h)| <= out.Length
    modifies out
    ensures Wrote(out, at, Encoded(h)) && n == HeaderLen(h)
  {
    hide BaseBytes, TlvBytes, OptionBytes;
    WriteBase(h, out, at);
    var off := at + 8;
    assert h.options[..0] == [];
    NoOptionBytes();
    for i := 0 to |h.options|
      invariant off == at + 8 + |OptionBytes(h.options[..i])| && off <= at + |Encoded(h)|
      invariant out[at..off] == BaseBytes(h) + OptionBytes(h.options[..i])
      invariant forall k :: 0 <= k < out.Length && !(at <= k < off) ==> out[k] == old(out[k])
    {
      OptionBytesStep(h.options, i);
      OptionBytesPrefix(h.options, i + 1);
      ghost var before := out[at..off];
      WriteTlv(h.options[i], out, off);
      ghost var next := off + 4 + |h.options[i].data|;
      assert out[at..off] == before;
      Joined(out[..], at, off, next);
      off := off + 4 + |h.options[i].data|;
    }
    assert h.options[..|h.options|] == h.options;
    n := HeaderLen(h);
  }

  method WriteBase(h: Header, out: array<u8>, at: nat)
    requires at + 8 <= out.Length
    modifies out
    ensures Wrote(out, at, BaseBytes(h))
  {
    hide Be16;
    Sizes(h.protocol, 0);
    var lengths: u8 := h.version % 4 * 64 + h.optionsLen / 4 % 64;
    var flags: u8 := (if h.oam then 0x80 else 0) + (if h.critical then 0x40 else 0);
    var hi: u8, mid: u8, lo: u8 := h.vni / 0x1_0000 % 0x100, h.vni / 0x100 % 0x100, h.vni % 0x100;
    WriteWords(out, at, lengths, flags, Be16(h.protocol), hi, mid, lo);
  }

  method WriteWords(out: array<u8>, at: nat, lengths: u8, flags: u8, etherType: seq<u8>, hi: u8, mid: u8, lo: u8)
    requires at + 8 <= out.Length && |etherType| == 2
    modifies out
    ensures Wrote(out, at, [lengths, flags] + etherType + [hi, mid, lo, 0])
  {
    Put(out, at, [lengths, flags]);
    Put(out, at + 2, etherType);
    Put(out, at + 4, [hi, mid, lo, 0]);
    Joined(out[..], at, at + 2, at + 4);
    Joined(out[..], at, at + 4, at + 8);
  }

  method WriteTlv(t: Tlv, out: array<u8>, at: nat)
    requires at + 4 + |t.data| <= out.Length
    modifies out
    ensures Wrote(out, at, TlvBytes(t))
  {
    Put(out, at, Be16(t.cls));
    Put(out, at + 2, [t.kind]);
    Put(out, at + 3, [|t.data| / 4 % 32]);
    Put(out, at + 4, t.data);
    ghost var f, end := out[..], at + 4 + |t.data|;
    assert f[at..at + 2] == Be16(t.cls) && f[at + 2..at + 4] == [t.kind, |t.data| / 4 % 32] && f[at + 4..end] == t.data;
    assert f[at..end] == f[at..at + 2] + f[at + 2..at + 4] + f[at + 4..end];
    assert out[at..end] == f[at..end];
  }

  lemma Joined(s: seq<u8>, a: nat, b: nat, c: nat)
    requires a <= b <= c <= |s|
    ensures s[a..c] == s[a..b] + s[b..c]
  {
  }

  lemma NoOptionBytes()
    ensures OptionBytes([]) == []
  {
  }

  lemma OptionBytesStep(options: seq<Tlv>, i: nat)
    requires i < |options|
    ensures OptionBytes(options[..i + 1]) == OptionBytes(options[..i]) + TlvBytes(options[i])
  {
    hide TlvBytes;
    assert options[..i + 1][..i] == options[..i];
  }

  lemma {:induction false} OptionBytesPrefix(options: seq<Tlv>, i: nat)
    requires i <= |options|
    ensures |OptionBytes(options[..i])| <= |OptionBytes(options)|
    decreases |options| - i
  {
    hide TlvBytes;
    if i == |options| {
      assert options[..i] == options;
    } else {
      OptionBytesStep(options, i);
      OptionBytesPrefix(options, i + 1);
    }
  }

  // ---------------------------------------------------------------- parsing

  function TlvSize(data: seq<u8>, off: nat): nat
    requires off + 4 <= |data|
  {
    4 + data[off + 3] % 32 * 4
  }

  function TlvAt(data: seq<u8>, off: nat): Tlv
    requires off + 4 <= |data| && off + TlvSize(data, off) <= |data|
  {
    Tlv(At16(data, off), data[off + 2], data[off + 4..off + TlvSize(data, off)])
  }

  /** Read options up to the end of the header. */
  function ParseTlvs(data: seq<u8>, off: nat, end: nat, sofar: seq<Tlv>): Option<seq<Tlv>>
    requires off <= end <= |data|
    decreases end - off
  {
    if off + 4 > end then Some(sofar)
    else if off + TlvSize(data, off) > end then None
    else ParseTlvs(data, off + TlvSize(data, off), end, sofar + [TlvAt(data, off)])
  }

  // The length of the options in the first byte of a header.
  function OptionsLen(first: u8): nat { var words: nat := first % 64; words * 4 }

  function Parse(data: seq<u8>): Option<Header> {
    if |data| < 8 || data[0] / 64 != 0 || |data| < 8 + OptionsLen(data[0]) ||
       At16(data, 2) != ETHERNET_BRIDGING then None
    else
      var len := OptionsLen(data[0]);
      var options := ParseTlvs(data, 8, 8 + len, []);
      if options.None? then None
      else
        Some(Header(data[0] / 64, len, data[1] / 128 == 1, data[1] / 64 % 2 == 1, At16(data, 2),
                    Read32(0, data[4], data[5], data[6]), options.value))
  }

  method ParseHeader(data: seq<u8>) returns (r: Option<Header>)
    ensures r == Parse(data)
  {
    hide Read16, Read32;
    if |data| < 8 {
      return None;
    }
    var version := data[0] / 64;
    if version != 0 {
      return None;
    }
    var len := OptionsLen(data[0]);
    var end := 8 + len;
    if |data| < end {
      return None;
    }
    var protocol := At16(data, 2);
    if protocol != ETHERNET_BRIDGING {
      return None;
    }
    var options: seq<Tlv> := [];
    var off := 8;
    while off + 4 <= end
      invariant 8 <= off <= end
      invariant ParseTlvs(data, off, end, options) == ParseTlvs(data, 8, end, [])
    {
      var size := TlvSize(data, off);
      if off + size > end {
        return None;
      }
      options := options + [TlvAt(data, off)];
      off := off + size;
    }
    return Some(Header(version, len, data[1] / 128 == 1, data[1] / 64 % 2 == 1, protocol,
                       Read32(0, data[4], data[5], data[6]), options));
  }

  // ---------------------------------------------------------------- parse of an encoding

  lemma ReadTlv(d: seq<u8>, off: nat, t: Tlv)
    requires WellFormedTlv(t) && Stands(d, off, TlvBytes(t))
    ensures TlvSize(d, off) == 4 + |t.data| && TlvAt(d, off) == t
  {
    hide Be16, At16;
    Sizes(t.cls, 0);
    var m := [t.kind, |t.data| / 4 % 32];
    StandsPart(d, off, Be16(t.cls) + m, t.data);
    StandsPart(d, off, Be16(t.cls), m);
    Stands16(d, off, t.cls);
    StandsByte(d, off + 2, m, 0);
    StandsByte(d, off + 2, m, 1);
  }

  // Parsing option by option, from the i-th on.
  lemma {:induction false} ReadOptions(d: seq<u8>, options: seq<Tlv>, i: nat, end: nat)
    requires forall j :: 0 <= j < |options| ==> WellFormedTlv(options[j])
    requires i <= |options| && Stands(d, 8, OptionBytes(options)) && end == 8 + |OptionBytes(options)| <= |d|
    requires 8 + |OptionBytes(options[..i])| <= end
    ensures ParseTlvs(d, 8 + |OptionBytes(options[..i])|, end, options[..i]) == Some(options)
    decreases |options| - i
  {
    hide TlvBytes, TlvAt, TlvSize, OptionBytes;
    var off := 8 + |OptionBytes(options[..i])|;
    if i == |options| {
      assert options[..i] == options;
    } else {
      OptionStands(d, options, i);
      ReadTlv(d, off, options[i]);
      OptionBytesStep(options, i);
      OptionBytesPrefix(options, i + 1);
      assert options[..i] + [options[i]] == options[..i + 1];
      ReadOptions(d, options, i + 1, end);
    }
  }

  lemma {:induction false} OptionStands(d: seq<u8>, options: seq<Tlv>, i: nat)
    requires i < |options| && Stands(d, 8, OptionBytes(options))
    ensures Stands(d, 8 + |OptionBytes(options[..i])|, TlvBytes(options[i]))
    decreases |options|
  {
    hide TlvBytes;
    var last := |options| - 1;
    StandsPart(d, 8, OptionBytes(options[..last]), TlvBytes(options[last]));
    if i < last {
      assert options[..last][..i] == options[..i];
      OptionStands(d, options[..last], i);
    }
  }

  lemma ReadBase(d: seq<u8>, h: Header)
    requires Stands(d, 0, BaseBytes(h)) && h.version == 0 && h.vni < 0x100_0000
    requires h.optionsLen % 4 == 0 && h.optionsLen <= 252
    ensures d[0] / 64 == 0 && OptionsLen(d[0]) == h.optionsLen
    ensures (d[1] / 128 == 1 <==> h.oam) && (d[1] / 64 % 2 == 1 <==> h.critical)
    ensures At16(d, 2) == h.protocol && Read32(0, d[4], d[5], d[6]) == h.vni
  {
    hide Be16, At16, OptionsLen, Read32;
    Sizes(h.protocol, 0);
    LengthReads(h.optionsLen);
    VniReads(h.vni);
    var a := [h.version % 4 * 64 + h.optionsLen / 4 % 64,
              (if h.oam then 0x80 else 0) + (if h.critical then 0x40 else 0)];
    var b := [h.vni / 0x1_0000 % 0x100, h.vni / 0x100 % 0x100, h.vni % 0x100, 0];
    StandsPart(d, 0, a + Be16(h.protocol), b);
    StandsPart(d, 0, a, Be16(h.protocol));
    Stands16(d, 2, h.protocol);
    StandsByte(d, 0, a, 0);
    StandsByte(d, 0, a, 1);
    StandsByte(d, 4, b, 0);
    StandsByte(d, 4, b, 1);
    StandsByte(d, 4, b, 2);
  }

  lemma LengthReads(len: nat)
    requires len % 4 == 0 && len <= 252
    ensures len / 4 % 64 / 64 == 0 && OptionsLen(len / 4 % 64) == len
  {
  }

  lemma VniReads(v: u32)
    requires v < 0x100_0000
    ensures Read32(0, v / 0x1_0000 % 0x100, v / 0x100 % 0x100, v % 0x100) == v
  {
  }

  lemma {:induction false} OptionBytesAligned(options: seq<Tlv>)
    requires forall i :: 0 <= i < |options| ==> WellFormedTlv(options[i])
    ensures |OptionBytes(options)| % 4 == 0
  {
    hide TlvBytes;
    if options != [] {
      OptionBytesAligned(options[..|options| - 1]);
      assert WellFormedTlv(options[|options| - 1]);
    }
  }

  lemma EncodedParses(h: Header, tail: seq<u8>)
    requires WellFormed(h)
    ensures Parse(Encoded(h) + tail) == Some(h)
  {
    hide BaseBytes, OptionBytes, ParseTlvs, At16, Read32;
    var d := Encoded(h) + tail;
    assert d[0..|Encoded(h)|] == Encoded(h);
    StandsPart(d, 0, BaseBytes(h), OptionBytes(h.options));
    OptionBytesAligned(h.options);
    ReadBase(d, h);
    assert h.options[..0] == [];
    NoOptionBytes();
    ReadOptions(d, h.options, 0, 8 + h.optionsLen);
  }

  // ---------------------------------------------------------------- encoding of a parse

  // Everything read so far is well formed and takes up exactly the bytes up to off.
  ghost predicate Consumed(off: nat, sofar: seq<Tlv>) {
    && (forall i :: 0 <= i < |sofar| ==> WellFormedTlv(sofar[i]))
    && off == 8 + |OptionBytes(sofar)|
  }

  lemma ConsumeOne(data: seq<u8>, off: nat, sofar: seq<Tlv>)
    requires Consumed(off, sofar) && off + 4 <= |data| && off + TlvSize(data, off) <= |data|
    ensures Consumed(off + TlvSize(data, off), sofar + [TlvAt(data, off)])
  {
    hide At16;
    var t := TlvAt(data, off);
    assert (sofar + [t])[..|sofar|] == sofar;
  }

  lemma {:induction false} ParsedTlvsFill(data: seq<u8>, off: nat, end: nat, sofar: seq<Tlv>)
    requires off <= end <= |data| && Consumed(off, sofar) && (end - off) % 4 == 0
    ensures var r := ParseTlvs(data, off, end, sofar);
            r.Some? ==> Consumed(end, r.value)
    decreases end - off
  {
    hide Consumed, TlvAt;
    if off + 4 <= end && off + TlvSize(data, off) <= end {
      ConsumeOne(data, off, sofar);
      ParsedTlvsFill(data, off + TlvSize(data, off), end, sofar + [TlvAt(data, off)]);
    }
  }

  /** Whatever bytes are accepted, the header is well formed: in particular
      the options length is the sum of the option sizes. */
  lemma ParsedIsWellFormed(data: seq<u8>)
    ensures Parse(data).Some? ==> WellFormed(Parse(data).value)
  {
    hide ParseTlvs, OptionBytes, Read16;
    if Parse(data).Some? {
      var len := OptionsLen(data[0]);
      NoOptionBytes();
      ParsedTlvsFill(data, 8, 8 + len, []);
    }
  }

  /** Parsing inverts encoding exactly on the well-formed headers. */
  lemma ParseInvertsEncodeExactly(h: Header, tail: seq<u8>)
    ensures Parse(Encoded(h) + tail) == Some(h) <==> WellFormed(h)
  {
    hide Parse, Encoded, WellFormed;
    if WellFormed(h) {
      EncodedParses(h, tail);
    }
    ParsedIsWellFormed(Encoded(h) + tail);
  }

  // The reserved bits of the options are zero.
  predicate OptionsReservedZero(data: seq<u8>, off: nat, end: nat)
    requires off <= end <= |data|
    decreases end - off
  {
    if off + 4 > end || off + TlvSize(data, off) > end then true
    else data[off + 3] < 32 && OptionsReservedZero(data, off + TlvSize(data, off), end)
  }

  predicate ReservedZero(data: seq<u8>, end: nat)
    requires 8 <= end <= |data|
  {
    data[1] % 64 == 0 && data[7] == 0 && OptionsReservedZero(data, 8, end)
  }

  lemma RewriteTlv(data: seq<u8>, off: nat)
    requires off + 4 <= |data| && off + TlvSize(data, off) <= |data|
    ensures |TlvBytes(TlvAt(data, off))| == TlvSize(data, off)
    ensures TlvBytes(TlvAt(data, off)) == data[off..off + TlvSize(data, off)] <==> data[off + 3] < 32
  {
    hide Be16, Read16;
    var t, size := TlvAt(data, off), TlvSize(data, off);
    WriteBack16(data[off], data[off + 1]);
    var m, n := [t.kind, |t.data| / 4 % 32], [data[off + 2], data[off + 3]];
    assert |t.data| / 4 % 32 == data[off + 3] % 32;
    assert m == n <==> data[off + 3] < 32 by {
      assert m[1] == data[off + 3] % 32 && n[1] == data[off + 3];
    }
    var whole := data[off..off + size];
    assert whole == [data[off], data[off + 1]] + n + t.data;
    SplitEqual(Be16(t.cls), m, Be16(t.cls), n);
    SplitEqual(Be16(t.cls) + m, t.data, Be16(t.cls) + n, t.data);
  }

  lemma {:induction false} RewriteOptions(data: seq<u8>, off: nat, end: nat, sofar: seq<Tlv>)
    requires 8 <= off <= end <= |data| && Consumed(off, sofar) && (end - off) % 4 == 0
    requires ParseTlvs(data, off, end, sofar).Some?
    requires OptionBytes(sofar) == data[8..off]
    ensures OptionBytes(ParseTlvs(data, off, end, sofar).value) == data[8..end] <==> OptionsReservedZero(data, off, end)
    decreases end - off
  {
    hide Consumed, TlvAt, TlvBytes, OptionBytes, TlvSize;
    if off + 4 <= end {
      var size, t := TlvSize(data, off), TlvAt(data, off);
      ConsumeOne(data, off, sofar);
      RewriteTlv(data, off);
      OptionBytesPush(sofar, t);
      WholeWords(data, off, end);
      if data[off + 3] < 32 {
        assert data[8..off] + data[off..off + size] == data[8..off + size];
        RewriteOptions(data, off + size, end, sofar + [t]);
      } else {
        ParsedTlvsFill(data, off + size, end, sofar + [t]);
        DifferentPrefix(data, off, end, sofar, t);
      }
    }
  }

  lemma WholeWords(data: seq<u8>, off: nat, end: nat)
    requires off + 4 <= |data| && (end - off) % 4 == 0
    ensures TlvSize(data, off) >= 4 && (end - (off + TlvSize(data, off))) % 4 == 0
  {
  }

  lemma OptionBytesPush(sofar: seq<Tlv>, t: Tlv)
    ensures OptionBytes(sofar + [t]) == OptionBytes(sofar) + TlvBytes(t)
  {
    hide TlvBytes;
    assert (sofar + [t])[..|sofar|] == sofar;
  }

  // Parsing only appends, and so does encoding what was parsed.
  lemma {:induction false} ParseAppends(data: seq<u8>, off: nat, end: nat, sofar: seq<Tlv>)
    requires off <= end <= |data| && ParseTlvs(data, off, end, sofar).Some?
    ensures OptionBytes(sofar) <= OptionBytes(ParseTlvs(data, off, end, sofar).value)
    decreases end - off
  {
    hide TlvAt, TlvBytes, OptionBytes;
    if off + 4 <= end {
      OptionBytesPush(sofar, TlvAt(data, off));
      ParseAppends(data, off + TlvSize(data, off), end, sofar + [TlvAt(data, off)]);
    }
  }

  lemma DifferentPrefix(data: seq<u8>, off: nat, end: nat, sofar: seq<Tlv>, t: Tlv)
    requires 8 <= off && off + 4 <= end <= |data| && off + TlvSize(data, off) <= end && t == TlvAt(data, off)
    requires OptionBytes(sofar) == data[8..off] && ParseTlvs(data, off + TlvSize(data, off), end, sofar + [t]).Some?
    requires TlvBytes(t) != data[off..off + TlvSize(data, off)] && |TlvBytes(t)| == TlvSize(data, off)
    ensures OptionBytes(ParseTlvs(data, off + TlvSize(data, off), end, sofar + [t]).value) != data[8..end]
  {
    hide TlvAt, TlvBytes, OptionBytes, ParseTlvs;
    var size := TlvSize(data, off);
    ParseAppends(data, off + size, end, sofar + [t]);
    OptionBytesPush(sofar, t);
    var all := OptionBytes(ParseTlvs(data, off + size, end, sofar + [t]).value);
    assert all[off - 8..off - 8 + size] == TlvBytes(t);
    SliceOfSlice(data, 8, end, off - 8, off - 8 + size);
  }

  lemma RewriteBase(data: seq<u8>, h: Header)
    requires |data| >= 8 && h.version == data[0] / 64 == 0 && h.optionsLen == OptionsLen(data[0])
    requires h.oam == (data[1] / 128 == 1) && h.critical == (data[1] / 64 % 2 == 1)
    requires h.protocol == At16(data, 2) && h.vni == Read32(0, data[4], data[5], data[6])
    ensures BaseBytes(h) == data[..8] <==> data[1] % 64 == 0 && data[7] == 0
  {
    hide Be16, Read16, Read32, OptionsLen;
    LengthByte(data[0]);
    FlagsByte(data[1]);
    VniBytes(data[4], data[5], data[6]);
    WriteBack16(data[2], data[3]);
    var flags: u8 := data[1] - data[1] % 64;
    assert BaseBytes(h) == [data[0], flags, data[2], data[3], data[4], data[5], data[6], 0];
    assert data[..8] == [data[0], data[1], data[2], data[3], data[4], data[5], data[6], data[7]];
    assert data[..8][1] == data[1] && data[..8][7] == data[7];
  }

  lemma LengthByte(b: u8)
    requires b / 64 == 0
    ensures 0 % 4 * 64 + OptionsLen(b) / 4 % 64 == b
  {
  }

  lemma FlagsByte(b: u8)
    ensures (if b / 128 == 1 then 0x80 else 0) + (if b / 64 % 2 == 1 then 0x40 else 0) == b - b % 64
  {
  }

  lemma VniBytes(a: u8, b: u8, c: u8)
    ensures var v := Read32(0, a, b, c);
            v / 0x1_0000 % 0x100 == a && v / 0x100 % 0x100 == b && v % 0x100 == c
  {
    var x: int, y: int, z: int := a, b, c;
    var v := x * 0x1_0000 + y * 0x100 + z;
    assert v / 0x1_0000 == x && v / 0x100 == x * 0x100 + y;
  }

  /** Encoding inverts parsing exactly on the accepted byte strings whose
      reserved bits are zero. */
  lemma EncodeInvertsParseExactly(data: seq<u8>)
    requires Parse(data).Some?
    ensures var h := Parse(data).value;
            && HeaderLen(h) <= |data|
            && (Encoded(h) == data[..HeaderLen(h)] <==> ReservedZero(data, HeaderLen(h)))
  {
    hide BaseBytes, OptionBytes, ParseTlvs, OptionsReservedZero, Read16, Read32;
    var h := Parse(data).value;
    var end := HeaderLen(h);
    RewriteBase(data, h);
    NoOptionBytes();
    assert data[8..8] == [];
    RewriteOptions(data, 8, end, []);
    ParsedIsWellFormed(data);
    SplitEqual(BaseBytes(h), OptionBytes(h.options), data[..8], data[8..end]);
    assert data[..8] + data[8..end] == data[..end];
  }

  lemma SplitEqual(a: seq<u8>, b: seq<u8>, c: seq<u8>, d: seq<u8>)
    requires |a| == |c|
    ensures a + b == c + d <==> a == c && b == d
  {
    if a + b == c + d {
      assert (a + b)[..|a|] == a && (c + d)[..|a|] == c;
      assert (a + b)[|a|..] == b && (c + d)[|a|..] == d;
    }
  }
}
