/** Building and opening GENEVE-encapsulated UDP datagrams. */
module GeneveFrames {
  import opened Types
  import opened Bytes
  import opened Checksum
  import opened Headers
  import opened UdpChecksum
  import opened Geneve
  import Tcb

  datatype Tunnelled = Tunnelled(
    outerSrcMac: Mac,
    outerDstMac: Mac,
    outerSrc: Tcb.Addr,
    outerDst: Tcb.Addr,
    header: Header,
    innerSrcMac: Mac,
    innerDstMac: Mac,
    innerSrc: Tcb.Addr,
    innerDst: Tcb.Addr,
    payload: seq<u8>,
    ttl: u8)

  // ---------------------------------------------------------------- the frame

  function UdpHeader(src: u16, dst: u16, len: u16): (h: seq<u8>)
    ensures |h| == 8
  {
    Be16(src) + Be16(dst) + Be16(len) + [0, 0]
  }

  function UdpWith(src: u16, dst: u16, checksum: u16, payload: seq<u8>): (d: seq<u8>)
    requires 8 + |payload| <= 0xFFFF
    ensures |d| == 8 + |payload|
  {
    Fill(UdpHeader(src, dst, 8 + |payload|), 6, checksum) + payload
  }

  /** A datagram with its checksum filled in. */
  function UdpBytes(src: Tcb.Addr, dst: Tcb.Addr, payload: seq<u8>): (d: seq<u8>)
    requires 8 + |payload| <= 0xFFFF
    ensures |d| == 8 + |payload|
  {
    UdpWith(src.port, dst.port, UdpChecksumFor(src, dst, payload), payload)
  }

  function UdpChecksumFor(src: Tcb.Addr, dst: Tcb.Addr, payload: seq<u8>): u16
    requires 8 + |payload| <= 0xFFFF
  {
    UdpChecksumOf(Be32(src.ip), Be32(dst.ip), UdpHeader(src.port, dst.port, 8 + |payload|), payload)
  }

  function UdpIp(src: Tcb.Addr, dst: Tcb.Addr, payload: seq<u8>, ttl: u8): Ipv4
    requires 28 + |payload| <= 0xFFFF
  {
    Ipv4(28 + |payload|, ttl, PROTOCOL_UDP, src.ip, dst.ip)
  }

  function InnerWith(t: Tunnelled, ipChecksum: u16, udpChecksum: u16): (f: seq<u8>)
    requires 28 + |t.payload| <= 0xFFFF
    ensures |f| == 42 + |t.payload|
  {
    EthernetHeader(t.innerDstMac, t.innerSrcMac) +
    Ipv4Header(UdpIp(t.innerSrc, t.innerDst, t.payload, 64), ipChecksum) +
    UdpWith(t.innerSrc.port, t.innerDst.port, udpChecksum, t.payload)
  }

  function Inner(t: Tunnelled): (f: seq<u8>)
    requires 28 + |t.payload| <= 0xFFFF
    ensures |f| == 42 + |t.payload|
  {
    InnerWith(t, InnerIpChecksum(t), InnerUdpChecksum(t))
  }

  function InnerIpChecksum(t: Tunnelled): u16
    requires 28 + |t.payload| <= 0xFFFF
  {
    Ipv4ChecksumOf(UdpIp(t.innerSrc, t.innerDst, t.payload, 64))
  }

  function InnerUdpChecksum(t: Tunnelled): u16
    requires 28 + |t.payload| <= 0xFFFF
  {
    UdpChecksumFor(t.innerSrc, t.innerDst, t.payload)
  }

  // Header bytes that no option fills: the buffer's own bytes stay there.
  function Spare(h: Header): nat { SaturatingSub(h.optionsLen, |OptionBytes(h.options)|) }

  function CarriedWith(t: Tunnelled, gap: seq<u8>, ipc: u16, udpc: u16): seq<u8>
    requires 28 + |t.payload| <= 0xFFFF
  {
    Encoded(t.header) + gap + InnerWith(t, ipc, udpc)
  }

  /** The options fit the length the header states and every length fits its
      field; anything else indexes past the buffer. */
  predicate Fits(t: Tunnelled) {
    |OptionBytes(t.header.options)| <= t.header.optionsLen && 28 + HeaderLen(t.header) + 42 + |t.payload| <= 0xFFFF
  }

  lemma EncodedLen(h: Header)
    ensures |Encoded(h)| == 8 + |OptionBytes(h.options)|
    ensures |OptionBytes(h.options)| <= h.optionsLen ==> |Encoded(h)| + Spare(h) == HeaderLen(h)
    ensures WellFormed(h) ==> Spare(h) == 0
  {
    hide BaseBytes, OptionBytes;
  }

  lemma CarriedLen(t: Tunnelled, gap: seq<u8>, ipc: u16, udpc: u16)
    requires Fits(t) && |gap| == Spare(t.header)
    ensures |Encoded(t.header)| + |gap| == HeaderLen(t.header)
    ensures |CarriedWith(t, gap, ipc, udpc)| == HeaderLen(t.header) + 42 + |t.payload|
  {
    hide InnerWith, Encoded, OptionBytes;
    EncodedLen(t.header);
  }

  // An encapsulated frame with these outer and inner checksums.
  ghost function BuiltWith(t: Tunnelled, gap: seq<u8>, oip: u16, oudp: u16, iip: u16, iudp: u16): (f: seq<u8>)
    requires Fits(t) && |gap| == Spare(t.header)
    ensures |f| == 84 + HeaderLen(t.header) + |t.payload|
  {
    CarriedLen(t, gap, iip, iudp);
    var carried := CarriedWith(t, gap, iip, iudp);
    EthernetHeader(t.outerDstMac, t.outerSrcMac) + Ipv4Header(UdpIp(t.outerSrc, t.outerDst, carried, t.ttl), oip) +
    UdpWith(t.outerSrc.port, t.outerDst.port, oudp, carried)
  }

  /** The frame with the right checksums. */
  ghost function Built(t: Tunnelled, gap: seq<u8>): seq<u8>
    requires Fits(t) && |gap| == Spare(t.header)
  {
    var iip, iudp := InnerIpChecksum(t), InnerUdpChecksum(t);
    CarriedLen(t, gap, iip, iudp);
    var carried := CarriedWith(t, gap, iip, iudp);
    BuiltWith(t, gap, Ipv4ChecksumOf(UdpIp(t.outerSrc, t.outerDst, carried, t.ttl)),
              UdpChecksumFor(t.outerSrc, t.outerDst, carried), iip, iudp)
  }

  // ---------------------------------------------------------------- building in place

  // What a receiver of these bytes computes.
  ghost predicate HeaderVerifies(h: seq<u8>) { ChecksumOf(WordSum(h)) == 0 }

  ghost predicate DatagramVerifies(src: Tcb.Addr, dst: Tcb.Addr, d: seq<u8>) {
    |d| <= 0xFFFF && ChecksumOf(WordSum(PseudoHeader(Be32(src.ip), Be32(dst.ip), 17, |d|) + d)) == 0
  }

  method WriteUdpHeader(out: array<u8>, at: nat, src: u16, dst: u16, len: u16)
    requires at + 8 <= out.Length
    modifies out
    ensures Wrote(out, at, UdpHeader(src, dst, len))
  {
    Put(out, at, Be16(src));
    Put(out, at + 2, Be16(dst));
    Put(out, at + 4, Be16(len));
    Put(out, at + 6, [0, 0]);
    ghost var f := out[..];
    assert f[at..at + 2] == Be16(src) && f[at + 2..at + 4] == Be16(dst) && f[at + 4..at + 6] == Be16(len);
    assert f[at..at + 8] == f[at..at + 2] + f[at + 2..at + 4] + f[at + 4..at + 6] + f[at + 6..at + 8];
    assert out[at..at + 8] == f[at..at + 8];
  }

  // Compute and store the checksum of the datagram in place.
  method PatchUdp(out: array<u8>, at: nat, src: Tcb.Addr, dst: Tcb.Addr, payload: seq<u8>)
    requires 8 + |payload| <= 0xFFFF && at + 8 + |payload| <= out.Length
    requires out[at..at + 8] == UdpHeader(src.port, dst.port, 8 + |payload|)
    requires out[at + 8..at + 8 + |payload|] == payload
    modifies out
    ensures Wrote(out, at, UdpBytes(src, dst, payload))
    ensures out[at + 8..at + 8 + |payload|] == payload
    ensures DatagramVerifies(src, dst, out[at..at + 8 + |payload|])
  {
    hide UdpHeader, UdpChecksumOf, Be32, ChecksumOf, WordSum, PseudoHeader;
    Sizes(0, src.ip);
    Sizes(0, dst.ip);
    ghost var h := out[at..at + 8];
    var c := ChecksumUdp(Be32(src.ip), Be32(dst.ip), out[at..at + 8], payload);
    Put(out, at + 6, Be16(c));
    assert out[at..at + 8] == Fill(h, 6, c);
    assert out[at + 8..at + 8 + |payload|] == payload;
    assert out[at..at + 8 + |payload|] == out[at..at + 8] + out[at + 8..at + 8 + |payload|];
    FilledDatagramVerifies(Be32(src.ip), Be32(dst.ip), h, payload);
  }

  method WriteLinkAndIp(out: array<u8>, at: nat, dst: Mac, src: Mac, i: Ipv4)
    requires at + 34 <= out.Length
    modifies out
    ensures Wrote(out, at, EthernetHeader(dst, src) + Ipv4Bytes(i))
    ensures HeaderVerifies(out[at + 14..at + 34])
  {
    hide EthernetHeader, Ipv4Bytes, ChecksumOf, WordSum;
    WriteEthernet(out, at, dst, src);
    ghost var eth := out[at..at + 14];
    WriteIpv4(out, at + 14, i);
    assert out[at..at + 14] == eth;
    Joined(out[..], at, at + 14, at + 34);
  }

  method WriteUdp(out: array<u8>, at: nat, src: Tcb.Addr, dst: Tcb.Addr, payload: seq<u8>)
    requires 8 + |payload| <= 0xFFFF && at + 8 + |payload| <= out.Length
    modifies out
    ensures Wrote(out, at, UdpBytes(src, dst, payload))
    ensures DatagramVerifies(src, dst, out[at..at + 8 + |payload|])
  {
    hide UdpHeader, UdpBytes, DatagramVerifies;
    WriteUdpHeader(out, at, src.port, dst.port, 8 + |payload|);
    ghost var udp := out[at..at + 8];
    Put(out, at + 8, payload);
    assert out[at..at + 8] == udp;
    PatchUdp(out, at, src, dst, payload);
  }

  ghost predicate InnerVerifies(t: Tunnelled, inner: seq<u8>) {
    && |inner| == 42 + |t.payload|
    && HeaderVerifies(inner[14..34]) && DatagramVerifies(t.innerSrc, t.innerDst, inner[34..])
  }

  method WriteInner(out: array<u8>, at: nat, t: Tunnelled)
    requires 28 + |t.payload| <= 0xFFFF && at + 42 + |t.payload| <= out.Length
    modifies out
    ensures Wrote(out, at, Inner(t))
    ensures InnerVerifies(t, out[at..at + 42 + |t.payload|])
  {
    hide EthernetHeader, Ipv4Header, Ipv4ChecksumOf, UdpWith, UdpChecksumFor, HeaderVerifies, DatagramVerifies;
    WriteLinkAndIp(out, at, t.innerDstMac, t.innerSrcMac, UdpIp(t.innerSrc, t.innerDst, t.payload, 64));
    ghost var head := out[at..at + 34];
    WriteUdp(out, at + 34, t.innerSrc, t.innerDst, t.payload);
    assert out[at..at + 34] == head;
    Joined(out[..], at, at + 34, at + 42 + |t.payload|);
    ghost var inner := out[at..at + 42 + |t.payload|];
    assert inner[14..34] == head[14..34] == out[at + 14..at + 34];
    assert inner[34..] == out[at + 34..at + 42 + |t.payload|];
  }

  // The header, with the gap as the buffer had it.
  method WriteTunnelHeader(out: array<u8>, at: nat, h: Header, gap: seq<u8>) returns (n: nat)
    requires at + |Encoded(h)| + |gap| <= out.Length && |Encoded(h)| + |gap| == HeaderLen(h)
    requires out[at + |Encoded(h)|..at + |Encoded(h)| + |gap|] == gap
    modifies out
    ensures Wrote(out, at, Encoded(h) + gap) && n == HeaderLen(h)
  {
    hide Encoded;
    ghost var m, was := at + |Encoded(h)|, out[..];
    n := Encode(h, out, at);
    assert out[at..m] == Encoded(h);
    assert out[m..m + |gap|] == was[m..m + |gap|] == gap;
    Joined(out[..], at, m, m + |gap|);
    assert out[at..m + |gap|] == out[..][at..m + |gap|];
  }

  method WriteCarried(out: array<u8>, at: nat, t: Tunnelled, gap: seq<u8>)
    requires Fits(t) && |gap| == Spare(t.header) && at + HeaderLen(t.header) + 42 + |t.payload| <= out.Length
    requires |Encoded(t.header)| + |gap| == HeaderLen(t.header)
    requires out[at + |Encoded(t.header)|..at + |Encoded(t.header)| + |gap|] == gap
    modifies out
    ensures Wrote(out, at, CarriedWith(t, gap, InnerIpChecksum(t), InnerUdpChecksum(t)))
    ensures var inner := at + HeaderLen(t.header); InnerVerifies(t, out[inner..inner + 42 + |t.payload|])
  {
    hide Encoded, InnerWith, InnerIpChecksum, InnerUdpChecksum, OptionBytes, Spare, InnerVerifies;
    CarriedLen(t, gap, InnerIpChecksum(t), InnerUdpChecksum(t));
    var g := WriteTunnelHeader(out, at, t.header, gap);
    ghost var head := out[at..at + g];
    WriteInner(out, at + g, t);
    assert out[at..at + g] == head;
    Joined(out[..], at, at + g, at + g + 42 + |t.payload|);
  }

  // A buffer cut or zero-filled to a length.
  function Resized(s: seq<u8>, n: nat): (r: seq<u8>)
    ensures |r| == n
  {
    if n <= |s| then s[..n] else s + seq(n - |s|, _ => 0)
  }

  // Outer and inner, over the bytes that stand in the frame.
  ghost predicate EveryChecksumVerifies(t: Tunnelled, f: seq<u8>) {
    && |f| == 84 + HeaderLen(t.header) + |t.payload|
    && HeaderVerifies(f[14..34]) && DatagramVerifies(t.outerSrc, t.outerDst, f[34..])
    && InnerVerifies(t, f[42 + HeaderLen(t.header)..])
  }

  /** The frame in a reused buffer: every byte is the specified one, except
      that header bytes no option fills keep what the buffer held, and every
      checksum in it verifies. */
  method BuildGeneveFrame(t: Tunnelled, previous: seq<u8>) returns (out: array<u8>)
    requires Fits(t)
    ensures fresh(out)
    ensures var n, g := |Encoded(t.header)|, HeaderLen(t.header);
            && n <= g
            && out[..] == Built(t, Resized(previous, 84 + g + |t.payload|)[42 + n..42 + g])
    ensures EveryChecksumVerifies(t, out[..])
  {
    hide EveryChecksumVerifies;
    hide EthernetHeader, Ipv4Header, Ipv4ChecksumOf, UdpHeader, UdpWith, UdpChecksumFor, CarriedWith, InnerIpChecksum,
      InnerUdpChecksum, Encoded, OptionBytes, Resized;
    EncodedLen(t.header);
    var n := HeaderLen(t.header) + 42 + |t.payload|;
    var start := Resized(previous, 42 + n);
    out := new u8[42 + n](i requires 0 <= i < 42 + n => start[i]);
    var m := 42 + |Encoded(t.header)|;
    var gap := start[m..42 + HeaderLen(t.header)];
    assert out[m..m + |gap|] == gap;
    BuildOver(out, t, gap);
  }

  // Write the frame over a buffer whose gap is known.
  method BuildOver(out: array<u8>, t: Tunnelled, gap: seq<u8>)
    requires Fits(t) && |gap| == Spare(t.header) && out.Length == 84 + HeaderLen(t.header) + |t.payload|
    requires |Encoded(t.header)| + |gap| == HeaderLen(t.header)
    requires out[42 + |Encoded(t.header)|..42 + |Encoded(t.header)| + |gap|] == gap
    modifies out
    ensures out[..] == Built(t, gap)
    ensures EveryChecksumVerifies(t, out[..])
  {
    hide EthernetHeader, Ipv4Header, Ipv4ChecksumOf, UdpHeader, UdpWith, UdpChecksumFor, CarriedWith, InnerIpChecksum,
      InnerUdpChecksum, Encoded, OptionBytes, Spare, HeaderVerifies, DatagramVerifies, InnerVerifies;
    CarriedLen(t, gap, InnerIpChecksum(t), InnerUdpChecksum(t));
    var n := HeaderLen(t.header) + 42 + |t.payload|;
    WriteLinkAndIp(out, 0, t.outerDstMac, t.outerSrcMac,
                   Ipv4(28 + n, t.ttl, PROTOCOL_UDP, t.outerSrc.ip, t.outerDst.ip));
    ghost var head := out[0..34];
    WriteUdpHeader(out, 34, t.outerSrc.port, t.outerDst.port, 8 + n);
    ghost var udp := out[34..42];
    assert out[42 + |Encoded(t.header)|..42 + |Encoded(t.header)| + |gap|] == gap;
    WriteCarried(out, 42, t, gap);
    assert out[0..34] == head && out[34..42] == udp;
    assert out[14..34] == head[14..34];
    ghost var g := 42 + HeaderLen(t.header);
    assert out[42..] == out[42..42 + n] && out[g..] == out[g..g + 42 + |t.payload|];
    SealOuter(out, t, out[42..]);
  }

  // Compute the outer checksum last.
  method SealOuter(out: array<u8>, t: Tunnelled, carried: seq<u8>)
    requires |carried| == HeaderLen(t.header) + 42 + |t.payload| && 28 + |carried| <= 0xFFFF
    requires out.Length == 42 + |carried| && out[42..] == carried
    requires out[0..34] ==
             EthernetHeader(t.outerDstMac, t.outerSrcMac) + Ipv4Bytes(UdpIp(t.outerSrc, t.outerDst, carried, t.ttl))
    requires HeaderVerifies(out[14..34]) && InnerVerifies(t, out[42 + HeaderLen(t.header)..])
    requires out[34..42] == UdpHeader(t.outerSrc.port, t.outerDst.port, 8 + |carried|)
    modifies out
    ensures out[..] == EthernetHeader(t.outerDstMac, t.outerSrcMac) +
                       Ipv4Bytes(UdpIp(t.outerSrc, t.outerDst, carried, t.ttl)) +
                       UdpBytes(t.outerSrc, t.outerDst, carried)
    ensures EveryChecksumVerifies(t, out[..])
  {
    hide EthernetHeader, Ipv4Bytes, UdpHeader, UdpBytes, HeaderVerifies, DatagramVerifies, InnerVerifies;
    ghost var head, end, g := out[0..34], 42 + |carried|, HeaderLen(t.header);
    ghost var inner := out[42 + g..];
    assert out[42..end] == carried && inner == carried[g..];
    assert out[14..34] == head[14..34];
    PatchUdp(out, 34, t.outerSrc, t.outerDst, carried);
    assert out[0..34] == head;
    ghost var f := out[..];
    Joined(f, 0, 34, end);
    assert f[14..34] == head[14..34] && f[34..] == out[34..end];
    assert f[42 + g..] == out[42..end][g..] == inner;
  }

  // ---------------------------------------------------------------- decapsulation

  datatype Decapped = Decapped(
    innerSrc: Tcb.Addr,
    innerDst: Tcb.Addr,
    payload: seq<u8>,
    outerSrcIp: u32,
    header: Header,
    innerSrcMac: Mac,
    innerDstMac: Mac)

  // The UDP datagram inside an inner IPv4 packet.
  function OpenInner(f: seq<u8>, eth: nat, outerSrcIp: u32, header: Header): Option<Decapped> {
    if |f| < eth + 14 || At16(f, eth + 12) != ETHERTYPE_IPV4 || |f| < eth + 34 then None
    else
      var ip := eth + 14;
      var ihl: nat := f[ip] % 16 * 4;
      if f[ip] / 16 != 4 || ihl < 20 || |f| < ip + ihl || f[ip + 9] != PROTOCOL_UDP || |f| < ip + ihl + 8 then None
      else
        var udp := ip + ihl;
        var len := At16(f, udp + 4);
        if len < 8 || |f| < udp + len then None
        else
          Some(Decapped(
                 Tcb.Addr(At32(f, ip + 12), At16(f, udp)), Tcb.Addr(At32(f, ip + 16), At16(f, udp + 2)),
                 f[udp + 8..udp + len], outerSrcIp, header, f[eth + 6..eth + 12], f[eth..eth + 6]))
  }

  /** Open a received frame whose IPv4 header starts at an offset. */
  function Decap(f: seq<u8>, l3: nat, port: u16, vni: Option<u32>): Option<Decapped> {
    if |f| < l3 + 20 || f[l3 + 9] != PROTOCOL_UDP then None
    else
      var ihl: nat := f[l3] % 16 * 4;
      if ihl < 20 || |f| < l3 + ihl + 8 || At16(f, l3 + ihl + 2) != port then None
      else
        var off := l3 + ihl + 8;
        var header := Parse(f[off..]);
        if header.None? || (vni.Some? && header.value.vni != vni.value) then None
        else OpenInner(f, off + HeaderLen(header.value), At32(f, l3 + 12), header.value)
  }

  // Whatever the checksum.
  lemma UdpFields(f: seq<u8>, at: nat, src: u16, dst: u16, c: u16, payload: seq<u8>)
    requires 8 + |payload| <= 0xFFFF && Stands(f, at, UdpWith(src, dst, c, payload))
    ensures At16(f, at) == src && At16(f, at + 2) == dst && At16(f, at + 4) == 8 + |payload|
    ensures Stands(f, at + 8, payload)
  {
    hide Be16, At16;
    Sizes(src, 0);
    Sizes(dst, 0);
    var len: u16 := 8 + |payload|;
    Sizes(len, 0);
    var h := UdpHeader(src, dst, len);
    var k := [c / 0x100, c % 0x100];
    assert Fill(h, 6, c) == Be16(src) + Be16(dst) + Be16(len) + k;
    StandsPart(f, at, Fill(h, 6, c), payload);
    StandsPart(f, at, Be16(src) + Be16(dst) + Be16(len), k);
    StandsPart(f, at, Be16(src) + Be16(dst), Be16(len));
    StandsPart(f, at, Be16(src), Be16(dst));
    Stands16(f, at, src);
    Stands16(f, at + 2, dst);
    Stands16(f, at + 4, len);
  }

  // Decapsulation looks at no checksum.
  lemma InnerOpens(f: seq<u8>, eth: nat, t: Tunnelled, ipc: u16, udpc: u16, outerSrcIp: u32)
    requires 28 + |t.payload| <= 0xFFFF && Stands(f, eth, InnerWith(t, ipc, udpc))
    ensures OpenInner(f, eth, outerSrcIp, t.header) ==
            Some(Decapped(t.innerSrc, t.innerDst, t.payload, outerSrcIp, t.header, t.innerSrcMac, t.innerDstMac))
  {
    hide EthernetHeader, Ipv4Header, UdpWith, At16, At32;
    var e := EthernetHeader(t.innerDstMac, t.innerSrcMac);
    var i := UdpIp(t.innerSrc, t.innerDst, t.payload, 64);
    var u := UdpWith(t.innerSrc.port, t.innerDst.port, udpc, t.payload);
    StandsPart(f, eth, e + Ipv4Header(i, ipc), u);
    StandsPart(f, eth, e, Ipv4Header(i, ipc));
    EthernetFields(f, eth, t.innerDstMac, t.innerSrcMac);
    Ipv4Fields(f, eth + 14, i, ipc);
    UdpFields(f, eth + 34, t.innerSrc.port, t.innerDst.port, udpc, t.payload);
  }

  lemma HeaderParses(f: seq<u8>, off: nat, h: Header, rest: seq<u8>)
    requires Stands(f, off, Encoded(h) + rest)
    ensures Parse(f[off..]) == Some(h) <==> WellFormed(h)
    ensures WellFormed(h) ==> Stands(f, off + HeaderLen(h), rest)
  {
    hide Encoded, Parse, WellFormed;
    EncodedLen(h);
    StandsPart(f, off, Encoded(h), rest);
    assert f[off..] == Encoded(h) + f[off + |Encoded(h)|..];
    ParseInvertsEncodeExactly(h, f[off + |Encoded(h)|..]);
    if WellFormed(h) {
      WellFormedLen(h);
    }
  }

  lemma WellFormedLen(h: Header)
    requires WellFormed(h)
    ensures |Encoded(h)| == HeaderLen(h)
  {
  }

  // The fixed part in front of the tunnel header.
  lemma OuterFields(t: Tunnelled, gap: seq<u8>, oip: u16, oudp: u16, iip: u16, iudp: u16, tail: seq<u8>)
    requires Fits(t) && |gap| == Spare(t.header)
    ensures var f := BuiltWith(t, gap, oip, oudp, iip, iudp) + tail;
            && |f| >= 42 && f[14] == 0x45 && f[23] == PROTOCOL_UDP
            && At32(f, 26) == t.outerSrc.ip && At16(f, 36) == t.outerDst.port
            && Stands(f, 42, CarriedWith(t, gap, iip, iudp))
  {
    hide EthernetHeader, Ipv4Header, UdpWith, At16, At32, InnerWith, Encoded, OptionBytes, Spare;
    var whole, carried := BuiltWith(t, gap, oip, oudp, iip, iudp), CarriedWith(t, gap, iip, iudp);
    var f := whole + tail;
    CarriedLen(t, gap, iip, iudp);
    var i := UdpIp(t.outerSrc, t.outerDst, carried, t.ttl);
    var e, u := EthernetHeader(t.outerDstMac, t.outerSrcMac), UdpWith(t.outerSrc.port, t.outerDst.port, oudp, carried);
    assert f[0..|whole|] == whole;
    StandsPart(f, 0, e + Ipv4Header(i, oip), u);
    StandsPart(f, 0, e, Ipv4Header(i, oip));
    Ipv4Fields(f, 14, i, oip);
    UdpFields(f, 34, t.outerSrc.port, t.outerDst.port, oudp, carried);
  }

  /** Decapsulating a frame, whatever its checksums and with anything behind
      it: with a well-formed header it recovers the header, the inner addresses and
      the payload if the port and the network identifier are the expected
      ones, and nothing otherwise; the header comes back in no other case. */
  lemma DecapRecovers(t: Tunnelled, gap: seq<u8>, oip: u16, oudp: u16, iip: u16, iudp: u16, tail: seq<u8>, port: u16,
                      vni: Option<u32>)
    requires Fits(t) && |gap| == Spare(t.header)
    ensures var d := Decap(BuiltWith(t, gap, oip, oudp, iip, iudp) + tail, 14, port, vni);
            var expected := port == t.outerDst.port && (vni.None? || vni.value == t.header.vni);
            && (WellFormed(t.header) ==>
                  d == if expected
                       then Some(Decapped(t.innerSrc, t.innerDst, t.payload, t.outerSrc.ip, t.header,
                                          t.innerSrcMac, t.innerDstMac))
                       else None)
            && (d.Some? && d.value.header == t.header <==> WellFormed(t.header) && expected)
  {
    hide At16, At32, OpenInner, Parse, InnerWith, WellFormed, Encoded, BuiltWith, OptionBytes, Spare, Decap;
    var f := BuiltWith(t, gap, oip, oudp, iip, iudp) + tail;
    var inner := InnerWith(t, iip, iudp);
    OuterFields(t, gap, oip, oudp, iip, iudp, tail);
    DecapPlain(f, port, vni);
    EncodedLen(t.header);
    assert Encoded(t.header) + gap + inner == Encoded(t.header) + (gap + inner);
    HeaderParses(f, 42, t.header, gap + inner);
    if WellFormed(t.header) {
      assert gap == [] && gap + inner == inner;
      InnerOpens(f, 42 + HeaderLen(t.header), t, iip, iudp, t.outerSrc.ip);
    } else if Parse(f[42..]).Some? {
      OpenInnerHeader(f, 42 + HeaderLen(Parse(f[42..]).value), At32(f, 26), Parse(f[42..]).value);
    }
  }

  // Decapsulation behind a plain IPv4 header.
  lemma DecapPlain(f: seq<u8>, port: u16, vni: Option<u32>)
    requires |f| >= 42 && f[14] == 0x45 && f[23] == PROTOCOL_UDP
    ensures var header := Parse(f[42..]);
            Decap(f, 14, port, vni) ==
            if At16(f, 36) != port || header.None? || (vni.Some? && header.value.vni != vni.value) then None
            else OpenInner(f, 42 + HeaderLen(header.value), At32(f, 26), header.value)
  {
    hide At16, At32, OpenInner, Parse;
  }

  lemma OpenInnerHeader(f: seq<u8>, eth: nat, outerSrcIp: u32, header: Header)
    ensures var d := OpenInner(f, eth, outerSrcIp, header); d.Some? ==> d.value.header == header
  {
    hide At16, At32;
  }
}
