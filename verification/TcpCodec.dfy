/** TCP frames on the wire: Ethernet, IPv4 and TCP headers, options, payload. */
module TcpCodec {
  import opened Types
  import opened Bytes
  import opened Checksum
  import opened Headers
  import opened Tcb
  import opened TcpOptionsCodec

  const PROTOCOL_TCP: u8 := 6

  datatype FrameParams = FrameParams(srcMac: Mac, dstMac: Mac, seg: Segment, ttl: u8)

  // ---------------------------------------------------------------- the frame

  function Carried(p: FrameParams): TcpOptions { TcpOptionsCodec.Completed(p.seg.options, Has(p.seg.flags, SYN)) }

  function Options(p: FrameParams): seq<u8> { Encoded(Carried(p)) }

  function HeaderLen(p: FrameParams): nat { 20 + |Options(p)| }

  function TotalLen(p: FrameParams): nat { 20 + HeaderLen(p) + |p.seg.payload| }

  function Ip(p: FrameParams): Ipv4 { Ipv4(TotalLen(p) % TWO16, p.ttl, PROTOCOL_TCP, p.seg.src.ip, p.seg.dst.ip) }

  // The data offset is kept in four bits.
  function OffsetByte(p: FrameParams): u8 { HeaderLen(p) / 4 % 16 * 16 }

  // Ports and sequence numbers.
  function TcpNumbers(p: FrameParams): (h: seq<u8>)
    ensures |h| == 12
  {
    Be16(p.seg.src.port) + Be16(p.seg.dst.port) + Be32(p.seg.seqNo) + Be32(p.seg.ackNo)
  }

  // Offset, flags, window, checksum and urgent pointer.
  function TcpControl(p: FrameParams, checksum: u16): (h: seq<u8>)
    ensures |h| == 8
  {
    [OffsetByte(p), p.seg.flags] + Be16(p.seg.window) + Be16(checksum) + [0, 0]
  }

  function TcpHeader(p: FrameParams, checksum: u16): (h: seq<u8>)
    ensures |h| == 20
  {
    TcpNumbers(p) + TcpControl(p, checksum)
  }

  function SegmentBytes(p: FrameParams, checksum: u16): (s: seq<u8>)
    ensures |s| == HeaderLen(p) + |p.seg.payload|
  {
    TcpHeader(p, checksum) + Options(p) + p.seg.payload
  }

  function TcpChecksumOf(p: FrameParams): u16 {
    ChecksumOf(TcpSum(Be32(p.seg.src.ip), Be32(p.seg.dst.ip), SegmentBytes(p, 0)))
  }

  /** The whole frame, with these checksums. */
  function FrameWith(p: FrameParams, ipChecksum: u16, tcpChecksum: u16): (f: seq<u8>)
    ensures |f| == 14 + TotalLen(p)
  {
    EthernetHeader(p.dstMac, p.srcMac) + Ipv4Header(Ip(p), ipChecksum) + SegmentBytes(p, tcpChecksum)
  }

  /** The whole frame, with the right checksums. */
  function Frame(p: FrameParams): seq<u8> { FrameWith(p, Ipv4ChecksumOf(Ip(p)), TcpChecksumOf(p)) }

  // ---------------------------------------------------------------- writing in place

  lemma ChecksumFieldTcp(p: FrameParams, c: u16)
    ensures SegmentBytes(p, 0)[16] == 0 && SegmentBytes(p, 0)[17] == 0
    ensures SegmentBytes(p, c) == Fill(SegmentBytes(p, 0), 16, c)
  {
    hide TcpNumbers, Options, OffsetByte;
    var a := TcpNumbers(p) + [OffsetByte(p), p.seg.flags] + Be16(p.seg.window);
    var b := [0, 0] + Options(p) + p.seg.payload;
    assert SegmentBytes(p, 0) == a + [0, 0] + b;
    assert SegmentBytes(p, c) == a + [c / 0x100, c % 0x100] + b;
  }

  method WriteTcpNumbers(frame: array<u8>, p: FrameParams)
    requires frame.Length >= 54
    modifies frame
    ensures Wrote(frame, 34, TcpNumbers(p))
  {
    hide Be16, Be32;
    Sizes(p.seg.src.port, p.seg.seqNo);
    Sizes(p.seg.dst.port, p.seg.ackNo);
    Put(frame, 34, Be16(p.seg.src.port));
    Put(frame, 36, Be16(p.seg.dst.port));
    Put(frame, 38, Be32(p.seg.seqNo));
    Put(frame, 42, Be32(p.seg.ackNo));
    ghost var f := frame[..];
    assert f[34..36] == Be16(p.seg.src.port) && f[36..38] == Be16(p.seg.dst.port);
    assert f[38..42] == Be32(p.seg.seqNo) && f[42..46] == Be32(p.seg.ackNo);
    assert f[34..46] == f[34..36] + f[36..38] + f[38..42] + f[42..46];
    assert frame[34..46] == f[34..46];
  }

  method WriteTcpControl(frame: array<u8>, p: FrameParams)
    requires frame.Length >= 54
    modifies frame
    ensures Wrote(frame, 46, TcpControl(p, 0))
  {
    hide OffsetByte;
    Put(frame, 46, [OffsetByte(p)]);
    Put(frame, 47, [p.seg.flags]);
    Put(frame, 48, Be16(p.seg.window));
    Put(frame, 50, [0, 0]);
    Put(frame, 52, [0, 0]);
    ghost var f := frame[..];
    assert f[46..48] == [OffsetByte(p), p.seg.flags] && f[48..50] == Be16(p.seg.window);
    assert f[50..52] == [0, 0] == Be16(0) && f[52..54] == [0, 0];
    assert f[46..54] == f[46..48] + f[48..50] + f[50..52] + f[52..54];
    assert frame[46..54] == f[46..54];
  }

  lemma JoinThree(s: seq<u8>, a: nat, b: nat, c: nat)
    requires a <= b <= c <= |s|
    ensures s[a..] == s[a..b] + s[b..c] + s[c..]
  {
  }

  method WriteTcpFields(frame: array<u8>, p: FrameParams, options: seq<u8>)
    requires frame.Length == 14 + TotalLen(p) && options == Options(p)
    modifies frame
    ensures frame[34..] == SegmentBytes(p, 0)
    ensures frame[..34] == old(frame[..34])
  {
    hide TcpNumbers, TcpControl, Options;
    WriteTcpNumbers(frame, p);
    WriteTcpControl(frame, p);
    assert frame[34..46] == TcpNumbers(p);
    assert frame[34..54] == frame[34..46] + frame[46..54];
    Put(frame, 54, options);
    Put(frame, 54 + |options|, p.seg.payload);
    assert frame[34..54] == TcpHeader(p, 0);
    assert frame[54..54 + |options|] == options;
    JoinThree(frame[..], 34, 54, 54 + |options|);
  }

  method WriteTcp(frame: array<u8>, p: FrameParams, options: seq<u8>)
    requires frame.Length == 14 + TotalLen(p) && options == Options(p)
    modifies frame
    ensures frame[34..] == SegmentBytes(p, TcpChecksumOf(p))
    ensures frame[..34] == old(frame[..34])
    ensures TotalLen(p) <= 0xFFFF ==> ChecksumOf(TcpSum(Be32(p.seg.src.ip), Be32(p.seg.dst.ip), frame[34..])) == 0
  {
    hide SegmentBytes, ChecksumOf, TcpSum, Be32, Options;
    WriteTcpFields(frame, p, options);
    var c := TcpChecksum(Be32(p.seg.src.ip), Be32(p.seg.dst.ip), frame[34..]);
    ghost var before := frame[34..];
    Put(frame, 50, Be16(c));
    ChecksumFieldTcp(p, c);
    assert frame[34..] == Fill(before, 16, c);
    if TotalLen(p) <= 0xFFFF {
      Sizes(0, p.seg.src.ip);
      Sizes(0, p.seg.dst.ip);
      FilledSegmentChecks(Be32(p.seg.src.ip), Be32(p.seg.dst.ip), before, 16);
    }
  }

  /** Recomputing either checksum over the filled-in bytes of a frame within
      the IPv4 length limit gives zero, odd payload lengths included. */
  method BuildTcpFrame(p: FrameParams) returns (frame: array<u8>)
    ensures fresh(frame) && frame[..] == Frame(p)
    ensures ChecksumOf(WordSum(frame[14..34])) == 0
    ensures TotalLen(p) <= 0xFFFF ==> ChecksumOf(TcpSum(frame[26..30], frame[30..34], frame[34..])) == 0
  {
    hide SegmentBytes, Ipv4Header, Ipv4ChecksumOf, EthernetHeader, TcpChecksumOf, Encoded, ChecksumOf, WordSum,
      TcpSum, Be32;
    var options := SerializeOptions(p.seg.options, p.seg.flags);
    frame := new u8[14 + 20 + 20 + |options| + |p.seg.payload|](_ => 0);
    WriteEthernet(frame, 0, p.dstMac, p.srcMac);
    ghost var eth := frame[..14];
    WriteIpv4(frame, 14, Ip(p));
    assert frame[..14] == eth;
    ghost var ip := frame[14..34];
    WriteTcp(frame, p, options);
    assert frame[..34][14..34] == ip;
    assert frame[14..34] == ip;
    assert frame[..] == frame[..14] + frame[14..34] + frame[34..];
    ChecksummedParts(p, Ipv4ChecksumOf(Ip(p)), TcpChecksumOf(p));
    assert frame[26..30] == frame[..][26..30] && frame[30..34] == frame[..][30..34];
  }

  /** What a receiver sums is what the sender summed: the IPv4 header, the
      addresses of the pseudo-header and the segment stand at their offsets. */
  lemma ChecksummedParts(p: FrameParams, ipc: u16, tcpc: u16)
    ensures var f := FrameWith(p, ipc, tcpc);
            && f[14..34] == Ipv4Header(Ip(p), ipc) && f[34..] == SegmentBytes(p, tcpc)
            && f[26..30] == Be32(p.seg.src.ip) && f[30..34] == Be32(p.seg.dst.ip)
  {
    hide Be32, Options, EthernetHeader, SegmentBytes, Ipv4Header;
    var f, h := FrameWith(p, ipc, tcpc), Ipv4Header(Ip(p), ipc);
    assert f[14..34] == h;
    SliceOfSlice(f, 14, 34, 12, 16);
    SliceOfSlice(f, 14, 34, 16, 20);
    AddressesInHeader(Ip(p), ipc);
  }

  lemma AddressesInHeader(i: Ipv4, c: u16)
    ensures Ipv4Header(i, c)[12..16] == Be32(i.src) && Ipv4Header(i, c)[16..20] == Be32(i.dst)
  {
    hide Be32;
    Sizes(0, i.src);
    Sizes(0, i.dst);
  }

  // ---------------------------------------------------------------- parsing

  datatype ParseError = FrameTooShort | NotIpv4 | NotTcp | HeaderTooShort | BadDataOffset | OptionsTooShort

  datatype Parsed = Ok(seg: Segment) | Err(error: ParseError)

  function PayloadOf(f: seq<u8>, start: nat, ipTotal: nat): seq<u8>
    requires start <= |f|
  {
    var end := Min(14 + ipTotal, |f|);
    if end > start then f[start..end] else []
  }

  /** What a received frame means. */
  function ParseFrame(f: seq<u8>): Parsed {
    if |f| < 54 then Err(FrameTooShort)
    else if At16(f, 12) != ETHERTYPE_IPV4 then Err(NotIpv4)
    else if f[23] != PROTOCOL_TCP then Err(NotTcp)
    else
      var tcp := 14 + f[14] % 16 * 4;
      if |f| < tcp + 20 then Err(HeaderTooShort)
      else if f[tcp + 12] / 16 < 5 then Err(BadDataOffset)
      else
        var headerLen := f[tcp + 12] / 16 * 4;
        if |f| < tcp + headerLen then Err(OptionsTooShort)
        else
          Ok(Segment(
               Addr(At32(f, 26), At16(f, tcp)),
               Addr(At32(f, 30), At16(f, tcp + 2)),
               At32(f, tcp + 4), At32(f, tcp + 8), f[tcp + 13], At16(f, tcp + 14),
               ParseFrom(f[tcp + 20..tcp + headerLen], 0, NO_OPTIONS),
               PayloadOf(f, tcp + headerLen, At16(f, 16))))
  }

  method ParseTcpPacket(f: seq<u8>) returns (r: Parsed)
    ensures r == ParseFrame(f)
  {
    hide ParseFrom, Read16, Read32;
    if |f| < 54 {
      return Err(FrameTooShort);
    }
    if At16(f, 12) != ETHERTYPE_IPV4 {
      return Err(NotIpv4);
    }
    if f[23] != PROTOCOL_TCP {
      return Err(NotTcp);
    }
    var src, dst := At32(f, 26), At32(f, 30);
    var tcp := 14 + f[14] % 16 * 4;
    if |f| < tcp + 20 {
      return Err(HeaderTooShort);
    }
    var srcPort, dstPort, seqNo, ackNo := At16(f, tcp), At16(f, tcp + 2), At32(f, tcp + 4), At32(f, tcp + 8);
    var dataOffset := f[tcp + 12] / 16;
    if dataOffset < 5 {
      return Err(BadDataOffset);
    }
    var headerLen := dataOffset * 4;
    if |f| < tcp + headerLen {
      return Err(OptionsTooShort);
    }
    var options := ParseOptions(f[tcp + 20..tcp + headerLen]);
    var start := tcp + headerLen;
    var end := Min(14 + At16(f, 16), |f|);
    var payload := if end > start then f[start..end] else [];
    return Ok(Segment(Addr(src, srcPort), Addr(dst, dstPort), seqNo, ackNo, f[tcp + 13], At16(f, tcp + 14),
                      options, payload));
  }

  // ---------------------------------------------------------------- round trip

  lemma TcpFields(f: seq<u8>, p: FrameParams, c: u16)
    requires Stands(f, 34, TcpHeader(p, c))
    ensures At16(f, 34) == p.seg.src.port && At16(f, 36) == p.seg.dst.port
    ensures At32(f, 38) == p.seg.seqNo && At32(f, 42) == p.seg.ackNo
    ensures f[46] == OffsetByte(p) && f[47] == p.seg.flags && At16(f, 48) == p.seg.window
  {
    hide Be16, Be32, At16, At32, OffsetByte;
    Sizes(p.seg.src.port, p.seg.seqNo);
    Sizes(p.seg.dst.port, p.seg.ackNo);
    Sizes(p.seg.window, 0);
    Sizes(c, 0);
    var sp, dp, sq, ak, wn := Be16(p.seg.src.port), Be16(p.seg.dst.port), Be32(p.seg.seqNo), Be32(p.seg.ackNo),
                              Be16(p.seg.window);
    var m := [OffsetByte(p), p.seg.flags];
    StandsPart(f, 34, TcpNumbers(p), TcpControl(p, c));
    StandsPart(f, 46, m + wn + Be16(c), [0, 0]);
    StandsPart(f, 46, m + wn, Be16(c));
    StandsPart(f, 46, m, wn);
    StandsPart(f, 34, sp + dp + sq, ak);
    StandsPart(f, 34, sp + dp, sq);
    StandsPart(f, 34, sp, dp);
    StandsByte(f, 46, m, 0);
    StandsByte(f, 46, m, 1);
    Stands16(f, 34, p.seg.src.port);
    Stands16(f, 36, p.seg.dst.port);
    Stands32(f, 38, p.seg.seqNo);
    Stands32(f, 42, p.seg.ackNo);
    Stands16(f, 48, p.seg.window);
  }

  // The parts of a frame with anything behind it.
  lemma FrameParts(p: FrameParams, ipc: u16, tcpc: u16, padding: seq<u8>)
    ensures var f := FrameWith(p, ipc, tcpc) + padding;
            && Stands(f, 0, EthernetHeader(p.dstMac, p.srcMac))
            && Stands(f, 14, Ipv4Header(Ip(p), ipc)) && Stands(f, 34, TcpHeader(p, tcpc))
            && Stands(f, 54, Options(p)) && Stands(f, 34 + HeaderLen(p), p.seg.payload)
  {
    hide EthernetHeader, Ipv4Header, TcpHeader, Options;
    var whole := FrameWith(p, ipc, tcpc);
    var f := whole + padding;
    var eth, ip, tcp := EthernetHeader(p.dstMac, p.srcMac), Ipv4Header(Ip(p), ipc), TcpHeader(p, tcpc);
    assert whole == eth + ip + (tcp + Options(p) + p.seg.payload);
    assert f[0..|whole|] == whole;
    StandsPart(f, 0, eth + ip, tcp + Options(p) + p.seg.payload);
    StandsPart(f, 0, eth, ip);
    StandsPart(f, 34, tcp + Options(p), p.seg.payload);
    StandsPart(f, 34, tcp, Options(p));
  }

  // The offset nibble gives the header length back exactly up to 60 bytes.
  lemma OffsetReadsBack(p: FrameParams)
    ensures OffsetByte(p) / 16 * 4 == HeaderLen(p) <==> |Options(p)| <= 40
    ensures |Options(p)| <= 40 ==> OffsetByte(p) / 16 >= 5
    ensures OffsetByte(p) / 16 * 4 <= HeaderLen(p)
  {
    hide Encoded;
    EncodedAligned(Carried(p));
    var w := EncodedWords(Carried(p));
    assert HeaderLen(p) == 4 * (5 + w);
    assert OffsetByte(p) == (5 + w) % 16 * 16;
  }

  lemma FewSackBlocks(p: FrameParams)
    requires |Options(p)| <= 40
    ensures |Carried(p).sackBlocks| <= 31
  {
    hide Encoded;
    EncodedAligned(Carried(p));
  }

  // Parsing a frame whose IPv4 header is plain.
  lemma PlainParse(f: seq<u8>)
    requires |f| >= 54 && At16(f, 12) == ETHERTYPE_IPV4 && f[14] == 0x45 && f[23] == PROTOCOL_TCP
    requires 34 + f[46] / 16 * 4 <= |f|
    ensures var offset := f[46] / 16;
            ParseFrame(f) ==
            if offset < 5 then Err(BadDataOffset)
            else Ok(Segment(Addr(At32(f, 26), At16(f, 34)), Addr(At32(f, 30), At16(f, 36)), At32(f, 38), At32(f, 42),
                            f[47],
                            At16(f, 48), ParseFrom(f[54..34 + offset * 4], 0, NO_OPTIONS),
                            PayloadOf(f, 34 + offset * 4, At16(f, 16))))
  {
    hide At16, At32, ParseFrom;
  }

  /** What parsing a built frame with trailing padding comes to, whatever its
      checksums. */
  lemma ParsedFrame(p: FrameParams, ipc: u16, tcpc: u16, padding: seq<u8>)
    requires TotalLen(p) <= 0xFFFF
    ensures var f := FrameWith(p, ipc, tcpc) + padding;
            var offset := OffsetByte(p) / 16;
            && 34 + offset * 4 <= |f|
            && ParseFrame(f) ==
               if offset < 5 then Err(BadDataOffset)
               else Ok(p.seg.(options := ParseFrom(f[54..34 + offset * 4], 0, NO_OPTIONS),
                              payload := PayloadOf(f, 34 + offset * 4, TotalLen(p))))
  {
    hide EthernetHeader, Ipv4Header, TcpHeader, Options, At16, At32, FrameWith, ParseFrom, Stands, OffsetByte,
      ParseFrame,
      PayloadOf;
    var f := FrameWith(p, ipc, tcpc) + padding;
    FrameParts(p, ipc, tcpc, padding);
    EthernetFields(f, 0, p.dstMac, p.srcMac);
    Ipv4Fields(f, 14, Ip(p), ipc);
    TcpFields(f, p, tcpc);
    OffsetReadsBack(p);
    PlainParse(f);
  }

  /** A frame within the IPv4 length limit, whatever its checksums and
      followed by any padding, parses back to its fields, options with SYN
      defaults and payload if and only if its options take at most 40 bytes. */
  lemma RoundTripsExactly(p: FrameParams, ipc: u16, tcpc: u16, padding: seq<u8>)
    requires TotalLen(p) <= 0xFFFF
    ensures ParseFrame(FrameWith(p, ipc, tcpc) + padding) == Ok(p.seg.(options := Carried(p))) <==> |Options(p)| <= 40
  {
    hide EthernetHeader, Ipv4Header, TcpHeader, Encoded, FrameWith, ParseFrom, Stands, OffsetByte, ParseFrame, Carried;
    var f := FrameWith(p, ipc, tcpc) + padding;
    ParsedFrame(p, ipc, tcpc, padding);
    OffsetReadsBack(p);
    FrameParts(p, ipc, tcpc, padding);
    if |Options(p)| <= 40 {
      FewSackBlocks(p);
      StandsSlice(f, 54, Options(p));
      StandsSlice(f, 34 + HeaderLen(p), p.seg.payload);
      OptionsRoundTrip(Carried(p));
    }
  }

  lemma StandsSlice(s: seq<u8>, at: nat, bytes: seq<u8>)
    requires Stands(s, at, bytes)
    ensures at + |bytes| <= |s| && s[at..at + |bytes|] == bytes
  {
  }

  /** Every segment the engine sends after the handshake survives the wire. */
  lemma DataSegmentsRoundTrip(p: FrameParams, ipc: u16, tcpc: u16, padding: seq<u8>)
    requires p.seg.options == NO_OPTIONS && !Has(p.seg.flags, SYN) && |p.seg.payload| <= 0xFFFF - 40
    ensures ParseFrame(FrameWith(p, ipc, tcpc) + padding) == Ok(p.seg)
  {
    hide ParseFrame, FrameWith, Encoded, Has;
    EncodedAligned(Carried(p));
    RoundTripsExactly(p, ipc, tcpc, padding);
  }

  /** Five SACK blocks overflow the data offset: the frame does not parse. */
  lemma FiveSackBlocksDoNotParse(p: FrameParams, ipc: u16, tcpc: u16, padding: seq<u8>)
    requires TotalLen(p) <= 0xFFFF && !Has(p.seg.flags, SYN)
    requires p.seg.options == NO_OPTIONS.(sackBlocks := p.seg.options.sackBlocks) && |p.seg.options.sackBlocks| == 5
    ensures ParseFrame(FrameWith(p, ipc, tcpc) + padding) == Err(BadDataOffset)
  {
    hide Encoded, ParseFrame, FrameWith;
    EncodedAligned(Carried(p));
    ParsedFrame(p, ipc, tcpc, padding);
  }
}
