/** The bytes themselves: what stands at which offset of a frame, as numbers,
    and the option lists a parser has to understand whoever wrote them. */
module WireFormat {
  import opened Types
  import opened Bytes
  import opened Checksum
  import opened Headers
  import opened Tcb
  import opened TcpOptionsCodec
  import TcpCodec
  import Geneve
  import GeneveFrames

  // ---------------------------------------------------------------- numbers

  /** The fields are in network byte order. */
  lemma BigEndian(x: u16, y: u32)
    ensures Number(Be16(x)) == x && Number(Be32(y)) == y
  {
    EmptyNumber();
    assert Be16(x) == [] + [x / 0x100, x % 0x100];
    NumberAppend([], x / 0x100, x % 0x100);
    BigEndian32(y);
  }

  lemma BigEndian32(y: u32)
    ensures Number(Be32(y)) == y
  {
    EmptyNumber();
    var a, b, c, d := y / 0x100_0000, y / 0x1_0000 % 0x100, y / 0x100 % 0x100, y % 0x100;
    assert Be32(y) == [a, b] + [c, d] && [a, b] == [] + [a, b];
    NumberAppend([], a, b);
    NumberAppend([a, b], c, d);
    RoundTrip32(y);
  }

  lemma Field16(f: seq<u8>, at: nat, x: u16)
    requires Stands(f, at, Be16(x))
    ensures at + 2 <= |f| && Number(f[at..at + 2]) == x
  {
    hide Number;
    BigEndian(x, 0);
  }

  lemma Field32(f: seq<u8>, at: nat, x: u32)
    requires Stands(f, at, Be32(x))
    ensures at + 4 <= |f| && Number(f[at..at + 4]) == x
  {
    hide Number;
    BigEndian(0, x);
    Sizes(0, x);
  }

  // ---------------------------------------------------------------- Ethernet and IPv4

  /** Destination first, then source, then 0x0800. */
  lemma EthernetLayout(f: seq<u8>, at: nat, dst: Mac, src: Mac)
    requires Stands(f, at, EthernetHeader(dst, src))
    ensures at + 14 <= |f| && f[at..at + 6] == dst && f[at + 6..at + 12] == src && f[at + 12] == 8 && f[at + 13] == 0
  {
    StandsPart(f, at, dst + src, Be16(ETHERTYPE_IPV4));
    StandsPart(f, at, dst, src);
    StandsByte(f, at + 12, Be16(ETHERTYPE_IPV4), 0);
    StandsByte(f, at + 12, Be16(ETHERTYPE_IPV4), 1);
  }

  /** Version 4, five words, do not fragment, and the fields of section 3.1 of
      RFC 791 at their offsets. */
  lemma Ipv4Layout(f: seq<u8>, at: nat, i: Ipv4, c: u16)
    requires Stands(f, at, Ipv4Header(i, c))
    ensures at + 20 <= |f|
    ensures f[at] == 0x45 && f[at + 1] == 0 && Number(f[at + 2..at + 4]) == i.total
    ensures f[at + 4] == 0 && f[at + 5] == 0 && f[at + 6] == 0x40 && f[at + 7] == 0
    ensures f[at + 8] == i.ttl && f[at + 9] == i.protocol && Number(f[at + 10..at + 12]) == c
    ensures Number(f[at + 12..at + 16]) == i.src && Number(f[at + 16..at + 20]) == i.dst
  {
    hide Be16, Be32, Number;
    var total, src, dst := Be16(i.total), Be32(i.src), Be32(i.dst);
    Sizes(i.total, i.src);
    Sizes(c, i.dst);
    var a := [0x45, 0];
    var b := [0, 0, 0x40, 0, i.ttl, i.protocol];
    StandsPart(f, at, a + total + b + Be16(c) + src, dst);
    StandsPart(f, at, a + total + b + Be16(c), src);
    StandsPart(f, at, a + total + b, Be16(c));
    StandsPart(f, at, a + total, b);
    StandsPart(f, at, a, total);
    Field16(f, at + 2, i.total);
    Field16(f, at + 10, c);
    Field32(f, at + 12, i.src);
    Field32(f, at + 16, i.dst);
    StandsByte(f, at, a, 0);
    StandsByte(f, at, a, 1);
    SixBytes(f, at + 4, b);
  }

  lemma SixBytes(f: seq<u8>, at: nat, b: seq<u8>)
    requires Stands(f, at, b) && |b| == 6
    ensures at + 6 <= |f| && f[at] == b[0] && f[at + 1] == b[1] && f[at + 2] == b[2] && f[at + 3] == b[3]
    ensures f[at + 4] == b[4] && f[at + 5] == b[5]
  {
    StandsByte(f, at, b, 0);
    StandsByte(f, at, b, 1);
    StandsByte(f, at, b, 2);
    StandsByte(f, at, b, 3);
    StandsByte(f, at, b, 4);
    StandsByte(f, at, b, 5);
  }

  // ---------------------------------------------------------------- TCP

  lemma TcpNumbersLayout(f: seq<u8>, p: TcpCodec.FrameParams)
    requires Stands(f, 34, TcpCodec.TcpNumbers(p))
    ensures |f| >= 46 && Number(f[34..36]) == p.seg.src.port && Number(f[36..38]) == p.seg.dst.port
    ensures Number(f[38..42]) == p.seg.seqNo && Number(f[42..46]) == p.seg.ackNo
  {
    hide Be16, Be32, Number;
    Sizes(p.seg.src.port, p.seg.seqNo);
    Sizes(p.seg.dst.port, p.seg.ackNo);
    var sp, dp, sq, ak := Be16(p.seg.src.port), Be16(p.seg.dst.port), Be32(p.seg.seqNo), Be32(p.seg.ackNo);
    StandsPart(f, 34, sp + dp + sq, ak);
    StandsPart(f, 34, sp + dp, sq);
    StandsPart(f, 34, sp, dp);
    Field16(f, 34, p.seg.src.port);
    Field16(f, 36, p.seg.dst.port);
    Field32(f, 38, p.seg.seqNo);
    Field32(f, 42, p.seg.ackNo);
  }

  lemma TcpControlLayout(f: seq<u8>, p: TcpCodec.FrameParams, c: u16)
    requires Stands(f, 46, TcpCodec.TcpControl(p, c))
    ensures |f| >= 54 && f[46] == (5 + |TcpCodec.Options(p)| / 4) % 16 * 16 && f[47] == p.seg.flags
    ensures Number(f[48..50]) == p.seg.window && Number(f[50..52]) == c && f[52] == 0 && f[53] == 0
  {
    hide Be16, Number, Encoded;
    Sizes(p.seg.window, 0);
    Sizes(c, 0);
    var m := [TcpCodec.OffsetByte(p), p.seg.flags];
    StandsPart(f, 46, m + Be16(p.seg.window) + Be16(c), [0, 0]);
    StandsPart(f, 46, m + Be16(p.seg.window), Be16(c));
    StandsPart(f, 46, m, Be16(p.seg.window));
    Field16(f, 48, p.seg.window);
    Field16(f, 50, c);
    StandsByte(f, 46, m, 0);
    StandsByte(f, 46, m, 1);
    StandsByte(f, 52, [0, 0], 0);
    StandsByte(f, 52, [0, 0], 1);
    assert TcpCodec.HeaderLen(p) / 4 == 5 + |TcpCodec.Options(p)| / 4;
  }

  /** Every byte of a TCP frame: Ethernet, an IPv4 header with protocol 6 and
      the length of all that follows, and the TCP header of section 3.1 of
      RFC 9293, options and payload. */
  lemma TcpFrameLayout(p: TcpCodec.FrameParams)
    requires TcpCodec.TotalLen(p) <= 0xFFFF
    ensures var f := TcpCodec.Frame(p);
            var options := TcpCodec.Options(p);
            && |f| == 54 + |options| + |p.seg.payload|
            && f[0..6] == p.dstMac && f[6..12] == p.srcMac && f[12] == 8 && f[13] == 0
            && f[14] == 0x45 && f[15] == 0 && Number(f[16..18]) == 40 + |options| + |p.seg.payload|
            && f[18] == 0 && f[19] == 0 && f[20] == 0x40 && f[21] == 0 && f[22] == p.ttl && f[23] == 6
            && Number(f[26..30]) == p.seg.src.ip && Number(f[30..34]) == p.seg.dst.ip
            && Number(f[34..36]) == p.seg.src.port && Number(f[36..38]) == p.seg.dst.port
            && Number(f[38..42]) == p.seg.seqNo && Number(f[42..46]) == p.seg.ackNo
            && f[46] == (5 + |options| / 4) % 16 * 16 && f[47] == p.seg.flags
            && Number(f[48..50]) == p.seg.window && f[52] == 0 && f[53] == 0
            && f[54..] == options + p.seg.payload
  {
    hide EthernetHeader, Ipv4Header, TcpCodec.TcpNumbers, TcpCodec.TcpControl, TcpCodec.Options, Number,
      TcpCodec.FrameWith;
    hide TcpCodec.TcpChecksumOf, Ipv4ChecksumOf;
    var ipc, tcpc := Ipv4ChecksumOf(TcpCodec.Ip(p)), TcpCodec.TcpChecksumOf(p);
    var f := TcpCodec.Frame(p);
    assert f + [] == f;
    TcpCodec.FrameParts(p, ipc, tcpc, []);
    EthernetLayout(f, 0, p.dstMac, p.srcMac);
    Ipv4Layout(f, 14, TcpCodec.Ip(p), ipc);
    StandsPart(f, 34, TcpCodec.TcpNumbers(p), TcpCodec.TcpControl(p, tcpc));
    TcpNumbersLayout(f, p);
    TcpControlLayout(f, p, tcpc);
    Tail(f, 54, TcpCodec.Options(p), p.seg.payload);
  }

  lemma Tail(f: seq<u8>, at: nat, a: seq<u8>, b: seq<u8>)
    requires Stands(f, at, a) && Stands(f, at + |a|, b) && |f| == at + |a| + |b|
    ensures f[at..] == a + b
  {
    assert f[at..] == f[at..at + |a|] + f[at + |a|..];
  }

  lemma Read16Number(f: seq<u8>, at: nat)
    requires at + 2 <= |f|
    ensures At16(f, at) == Number(f[at..at + 2])
  {
    hide Number;
    WriteBack16(f[at], f[at + 1]);
    BigEndian(At16(f, at), 0);
    assert f[at..at + 2] == [f[at], f[at + 1]];
  }

  lemma Read32Number(f: seq<u8>, at: nat)
    requires at + 4 <= |f|
    ensures At32(f, at) == Number(f[at..at + 4])
  {
    EmptyNumber();
    var a, b, c, d := f[at], f[at + 1], f[at + 2], f[at + 3];
    NumberAppend([], a, b);
    NumberAppend([a, b], c, d);
    assert [] + [a, b] == [a, b];
    assert f[at..at + 4] == [a, b] + [c, d];
  }

  // Where the TCP header starts, and how long it is: both fields count words.
  function TcpStart(f: seq<u8>): nat
    requires |f| > 14
  {
    var words: nat := f[14] % 16;
    14 + 4 * words
  }

  function TcpLength(f: seq<u8>): nat
    requires |f| > 14 && |f| >= TcpStart(f) + 20
  {
    var words: nat := f[TcpStart(f) + 12] / 16;
    4 * words
  }

  /** A frame is taken as TCP if and only if it is long enough, says IPv4 and
      protocol 6, and its headers lie within it. */
  predicate IsTcp(f: seq<u8>) {
    && |f| >= 54 && f[12] == 8 && f[13] == 0 && f[23] == 6
    && |f| >= TcpStart(f) + 20 && TcpLength(f) >= 20 && |f| >= TcpStart(f) + TcpLength(f)
  }

  lemma ParsesExactly(f: seq<u8>)
    ensures TcpCodec.ParseFrame(f).Ok? <==> IsTcp(f)
  {
    hide ParseFrom, At32;
    if |f| >= 54 {
      var hi, lo := f[12], f[13];
      assert At16(f, 12) == ETHERTYPE_IPV4 <==> hi == 8 && lo == 0;
    }
  }

  /** And then every field is the number at its offset, options included in
      the IPv4 header or not, and the payload ends where the IPv4 length or
      the frame does. */
  lemma ParsedFieldsAre(f: seq<u8>)
    requires IsTcp(f)
    ensures TcpCodec.ParseFrame(f).Ok?
    ensures var seg, tcp := TcpCodec.ParseFrame(f).seg, TcpStart(f);
            && seg.src.ip == Number(f[26..30]) && seg.src.port == Number(f[tcp..tcp + 2])
            && seg.dst.ip == Number(f[30..34]) && seg.dst.port == Number(f[tcp + 2..tcp + 4])
            && seg.seqNo == Number(f[tcp + 4..tcp + 8]) && seg.ackNo == Number(f[tcp + 8..tcp + 12])
            && seg.flags == f[tcp + 13] && seg.window == Number(f[tcp + 14..tcp + 16])
            && seg.options == ParseFrom(f[tcp + 20..tcp + TcpLength(f)], 0, NO_OPTIONS)
            && var start, end := tcp + TcpLength(f), Min(14 + Number(f[16..18]), |f|);
               seg.payload == if start < end then f[start..end] else []
  {
    hide ParseFrom, At32, At16, Number;
    ParsesExactly(f);
    var tcp := TcpStart(f);
    Read16Number(f, 16);
    Read32Number(f, 26);
    Read32Number(f, 30);
    Read16Number(f, tcp);
    Read16Number(f, tcp + 2);
    Read32Number(f, tcp + 4);
    Read32Number(f, tcp + 8);
    Read16Number(f, tcp + 14);
  }

  // ---------------------------------------------------------------- TCP options

  /** An option as it can stand in any TCP header, in any order. */
  datatype Item =
    | Nop
    | MaxSegment(mss: u16)
    | Scale(shift: u8)
    | SackOk
    | Sack(blocks: seq<(u32, u32)>)
    | Stamps(value: u32, echo: u32)
    | Other(kind: u8, data: seq<u8>)

  ghost predicate Legal(x: Item) {
    && (x.Sack? ==> |x.blocks| <= 31)
    && (x.Other? ==> |x.data| <= 253 && x.kind !in {0, 1, 2, 3, 4, 5, 8})
  }

  // The kinds and lengths of RFC 9293, RFC 7323 and RFC 2018.
  ghost function ItemBytes(x: Item): seq<u8>
    requires Legal(x)
  {
    match x
    case Nop => [1]
    case MaxSegment(mss) => [2, 4] + Be16(mss)
    case Scale(shift) => [3, 3, shift]
    case SackOk => [4, 2]
    case Sack(blocks) => [5, 2 + 8 * |blocks|] + BlockBytes(blocks)
    case Stamps(value, echo) => [8, 10] + Be32(value) + Be32(echo)
    case Other(kind, data) => [kind, 2 + |data|] + data
  }

  ghost function Meaning(o: TcpOptions, x: Item): TcpOptions {
    match x
    case Nop => o
    case MaxSegment(mss) => o.(mss := Some(mss))
    case Scale(shift) => o.(windowScale := Some(shift))
    case SackOk => o.(sackPermitted := true)
    case Sack(blocks) => o.(sackBlocks := o.sackBlocks + blocks)
    case Stamps(value, echo) => o.(timestamps := Some((value, echo)))
    case Other(_, _) => o
  }

  ghost predicate AllLegal(items: seq<Item>) { forall i :: 0 <= i < |items| ==> Legal(items[i]) }

  ghost function ListBytes(items: seq<Item>): seq<u8>
    requires AllLegal(items)
    decreases |items|
  {
    if items == [] then [] else ItemBytes(items[0]) + ListBytes(items[1..])
  }

  ghost function ListMeaning(o: TcpOptions, items: seq<Item>): TcpOptions
    decreases |items|
  {
    if items == [] then o else ListMeaning(Meaning(o, items[0]), items[1..])
  }

  lemma SackItemParses(d: seq<u8>, i: nat, o: TcpOptions, blocks: seq<(u32, u32)>)
    requires |blocks| <= 31 && Stands(d, i, ItemBytes(Sack(blocks)))
    ensures i < |d| && ParseOne(d, i, o) == Next(i + 2 + 8 * |blocks|, Meaning(o, Sack(blocks)))
  {
    hide BlockBytes, SackBlocksAt, ParseOne;
    var head := [5, 2 + 8 * |blocks|];
    StandsPart(d, i, head, BlockBytes(blocks));
    StandsByte(d, i, head, 0);
    StandsByte(d, i, head, 1);
    SackStep(d, i, o, |blocks|);
    BlocksReadBack(d, i + 2, blocks);
  }

  lemma StampsItemParses(d: seq<u8>, i: nat, o: TcpOptions, value: u32, echo: u32)
    requires Stands(d, i, ItemBytes(Stamps(value, echo)))
    ensures i < |d| && ParseOne(d, i, o) == Next(i + 10, Meaning(o, Stamps(value, echo)))
  {
    hide Be32, At32, SackBlocksAt;
    Sizes(0, value);
    Sizes(0, echo);
    StandsPart(d, i, [8, 10] + Be32(value), Be32(echo));
    StandsPart(d, i, [8, 10], Be32(value));
    StandsByte(d, i, [8, 10], 0);
    StandsByte(d, i, [8, 10], 1);
    Stands32(d, i + 2, value);
    Stands32(d, i + 6, echo);
  }

  lemma SmallItemParses(d: seq<u8>, i: nat, o: TcpOptions, x: Item)
    requires Legal(x) && !x.Sack? && !x.Stamps? && Stands(d, i, ItemBytes(x))
    ensures i < |d| && ParseOne(d, i, o) == Next(i + |ItemBytes(x)|, Meaning(o, x))
  {
    hide Be16, At16, SackBlocksAt;
    match x
    case Nop =>
      StandsByte(d, i, [1], 0);
    case MaxSegment(mss) =>
      Sizes(mss, 0);
      StandsPart(d, i, [2, 4], Be16(mss));
      StandsByte(d, i, [2, 4], 0);
      StandsByte(d, i, [2, 4], 1);
      Stands16(d, i + 2, mss);
    case Scale(shift) =>
      StandsByte(d, i, [3, 3, shift], 0);
      StandsByte(d, i, [3, 3, shift], 1);
      StandsByte(d, i, [3, 3, shift], 2);
    case SackOk =>
      StandsByte(d, i, [4, 2], 0);
      StandsByte(d, i, [4, 2], 1);
    case Other(kind, data) =>
      StandsByte(d, i, [kind, 2 + |data|] + data, 0);
      StandsByte(d, i, [kind, 2 + |data|] + data, 1);
  }

  lemma ItemParses(d: seq<u8>, i: nat, o: TcpOptions, x: Item)
    requires Legal(x) && Stands(d, i, ItemBytes(x))
    ensures i < |d| && ParseOne(d, i, o) == Next(i + |ItemBytes(x)|, Meaning(o, x))
  {
    hide ParseOne, Stands;
    match x
    case Sack(blocks) => SackItemParses(d, i, o, blocks);
    case Stamps(value, echo) =>
      Sizes(0, value);
      Sizes(0, echo);
      StampsItemParses(d, i, o, value, echo);
    case _ => SmallItemParses(d, i, o, x);
  }

  lemma {:induction false} ListParses(d: seq<u8>, i: nat, o: TcpOptions, items: seq<Item>)
    requires AllLegal(items) && i <= |d| && Stands(d, i, ListBytes(items))
    ensures i + |ListBytes(items)| <= |d|
    ensures ParseFrom(d, i, o) == ParseFrom(d, i + |ListBytes(items)|, ListMeaning(o, items))
    decreases |items|
  {
    hide ItemBytes, Meaning, ParseOne, ParseFrom;
    if items != [] {
      var x := items[0];
      StandsPart(d, i, ItemBytes(x), ListBytes(items[1..]));
      ItemParses(d, i, o, x);
      ParseStep(d, i, o, i + |ItemBytes(x)|, Meaning(o, x));
      ListParses(d, i + |ItemBytes(x)|, Meaning(o, x), items[1..]);
    }
  }

  /** Any list of legal options parses to what it says, later ones winning,
      unknown kinds skipped, and nothing after an end-of-list byte counting. */
  lemma AnyListParses(items: seq<Item>, tail: seq<u8>)
    requires AllLegal(items) && (tail == [] || tail[0] == 0)
    ensures ParseFrom(ListBytes(items) + tail, 0, NO_OPTIONS) == ListMeaning(NO_OPTIONS, items)
  {
    hide ListBytes, ListMeaning, SackBlocksAt, At16, At32;
    var d := ListBytes(items) + tail;
    assert d[0..|ListBytes(items)|] == ListBytes(items);
    ListParses(d, 0, NO_OPTIONS, items);
    if tail != [] {
      assert d[|ListBytes(items)|] == 0;
    }
  }

  // The list the engine writes: every option aligned to a word.
  ghost function Layout(o: TcpOptions): seq<Item> {
    MssItems(o.mss) + ScaleItems(o.windowScale) + SackOkItems(o.sackPermitted) + StampItems(o.timestamps) +
    SackItems(o.sackBlocks)
  }

  ghost function MssItems(m: Option<u16>): seq<Item> { if m.Some? then [MaxSegment(m.value)] else [] }

  ghost function ScaleItems(w: Option<u8>): seq<Item> { if w.Some? then [Nop, Scale(w.value)] else [] }

  ghost function SackOkItems(on: bool): seq<Item> { if on then [Nop, Nop, SackOk] else [] }

  ghost function StampItems(t: Option<(u32, u32)>): seq<Item> {
    if t.Some? then [Nop, Nop, Stamps(t.value.0, t.value.1)] else []
  }

  ghost function SackItems(blocks: seq<(u32, u32)>): seq<Item> { if blocks != [] then [Nop, Nop, Sack(blocks)] else [] }

  lemma {:induction false} ListBytesAppend(a: seq<Item>, b: seq<Item>)
    requires AllLegal(a) && AllLegal(b)
    ensures AllLegal(a + b) && ListBytes(a + b) == ListBytes(a) + ListBytes(b)
    decreases |a|
  {
    hide ItemBytes, Legal;
    if a == [] {
      assert a + b == b;
    } else {
      ListBytesAppend(a[1..], b);
      assert (a + b)[0] == a[0] && (a + b)[1..] == a[1..] + b;
    }
  }

  lemma OneItem(x: Item)
    requires Legal(x)
    ensures AllLegal([x]) && ListBytes([x]) == ItemBytes(x)
  {
    hide ItemBytes;
    assert [x][1..] == [];
    assert ItemBytes(x) + [] == ItemBytes(x);
  }

  lemma PaddedItem(x: Item, pads: nat)
    requires Legal(x) && 1 <= pads <= 2
    ensures var items := if pads == 1 then [Nop, x] else [Nop, Nop, x];
            AllLegal(items) && ListBytes(items) == (if pads == 1 then [1] else [1, 1]) + ItemBytes(x)
  {
    hide ItemBytes;
    OneItem(x);
    OneItem(Nop);
    NopByte();
    ListBytesAppend([Nop], [x]);
    assert [Nop] + [x] == [Nop, x];
    if pads == 2 {
      ListBytesAppend([Nop], [Nop, x]);
      assert [Nop] + [Nop, x] == [Nop, Nop, x];
      assert [1] + ([1] + ItemBytes(x)) == [1, 1] + ItemBytes(x);
    }
  }

  lemma NopByte()
    ensures ItemBytes(Nop) == [1]
  {
  }

  lemma MssListed(m: Option<u16>)
    ensures AllLegal(MssItems(m)) && ListBytes(MssItems(m)) == MssBytes(m)
  {
    hide Be16;
    if m.Some? {
      OneItem(MaxSegment(m.value));
    }
  }

  lemma ScaleListed(w: Option<u8>)
    ensures AllLegal(ScaleItems(w)) && ListBytes(ScaleItems(w)) == ScaleBytes(w)
  {
    if w.Some? {
      PaddedItem(Scale(w.value), 1);
    }
  }

  lemma SackOkListed(on: bool)
    ensures AllLegal(SackOkItems(on)) && ListBytes(SackOkItems(on)) == SackPermittedBytes(on)
  {
    PaddedItem(SackOk, 2);
  }

  lemma StampsListed(t: Option<(u32, u32)>)
    ensures AllLegal(StampItems(t)) && ListBytes(StampItems(t)) == TimestampBytes(t)
  {
    hide Be32;
    if t.Some? {
      PaddedItem(Stamps(t.value.0, t.value.1), 2);
    }
  }

  lemma SackListed(blocks: seq<(u32, u32)>)
    requires |blocks| <= 31
    ensures AllLegal(SackItems(blocks)) && ListBytes(SackItems(blocks)) == SackBytes(blocks)
  {
    hide BlockBytes;
    if blocks != [] {
      PaddedItem(Sack(blocks), 2);
    }
  }

  /** The engine's own encoding is such a list. */
  lemma EncodedIsList(o: TcpOptions)
    requires |o.sackBlocks| <= 31
    ensures AllLegal(Layout(o)) && Encoded(o) == ListBytes(Layout(o))
  {
    hide ListBytes, MssBytes, ScaleBytes, SackPermittedBytes, TimestampBytes, SackBytes, AllLegal;
    hide MssItems, ScaleItems, SackOkItems, StampItems, SackItems;
    var a, b, c := MssItems(o.mss), ScaleItems(o.windowScale), SackOkItems(o.sackPermitted);
    var t, s := StampItems(o.timestamps), SackItems(o.sackBlocks);
    MssListed(o.mss);
    ScaleListed(o.windowScale);
    SackOkListed(o.sackPermitted);
    StampsListed(o.timestamps);
    SackListed(o.sackBlocks);
    ListBytesAppend(a, b);
    ListBytesAppend(a + b, c);
    ListBytesAppend(a + b + c, t);
    ListBytesAppend(a + b + c + t, s);
  }

  /** A SYN that states no options carries the defaults: segments of 1460
      bytes, window scale 7, selective acknowledgments, zero timestamps. */
  lemma SynDefaults()
    ensures Encoded(TcpOptionsCodec.Completed(NO_OPTIONS, true)) ==
            [2, 4, 5, 180, 1, 3, 3, 7, 1, 1, 4, 2, 1, 1, 8, 10, 0, 0, 0, 0, 0, 0, 0, 0]
    ensures Encoded(TcpOptionsCodec.Completed(NO_OPTIONS, false)) == []
  {
    hide Be16, Be32;
    DefaultBytes();
  }

  lemma DefaultBytes()
    ensures Be16(1460) == [5, 180] && Be32(0) == [0, 0, 0, 0]
  {
  }

  // ---------------------------------------------------------------- UDP and GENEVE

  /** Ports, length and checksum of section 1 of RFC 768. */
  lemma UdpLayout(f: seq<u8>, at: nat, src: u16, dst: u16, c: u16, payload: seq<u8>)
    requires 8 + |payload| <= 0xFFFF && Stands(f, at, GeneveFrames.UdpWith(src, dst, c, payload))
    ensures at + 8 + |payload| <= |f| && Number(f[at..at + 2]) == src && Number(f[at + 2..at + 4]) == dst
    ensures Number(f[at + 4..at + 6]) == 8 + |payload| && Number(f[at + 6..at + 8]) == c
    ensures f[at + 8..at + 8 + |payload|] == payload
  {
    hide Be16, Number;
    var len: u16 := 8 + |payload|;
    Sizes(src, 0);
    Sizes(dst, 0);
    Sizes(len, 0);
    Sizes(c, 0);
    UdpParts(src, dst, c, payload);
    StandsPart(f, at, Be16(src) + Be16(dst) + Be16(len) + Be16(c), payload);
    StandsPart(f, at, Be16(src) + Be16(dst) + Be16(len), Be16(c));
    StandsPart(f, at, Be16(src) + Be16(dst), Be16(len));
    StandsPart(f, at, Be16(src), Be16(dst));
    Field16(f, at, src);
    Field16(f, at + 2, dst);
    Field16(f, at + 4, len);
    Field16(f, at + 6, c);
  }

  lemma UdpParts(src: u16, dst: u16, c: u16, payload: seq<u8>)
    requires 8 + |payload| <= 0xFFFF
    ensures GeneveFrames.UdpWith(src, dst, c, payload) ==
            Be16(src) + Be16(dst) + Be16(8 + |payload|) + Be16(c) + payload
  {
  }

  /** The base header of section 3.4 of RFC 8926: version and length of the
      options in words, the two flags, the protocol, the identifier. */
  lemma GeneveLayout(f: seq<u8>, at: nat, h: Geneve.Header)
    requires Geneve.WellFormed(h) && Stands(f, at, Geneve.BaseBytes(h))
    ensures at + 8 <= |f| && f[at] == h.optionsLen / 4
    ensures f[at + 1] == (if h.oam then 128 else 0) + (if h.critical then 64 else 0)
    ensures f[at + 2] == 0x65 && f[at + 3] == 0x58
    ensures Number(f[at + 4..at + 7]) == h.vni && f[at + 7] == 0
  {
    hide Number, Geneve.OptionBytes;
    var b := Geneve.BaseBytes(h);
    forall k | 0 <= k < 8
      ensures f[at + k] == b[k]
    {
      StandsByte(f, at, b, k);
    }
    VniNumber(h.vni);
    assert f[at + 4..at + 7] == b[4..7] == [h.vni / 0x1_0000 % 0x100, h.vni / 0x100 % 0x100, h.vni % 0x100];
  }

  lemma VniNumber(v: u32)
    requires v < 0x100_0000
    ensures Number([v / 0x1_0000 % 0x100, v / 0x100 % 0x100, v % 0x100]) == v
  {
    var a, b, c := v / 0x1_0000 % 0x100, v / 0x100 % 0x100, v % 0x100;
    EmptyNumber();
    assert [a][..0] == [] && [a] + [b, c] == [a, b, c];
    assert Number([a]) == a;
    NumberAppend([a], b, c);
    Geneve.VniReads(v);
  }

  /** Class, type, length in words, data. */
  lemma TlvLayout(f: seq<u8>, at: nat, t: Geneve.Tlv)
    requires Geneve.WellFormedTlv(t) && Stands(f, at, Geneve.TlvBytes(t))
    ensures at + 4 + |t.data| <= |f| && Number(f[at..at + 2]) == t.cls && f[at + 2] == t.kind
    ensures f[at + 3] == |t.data| / 4 && f[at + 4..at + 4 + |t.data|] == t.data
  {
    hide Be16, Number;
    Sizes(t.cls, 0);
    var m := [t.kind, |t.data| / 4 % 32];
    StandsPart(f, at, Be16(t.cls) + m, t.data);
    StandsPart(f, at, Be16(t.cls), m);
    Field16(f, at, t.cls);
    StandsByte(f, at + 2, m, 0);
    StandsByte(f, at + 2, m, 1);
  }

  // Outer Ethernet, IPv4 with protocol 17, and UDP to the tunnel port.
  ghost predicate OuterLaidOut(f: seq<u8>, t: GeneveFrames.Tunnelled) {
    && |f| >= 42
    && f[0..6] == t.outerDstMac && f[6..12] == t.outerSrcMac && f[12] == 8 && f[13] == 0
    && f[14] == 0x45 && Number(f[16..18]) == |f| - 14 && f[22] == t.ttl && f[23] == 17
    && Number(f[26..30]) == t.outerSrc.ip && Number(f[30..34]) == t.outerDst.ip
    && Number(f[34..36]) == t.outerSrc.port && Number(f[36..38]) == t.outerDst.port
    && Number(f[38..40]) == |f| - 34
  }

  // The inner frame with its own headers, to the end.
  ghost predicate InnerLaidOut(f: seq<u8>, at: nat, t: GeneveFrames.Tunnelled) {
    && |f| == at + 42 + |t.payload|
    && f[at..at + 6] == t.innerDstMac && f[at + 6..at + 12] == t.innerSrcMac
    && f[at + 12] == 8 && f[at + 13] == 0 && f[at + 14] == 0x45 && f[at + 23] == 17
    && Number(f[at + 16..at + 18]) == 28 + |t.payload| && f[at + 22] == 64
    && Number(f[at + 26..at + 30]) == t.innerSrc.ip && Number(f[at + 30..at + 34]) == t.innerDst.ip
    && Number(f[at + 34..at + 36]) == t.innerSrc.port && Number(f[at + 36..at + 38]) == t.innerDst.port
    && Number(f[at + 38..at + 40]) == 8 + |t.payload| && f[at + 42..] == t.payload
  }

  /** An encapsulated frame: the outer headers, the tunnel header and the inner
      frame, every field in its place. */
  lemma TunnelLayout(t: GeneveFrames.Tunnelled, oip: u16, oudp: u16, iip: u16, iudp: u16)
    requires GeneveFrames.Fits(t) && Geneve.WellFormed(t.header) && GeneveFrames.Spare(t.header) == 0
    ensures var f := GeneveFrames.BuiltWith(t, [], oip, oudp, iip, iudp);
            var inner := 42 + Geneve.HeaderLen(t.header);
            && OuterLaidOut(f, t) && InnerLaidOut(f, inner, t)
            && inner <= |f| && f[42..inner] == Geneve.Encoded(t.header)
  {
    hide EthernetHeader, Ipv4Header, GeneveFrames.UdpWith, Geneve.Encoded, GeneveFrames.InnerWith, Geneve.WellFormed,
      Geneve.OptionBytes, GeneveFrames.Spare, Stands, GeneveFrames.BuiltWith, OuterLaidOut, InnerLaidOut;
    var f := GeneveFrames.BuiltWith(t, [], oip, oudp, iip, iudp);
    var head, inner := Geneve.Encoded(t.header), GeneveFrames.InnerWith(t, iip, iudp);
    BuiltParts(t, oip, oudp, iip, iudp);
    OuterLayout(f, t, oip, oudp, head + inner);
    CarriedParts(f, 42, head, inner);
    InnerLayout(f, 42 + Geneve.HeaderLen(t.header), t, iip, iudp);
  }

  lemma BuiltParts(t: GeneveFrames.Tunnelled, oip: u16, oudp: u16, iip: u16, iudp: u16)
    requires GeneveFrames.Fits(t) && GeneveFrames.Spare(t.header) == 0
    ensures var carried := Geneve.Encoded(t.header) + GeneveFrames.InnerWith(t, iip, iudp);
            && |Geneve.Encoded(t.header)| == Geneve.HeaderLen(t.header)
            && |carried| == Geneve.HeaderLen(t.header) + 42 + |t.payload|
            && GeneveFrames.BuiltWith(t, [], oip, oudp, iip, iudp) ==
               EthernetHeader(t.outerDstMac, t.outerSrcMac) +
               Ipv4Header(GeneveFrames.UdpIp(t.outerSrc, t.outerDst, carried, t.ttl), oip) +
               GeneveFrames.UdpWith(t.outerSrc.port, t.outerDst.port, oudp, carried)
  {
    hide EthernetHeader, Ipv4Header, GeneveFrames.UdpWith, Geneve.Encoded, GeneveFrames.InnerWith, Geneve.OptionBytes,
      GeneveFrames.Spare;
    GeneveFrames.CarriedLen(t, [], iip, iudp);
    var head, inner := Geneve.Encoded(t.header), GeneveFrames.InnerWith(t, iip, iudp);
    assert GeneveFrames.CarriedWith(t, [], iip, iudp) == head + inner;
  }

  lemma OuterLayout(f: seq<u8>, t: GeneveFrames.Tunnelled, oip: u16, oudp: u16, carried: seq<u8>)
    requires 28 + |carried| <= 0xFFFF
    requires f == EthernetHeader(t.outerDstMac, t.outerSrcMac) +
                  Ipv4Header(GeneveFrames.UdpIp(t.outerSrc, t.outerDst, carried, t.ttl), oip) +
                  GeneveFrames.UdpWith(t.outerSrc.port, t.outerDst.port, oudp, carried)
    ensures |f| == 42 + |carried| && f[42..] == carried && OuterLaidOut(f, t)
  {
    hide EthernetHeader, Ipv4Header, GeneveFrames.UdpWith, Number;
    var i := GeneveFrames.UdpIp(t.outerSrc, t.outerDst, carried, t.ttl);
    var e, u := EthernetHeader(t.outerDstMac, t.outerSrcMac),
                GeneveFrames.UdpWith(t.outerSrc.port, t.outerDst.port, oudp, carried);
    assert f[0..|f|] == f;
    StandsPart(f, 0, e + Ipv4Header(i, oip), u);
    StandsPart(f, 0, e, Ipv4Header(i, oip));
    EthernetLayout(f, 0, t.outerDstMac, t.outerSrcMac);
    Ipv4Layout(f, 14, i, oip);
    UdpLayout(f, 34, t.outerSrc.port, t.outerDst.port, oudp, carried);
    assert f[42..] == f[42..42 + |carried|];
  }

  lemma CarriedParts(f: seq<u8>, at: nat, head: seq<u8>, inner: seq<u8>)
    requires at <= |f| && f[at..] == head + inner
    ensures at + |head| <= |f| && f[at..at + |head|] == head && Stands(f, at + |head|, inner)
  {
    assert f[at..at + |head|] == f[at..][..|head|];
    assert f[at + |head|..at + |head| + |inner|] == f[at..][|head|..];
  }

  lemma InnerLayout(f: seq<u8>, at: nat, t: GeneveFrames.Tunnelled, iip: u16, iudp: u16)
    requires 28 + |t.payload| <= 0xFFFF && Stands(f, at, GeneveFrames.InnerWith(t, iip, iudp))
    requires |f| == at + 42 + |t.payload|
    ensures InnerLaidOut(f, at, t)
  {
    hide EthernetHeader, Ipv4Header, GeneveFrames.UdpWith, Number;
    var i := GeneveFrames.UdpIp(t.innerSrc, t.innerDst, t.payload, 64);
    var e, u := EthernetHeader(t.innerDstMac, t.innerSrcMac),
                GeneveFrames.UdpWith(t.innerSrc.port, t.innerDst.port, iudp, t.payload);
    StandsPart(f, at, e + Ipv4Header(i, iip), u);
    StandsPart(f, at, e, Ipv4Header(i, iip));
    EthernetLayout(f, at, t.innerDstMac, t.innerSrcMac);
    Ipv4Layout(f, at + 14, i, iip);
    UdpLayout(f, at + 34, t.innerSrc.port, t.innerDst.port, iudp, t.payload);
    assert f[at + 42..] == f[at + 42..at + 42 + |t.payload|];
  }

  /** What is opened was UDP to the right port carrying the right identifier,
      and inside it IPv4, version 4, with UDP; the result is what stands there. */
  lemma DecapMeans(f: seq<u8>, l3: nat, port: u16, vni: Option<u32>)
    ensures var d := GeneveFrames.Decap(f, l3, port, vni);
            d.Some? ==>
              && |f| >= l3 + 28 && f[l3 + 9] == 17 && (f[l3] % 16) >= 5
              && var off: nat := l3 + f[l3] % 16 * 4 + 8;
                 && off <= |f| && Number(f[off - 6..off - 4]) == port
                 && Geneve.Parse(f[off..]) == Some(d.value.header)
                 && (vni.Some? ==> d.value.header.vni == vni.value)
                 && d.value.outerSrcIp == Number(f[l3 + 12..l3 + 16])
                 && InnerMeans(f, off + Geneve.HeaderLen(d.value.header), d.value)
  {
    hide Geneve.Parse, At16, At32, GeneveFrames.OpenInner, Number, InnerMeans;
    if |f| >= l3 + 20 && f[l3 + 9] == 17 && (f[l3] % 16) >= 5 {
      var ihl: nat := f[l3] % 16 * 4;
      if |f| >= l3 + ihl + 8 {
        Read16Number(f, l3 + ihl + 2);
        Read32Number(f, l3 + 12);
        var header := Geneve.Parse(f[l3 + ihl + 8..]);
        if header.Some? {
          OpenInnerMeans(f, l3 + ihl + 8 + Geneve.HeaderLen(header.value), At32(f, l3 + 12), header.value);
        }
      }
    }
  }

  // The inner frame that starts here is this datagram.
  ghost predicate InnerMeans(f: seq<u8>, eth: nat, d: GeneveFrames.Decapped) {
    && |f| >= eth + 34 && f[eth..eth + 6] == d.innerDstMac && f[eth + 6..eth + 12] == d.innerSrcMac
    && f[eth + 12] == 8 && f[eth + 13] == 0 && f[eth + 14] / 16 == 4 && f[eth + 14] % 16 >= 5 && f[eth + 23] == 17
    && d.innerSrc.ip == Number(f[eth + 26..eth + 30]) && d.innerDst.ip == Number(f[eth + 30..eth + 34])
    && var udp: nat := eth + 14 + f[eth + 14] % 16 * 4;
       && |f| >= udp + 8 && d.innerSrc.port == Number(f[udp..udp + 2]) && d.innerDst.port == Number(f[udp + 2..udp + 4])
       && var len := Number(f[udp + 4..udp + 6]);
          8 <= len && udp + len <= |f| && d.payload == f[udp + 8..udp + len]
  }

  lemma OpenInnerMeans(f: seq<u8>, eth: nat, outerSrcIp: u32, header: Geneve.Header)
    ensures var d := GeneveFrames.OpenInner(f, eth, outerSrcIp, header);
            d.Some? ==> d.value.header == header && d.value.outerSrcIp == outerSrcIp && InnerMeans(f, eth, d.value)
  {
    hide At32, Number;
    if |f| >= eth + 34 {
      var hi, lo := f[eth + 12], f[eth + 13];
      assert At16(f, eth + 12) == ETHERTYPE_IPV4 <==> hi == 8 && lo == 0;
      Read32Number(f, eth + 26);
      Read32Number(f, eth + 30);
      var udp: nat := eth + 14 + f[eth + 14] % 16 * 4;
      if |f| >= udp + 8 {
        Read16Number(f, udp);
        Read16Number(f, udp + 2);
        Read16Number(f, udp + 4);
      }
    }
  }
}
