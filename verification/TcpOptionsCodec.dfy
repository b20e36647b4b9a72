/** TCP options on the wire. */
module TcpOptionsCodec {
  import opened Types
  import opened Bytes
  import opened Tcb

  const EOL: u8 := 0
  const NOP: u8 := 1
  const MSS: u8 := 2
  const WINDOW_SCALE: u8 := 3
  const SACK_PERMITTED: u8 := 4
  const SACK: u8 := 5
  const TIMESTAMPS: u8 := 8

  /** The options a frame really carries: a SYN fills in defaults. */
  function Completed(o: TcpOptions, syn: bool): TcpOptions {
    TcpOptions(
      if o.mss.Some? || !syn then o.mss else Some(1460),
      if o.windowScale.Some? || !syn then o.windowScale else Some(7),
      o.sackPermitted || syn,
      if o.timestamps.Some? || !syn then o.timestamps else Some((0, 0)),
      o.sackBlocks)
  }

  // ---------------------------------------------------------------- encoding

  function MssBytes(m: Option<u16>): (r: seq<u8>)
    ensures |r| == if m.None? then 0 else 4
  {
    if m.None? then [] else [MSS, 4] + Be16(m.value)
  }

  function ScaleBytes(w: Option<u8>): (r: seq<u8>)
    ensures |r| == if w.None? then 0 else 4
  {
    if w.None? then [] else [NOP, WINDOW_SCALE, 3, w.value]
  }

  function SackPermittedBytes(on: bool): (r: seq<u8>)
    ensures |r| == if on then 4 else 0
  {
    if on then [NOP, NOP, SACK_PERMITTED, 2] else []
  }

  function TimestampBytes(t: Option<(u32, u32)>): (r: seq<u8>)
    ensures |r| == if t.None? then 0 else 12
  {
    if t.None? then [] else [NOP, NOP, TIMESTAMPS, 10] + Be32(t.value.0) + Be32(t.value.1)
  }

  function BlockBytes(blocks: seq<(u32, u32)>): (r: seq<u8>)
    ensures |r| == 8 * |blocks|
  {
    if blocks == [] then [] else Be32(blocks[0].0) + Be32(blocks[0].1) + BlockBytes(blocks[1..])
  }

  // The length byte is truncated to 8 bits.
  function SackBytes(blocks: seq<(u32, u32)>): (r: seq<u8>)
    ensures |r| == if blocks == [] then 0 else 4 + 8 * |blocks|
  {
    if blocks == [] then [] else [NOP, NOP, SACK, (2 + 8 * |blocks|) % 0x100] + BlockBytes(blocks)
  }

  function Encoded(o: TcpOptions): seq<u8> {
    MssBytes(o.mss) + ScaleBytes(o.windowScale) + SackPermittedBytes(o.sackPermitted) + TimestampBytes(o.timestamps) +
    SackBytes(o.sackBlocks)
  }

  // The length of the encoded options in 32-bit words.
  function EncodedWords(o: TcpOptions): nat {
    (if o.mss.None? then 0 else 1) + (if o.windowScale.None? then 0 else 1) + (if o.sackPermitted then 1 else 0) +
    (if o.timestamps.None? then 0 else 3) + (if o.sackBlocks == [] then 0 else 1 + 2 * |o.sackBlocks|)
  }

  /** No padding is ever needed. */
  lemma EncodedAligned(o: TcpOptions)
    ensures |Encoded(o)| == 4 * EncodedWords(o)
  {
    hide MssBytes, ScaleBytes, SackPermittedBytes, TimestampBytes, SackBytes;
  }

  lemma BlockBytesAppend(blocks: seq<(u32, u32)>, b: (u32, u32))
    ensures BlockBytes(blocks + [b]) == BlockBytes(blocks) + Be32(b.0) + Be32(b.1)
  {
    hide Be32;
    if blocks == [] {
      assert [b][1..] == [];
    } else {
      BlockBytesAppend(blocks[1..], b);
      assert (blocks + [b])[1..] == blocks[1..] + [b];
    }
  }

  method AppendSack(buf: seq<u8>, blocks: seq<(u32, u32)>) returns (r: seq<u8>)
    requires blocks != []
    ensures r == buf + SackBytes(blocks)
  {
    hide Be32, BlockBytes;
    var head := [NOP, NOP, SACK, (2 + 8 * |blocks|) % 0x100];
    r := buf + head;
    BlockBytesEmpty();
    assert blocks[..0] == [];
    for i := 0 to |blocks|
      invariant r == buf + head + BlockBytes(blocks[..i])
    {
      assert blocks[..i + 1] == blocks[..i] + [blocks[i]];
      BlockBytesAppend(blocks[..i], blocks[i]);
      r := r + Be32(blocks[i].0) + Be32(blocks[i].1);
    }
    assert blocks[..|blocks|] == blocks;
  }

  method PadToWord(buf: seq<u8>) returns (r: seq<u8>)
    ensures |r| % 4 == 0 && |r| < |buf| + 4 && buf <= r
  {
    r := buf;
    while |r| % 4 != 0
      invariant buf <= r && |r| <= |buf| + (4 - |buf| % 4) % 4
      decreases |buf| + 4 - |r|
    {
      r := r + [EOL];
    }
  }

  method SerializeOptions(o: TcpOptions, flags: u8) returns (buf: seq<u8>)
    ensures buf == Encoded(Completed(o, Has(flags, SYN)))
  {
    hide Be16, Be32, SackBytes, Has;
    var syn := Has(flags, SYN);
    ghost var c := Completed(o, syn);
    buf := [];
    if o.mss.Some? {
      buf := [MSS, 4] + Be16(o.mss.value);
    } else if syn {
      buf := [MSS, 4] + Be16(1460);
    }
    assert buf == MssBytes(c.mss);
    if o.windowScale.Some? {
      buf := buf + [NOP, WINDOW_SCALE, 3, o.windowScale.value];
    } else if syn {
      buf := buf + [NOP, WINDOW_SCALE, 3, 7];
    }
    ghost var two := MssBytes(c.mss) + ScaleBytes(c.windowScale);
    assert buf == two;
    if o.sackPermitted || syn {
      buf := buf + [NOP, NOP, SACK_PERMITTED, 2];
    }
    ghost var three := two + SackPermittedBytes(c.sackPermitted);
    assert buf == three;
    if o.timestamps.Some? {
      buf := buf + ([NOP, NOP, TIMESTAMPS, 10] + Be32(o.timestamps.value.0) + Be32(o.timestamps.value.1));
    } else if syn {
      buf := buf + ([NOP, NOP, TIMESTAMPS, 10] + Be32(0) + Be32(0));
    }
    ghost var four := three + TimestampBytes(c.timestamps);
    assert buf == four;
    if o.sackBlocks != [] {
      buf := AppendSack(buf, o.sackBlocks);
    }
    assert buf == four + SackBytes(o.sackBlocks);
    EncodedAligned(c);
    buf := PadToWord(buf);
  }

  lemma BlockBytesEmpty()
    ensures BlockBytes([]) == []
  {
  }

  // ---------------------------------------------------------------- parsing

  function SackBlocksAt(data: seq<u8>, at: nat, n: nat): (r: seq<(u32, u32)>)
    requires at + 8 * n <= |data|
    ensures |r| == n
  {
    if n == 0 then []
    else SackBlocksAt(data, at, n - 1) + [(At32(data, at + 8 * (n - 1)), At32(data, at + 8 * (n - 1) + 4))]
  }

  /** Where parsing stands: the next offset, or the end. */
  datatype Cursor = Next(at: nat, options: TcpOptions) | Done(options: TcpOptions)

  /** Read one option. */
  function ParseOne(data: seq<u8>, i: nat, o: TcpOptions): (c: Cursor)
    requires i < |data|
    ensures c.Next? ==> i < c.at <= |data|
  {
    var left := |data| - i;
    match data[i]
    case 0 => Done(o)
    case 1 => Next(i + 1, o)
    case 2 => if left >= 4 && data[i + 1] == 4 then Next(i + 4, o.(mss := Some(At16(data, i + 2)))) else Done(o)
    case 3 => if left >= 3 && data[i + 1] == 3 then Next(i + 3, o.(windowScale := Some(data[i + 2]))) else Done(o)
    case 4 => if left >= 2 && data[i + 1] == 2 then Next(i + 2, o.(sackPermitted := true)) else Done(o)
    case 5 =>
      if left < 2 || data[i + 1] > left || data[i + 1] < 2 then Done(o)
      else Next(i + data[i + 1], o.(sackBlocks := o.sackBlocks + SackBlocksAt(data, i + 2, (data[i + 1] - 2) / 8)))
    case 8 =>
      if left >= 10 && data[i + 1] == 10 then
        Next(i + 10, o.(timestamps := Some((At32(data, i + 2), At32(data, i + 6)))))
      else Done(o)
    case _ =>
      if left < 2 || data[i + 1] < 2 || data[i + 1] > left then Done(o) else Next(i + data[i + 1], o)
  }

  function ParseFrom(data: seq<u8>, i: nat, o: TcpOptions): TcpOptions
    requires i <= |data|
    decreases |data| - i
  {
    if i == |data| then o
    else
      var c := ParseOne(data, i, o);
      if c.Done? then c.options else ParseFrom(data, c.at, c.options)
  }

  method ParseOptions(data: seq<u8>) returns (o: TcpOptions)
    ensures o == ParseFrom(data, 0, NO_OPTIONS)
  {
    hide At16, At32;
    o := NO_OPTIONS;
    var i := 0;
    while i < |data|
      invariant 0 <= i <= |data|
      invariant ParseFrom(data, i, o) == ParseFrom(data, 0, NO_OPTIONS)
    {
      ghost var was := o;
      if data[i] == SACK && |data| - i >= 2 && 2 <= data[i + 1] <= |data| - i {
        var len := data[i + 1];
        var count := (len - 2) / 8;
        for b := 0 to count
          invariant o == was.(sackBlocks := was.sackBlocks + SackBlocksAt(data, i + 2, b))
        {
          var off := i + 2 + b * 8;
          o := o.(sackBlocks := o.sackBlocks + [(At32(data, off), At32(data, off + 4))]);
        }
        i := i + len;
      } else {
        var c := ParseOne(data, i, o);
        if c.Done? {
          return c.options;
        }
        i, o := c.at, c.options;
      }
    }
  }

  // ---------------------------------------------------------------- round trip

  lemma ParseNop(d: seq<u8>, i: nat, o: TcpOptions)
    requires i < |d| && d[i] == NOP
    ensures ParseFrom(d, i, o) == ParseFrom(d, i + 1, o)
  {
    hide SackBlocksAt;
  }

  lemma FourBytesStand(d: seq<u8>, i: nat, bytes: seq<u8>)
    requires Stands(d, i, bytes) && |bytes| == 4
    ensures i + 4 <= |d| && d[i] == bytes[0] && d[i + 1] == bytes[1] && d[i + 2] == bytes[2] && d[i + 3] == bytes[3]
  {
    StandsByte(d, i, bytes, 0);
    StandsByte(d, i, bytes, 1);
    StandsByte(d, i, bytes, 2);
    StandsByte(d, i, bytes, 3);
  }

  lemma ParseMss(d: seq<u8>, i: nat, o: TcpOptions, m: Option<u16>)
    requires Stands(d, i, MssBytes(m))
    ensures ParseFrom(d, i, o) == ParseFrom(d, i + |MssBytes(m)|, if m.None? then o else o.(mss := m))
  {
    hide Be16, At16, SackBlocksAt;
    if m.Some? {
      Sizes(m.value, 0);
      StandsPart(d, i, [MSS, 4], Be16(m.value));
      StandsByte(d, i, [MSS, 4], 0);
      StandsByte(d, i, [MSS, 4], 1);
      Stands16(d, i + 2, m.value);
    }
  }

  lemma ParseScale(d: seq<u8>, i: nat, o: TcpOptions, w: Option<u8>)
    requires Stands(d, i, ScaleBytes(w))
    ensures ParseFrom(d, i, o) == ParseFrom(d, i + |ScaleBytes(w)|, if w.None? then o else o.(windowScale := w))
  {
    hide SackBlocksAt;
    if w.Some? {
      FourBytesStand(d, i, ScaleBytes(w));
      ParseNop(d, i, o);
    }
  }

  lemma ParseSackPermitted(d: seq<u8>, i: nat, o: TcpOptions, on: bool)
    requires Stands(d, i, SackPermittedBytes(on))
    ensures ParseFrom(d, i, o) == ParseFrom(d, i + |SackPermittedBytes(on)|,
                          if on then o.(sackPermitted := true) else o)
  {
    hide SackBlocksAt;
    if on {
      FourBytesStand(d, i, SackPermittedBytes(on));
      ParseNop(d, i, o);
      ParseNop(d, i + 1, o);
    }
  }

  lemma ParseTimestamps(d: seq<u8>, i: nat, o: TcpOptions, t: Option<(u32, u32)>)
    requires Stands(d, i, TimestampBytes(t))
    ensures ParseFrom(d, i, o) == ParseFrom(d, i + |TimestampBytes(t)|, if t.None? then o else o.(timestamps := t))
  {
    hide Be32, At32, SackBlocksAt;
    if t.Some? {
      Sizes(0, t.value.0);
      Sizes(0, t.value.1);
      var head := [NOP, NOP, TIMESTAMPS, 10];
      StandsPart(d, i, head + Be32(t.value.0), Be32(t.value.1));
      StandsPart(d, i, head, Be32(t.value.0));
      FourBytesStand(d, i, head);
      Stands32(d, i + 4, t.value.0);
      Stands32(d, i + 8, t.value.1);
      ParseNop(d, i, o);
      ParseNop(d, i + 1, o);
    }
  }

  lemma {:induction false} BlocksReadBack(d: seq<u8>, at: nat, blocks: seq<(u32, u32)>)
    requires Stands(d, at, BlockBytes(blocks))
    ensures SackBlocksAt(d, at, |blocks|) == blocks
  {
    hide Be32, At32;
    if blocks != [] {
      var last := |blocks| - 1;
      var front, b := blocks[..last], blocks[last];
      assert blocks == front + [b];
      BlockBytesAppend(front, b);
      Sizes(0, b.0);
      Sizes(0, b.1);
      StandsPart(d, at, BlockBytes(front) + Be32(b.0), Be32(b.1));
      StandsPart(d, at, BlockBytes(front), Be32(b.0));
      Stands32(d, at + 8 * last, b.0);
      Stands32(d, at + 8 * last + 4, b.1);
      BlocksReadBack(d, at, front);
    }
  }

  lemma ParseSack(d: seq<u8>, i: nat, o: TcpOptions, blocks: seq<(u32, u32)>)
    requires Stands(d, i, SackBytes(blocks)) && |blocks| <= 31 && o.sackBlocks == []
    ensures ParseFrom(d, i, o) == ParseFrom(d, i + |SackBytes(blocks)|, o.(sackBlocks := blocks))
  {
    hide BlockBytes, SackBlocksAt, ParseOne, ParseFrom;
    if blocks != [] {
      var n := |blocks|;
      assert (2 + 8 * n) % 0x100 == 2 + 8 * n;
      var head := [NOP, NOP, SACK, (2 + 8 * n) % 0x100];
      StandsPart(d, i, head, BlockBytes(blocks));
      FourBytesStand(d, i, head);
      ParseNop(d, i, o);
      ParseNop(d, i + 1, o);
      SackStep(d, i + 2, o, |blocks|);
      BlocksReadBack(d, i + 4, blocks);
      assert [] + blocks == blocks;
      ParseStep(d, i + 2, o, i + 4 + 8 * |blocks|, o.(sackBlocks := blocks));
    } else {
      assert o.(sackBlocks := blocks) == o;
    }
  }

  lemma ParseStep(d: seq<u8>, i: nat, o: TcpOptions, at: nat, next: TcpOptions)
    requires i < |d| && ParseOne(d, i, o) == Next(at, next)
    ensures at <= |d| && ParseFrom(d, i, o) == ParseFrom(d, at, next)
  {
    hide ParseOne;
  }

  lemma SackStep(d: seq<u8>, i: nat, o: TcpOptions, n: nat)
    requires n <= 31 && i + 2 + 8 * n <= |d| && d[i] == SACK && d[i + 1] == 2 + 8 * n
    ensures ParseOne(d, i, o) == Next(i + 2 + 8 * n, o.(sackBlocks := o.sackBlocks + SackBlocksAt(d, i + 2, n)))
  {
    hide SackBlocksAt;
    assert (d[i + 1] - 2) / 8 == n;
  }

  /** Parsing the encoded options returns them, with up to 31 SACK blocks,
      the most whose length fits its byte. */
  lemma OptionsRoundTrip(o: TcpOptions)
    requires |o.sackBlocks| <= 31
    ensures ParseFrom(Encoded(o), 0, NO_OPTIONS) == o
  {
    hide MssBytes, ScaleBytes, SackPermittedBytes, TimestampBytes, SackBytes, ParseFrom;
    var a, b, c, t, s := MssBytes(o.mss), ScaleBytes(o.windowScale), SackPermittedBytes(o.sackPermitted),
                         TimestampBytes(o.timestamps), SackBytes(o.sackBlocks);
    var d := Encoded(o);
    assert d[0..|d|] == d;
    StandsPart(d, 0, a + b + c + t, s);
    StandsPart(d, 0, a + b + c, t);
    StandsPart(d, 0, a + b, c);
    StandsPart(d, 0, a, b);
    var i2, i3 := |a| + |b|, |a| + |b| + |c|;
    ParseParts(d, o, |a|, i2, i3, i3 + |t|);
    ParsedAll(d, o);
  }

  lemma ParsedAll(d: seq<u8>, o: TcpOptions)
    ensures ParseFrom(d, |d|, o) == o
  {
  }

  lemma ParseParts(d: seq<u8>, o: TcpOptions, i1: nat, i2: nat, i3: nat, i4: nat)
    requires Stands(d, 0, MssBytes(o.mss)) && i1 == |MssBytes(o.mss)|
    requires Stands(d, i1, ScaleBytes(o.windowScale)) && i2 == i1 + |ScaleBytes(o.windowScale)|
    requires Stands(d, i2, SackPermittedBytes(o.sackPermitted)) && i3 == i2 + |SackPermittedBytes(o.sackPermitted)|
    requires Stands(d, i3, TimestampBytes(o.timestamps)) && i4 == i3 + |TimestampBytes(o.timestamps)|
    requires Stands(d, i4, SackBytes(o.sackBlocks)) && |d| == i4 + |SackBytes(o.sackBlocks)| && |o.sackBlocks| <= 31
    ensures ParseFrom(d, 0, NO_OPTIONS) == ParseFrom(d, |d|, o)
  {
    hide MssBytes, ScaleBytes, SackPermittedBytes, TimestampBytes, SackBytes, ParseFrom, Stands;
    var o1 := NO_OPTIONS.(mss := o.mss);
    var o2 := o1.(windowScale := o.windowScale);
    var o3 := o2.(sackPermitted := o.sackPermitted);
    var o4 := o3.(timestamps := o.timestamps);
    StandsInside(d, i4, SackBytes(o.sackBlocks));
    ParseMss(d, 0, NO_OPTIONS, o.mss);
    ParseScale(d, i1, o1, o.windowScale);
    ParseSackPermitted(d, i2, o2, o.sackPermitted);
    ParseTimestamps(d, i3, o3, o.timestamps);
    ParseSack(d, i4, o4, o.sackBlocks);
    assert o4.(sackBlocks := o.sackBlocks) == o;
  }

  lemma StandsInside(d: seq<u8>, at: nat, bytes: seq<u8>)
    requires Stands(d, at, bytes)
    ensures at + |bytes| <= |d|
  {
  }
}
