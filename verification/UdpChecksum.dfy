/** The UDP checksum, whose payload sum takes four bytes at a time. */
module UdpChecksum {
  import opened Types
  import opened Bytes
  import opened Checksum

  const TWO64 := 0x1_0000_0000_0000_0000

  // ---------------------------------------------------------------- four bytes at a time

  /** 32-bit big-endian words, then what is left over as 16-bit words. */
  function QuadSum(s: seq<u8>): nat {
    if |s| < 4 then WordSum(s) else At32(s, 0) + QuadSum(s[4..])
  }

  lemma {:induction false} QuadSumFits(s: seq<u8>)
    ensures 4 * QuadSum(s) <= |s| * TWO32
  {
    hide Read32;
    if |s| >= 4 {
      QuadSumFits(s[4..]);
    } else if |s| >= 2 {
      assert WordSum(s) <= 0x1_FFFE;
    }
  }

  // A 32-bit word is its two halves modulo 65535.
  lemma QuadIsTwoWords(s: seq<u8>)
    requires |s| >= 4
    ensures At32(s, 0) == Word(s[0], s[1]) + Word(s[2], s[3]) + Word(s[0], s[1]) * 0xFFFF
  {
  }

  lemma {:induction false} QuadSumExcess(s: seq<u8>) returns (k: nat)
    ensures QuadSum(s) == WordSum(s) + k * 0xFFFF
    ensures QuadSum(s) == 0 <==> WordSum(s) == 0
  {
    hide Word, At32;
    if |s| < 4 {
      k := 0;
    } else {
      var m := QuadSumExcess(s[4..]);
      QuadIsTwoWords(s);
      assert s[2..][2..] == s[4..];
      k := m + Word(s[0], s[1]);
    }
  }

  /** Folding either sum gives the same 16 bits. */
  lemma QuadSumFolds(s: seq<u8>)
    ensures Folded(QuadSum(s)) == Folded(WordSum(s))
  {
    hide QuadSum, WordSum;
    var k := QuadSumExcess(s);
    if WordSum(s) > 0 {
      SameResidue(WordSum(s) - 1, k);
    }
  }

  /** The payload sum is that of the two-byte loop, folded. */
  method OnesComplementSum(data: seq<u8>) returns (r: u32)
    requires |data| < TWO32
    ensures r == Folded(WordSum(data))
  {
    hide At32, Word;
    var acc, i := 0, 0;
    while i + 4 <= |data|
      invariant 0 <= i <= |data|
      invariant acc + QuadSum(data[i..]) == QuadSum(data)
    {
      assert data[i..][4..] == data[i + 4..];
      assert At32(data[i..], 0) == At32(data, i) by { Shifted32(data, i); }
      acc, i := acc + At32(data, i), i + 4;
    }
    var rem := data[i..];
    var extra := 0;
    if |rem| >= 2 {
      extra := extra + Word(rem[0], rem[1]);
    }
    if |rem| % 2 == 1 {
      extra := extra + Word(rem[|rem| - 1], 0);
    }
    assert extra == WordSum(rem) by { LastWords(rem); }
    acc := acc + extra;
    QuadSumFits(data);
    QuadSumFolds(data);
    r := Fold64(acc);
  }

  lemma Shifted32(s: seq<u8>, i: nat)
    requires i + 4 <= |s|
    ensures At32(s[i..], 0) == At32(s, i)
  {
  }

  lemma LastWords(rem: seq<u8>)
    requires |rem| < 4
    ensures WordSum(rem) ==
            (if |rem| >= 2 then Word(rem[0], rem[1]) else 0) + (if |rem| % 2 == 1 then Word(rem[|rem| - 1], 0) else 0)
  {
    hide Word;
  }

  method Fold64(start: nat) returns (r: u16)
    requires start < TWO64
    ensures r == Folded(start)
  {
    var sum := start;
    while sum >= TWO16
      invariant 0 <= sum < TWO64
      invariant Folded(sum) == Folded(start)
    {
      FoldKeeps(sum);
      sum := sum % TWO16 + sum / TWO16;
    }
    r := sum;
    FoldedIsItself(r);
  }

  // ---------------------------------------------------------------- the checksum

  const PROTOCOL_UDP: u8 := 17

  // The pseudo-header.
  function PseudoSum(srcIp: seq<u8>, dstIp: seq<u8>, payload: seq<u8>): nat {
    WordSum(srcIp) + WordSum(dstIp) + PROTOCOL_UDP + (8 + |payload|)
  }

  // Zero would mean that there is no checksum.
  function NonZero(c: u16): u16 { if c == 0 then 0xFFFF else c }

  /** The checksum of a datagram, whatever its checksum field holds. */
  function UdpChecksumOf(srcIp: seq<u8>, dstIp: seq<u8>, header: seq<u8>, payload: seq<u8>): u16
    requires |header| == 8
  {
    NonZero(ChecksumOf(PseudoSum(srcIp, dstIp, payload) + WordSum(header[..6]) + Folded(WordSum(payload))))
  }

  method ChecksumUdp(srcIp: seq<u8>, dstIp: seq<u8>, header: seq<u8>, payload: seq<u8>) returns (c: u16)
    requires |srcIp| == 4 && |dstIp| == 4 && |header| == 8 && |payload| <= 0xFFFF
    ensures c == UdpChecksumOf(srcIp, dstIp, header, payload)
  {
    hide WordSum, Folded;
    FourBytes(srcIp);
    FourBytes(dstIp);
    var sum: u32 := Word(srcIp[0], srcIp[1]) + Word(srcIp[2], srcIp[3]) +
      Word(dstIp[0], dstIp[1]) + Word(dstIp[2], dstIp[3]);
    sum := sum + PROTOCOL_UDP + (8 + |payload|);
    ghost var start := sum;
    var i := 0;
    assert header[..0] == [];
    EmptySum();
    while i < |header|
      invariant i in {0, 2, 4, 6, 8}
      invariant start <= sum <= start + i * 0x8000
      invariant sum == start + WordSum(header[..Min(i, 6)])
    {
      // The checksum field is skipped.
      if i != 6 {
        assert header[..i + 2] == header[..i] + [header[i], header[i + 1]];
        WordSumAppend(header[..i], header[i], header[i + 1]);
        sum := sum + Word(header[i], header[i + 1]);
      }
      i := i + 2;
    }
    var rest := OnesComplementSum(payload);
    sum := sum + rest;
    var folded := Fold(sum);
    c := NonZero(Complement(folded));
  }

  lemma EmptySum()
    ensures WordSum([]) == 0
  {
  }

  lemma FourBytes(s: seq<u8>)
    requires |s| == 4
    ensures WordSum(s) == Word(s[0], s[1]) + Word(s[2], s[3])
  {
    hide Word;
    var t := s[2..];
    assert WordSum(s) == Word(s[0], s[1]) + WordSum(t);
    assert WordSum(t) == Word(t[0], t[1]) + WordSum(t[2..]);
  }

  /** The sums added up are those of the pseudo-header of RFC 768, the header
      with its checksum field zeroed, and the payload. */
  lemma PseudoHeaderBytes(srcIp: seq<u8>, dstIp: seq<u8>, header: seq<u8>, payload: seq<u8>)
    requires |srcIp| == 4 && |dstIp| == 4 && |header| == 8 && 8 + |payload| <= 0xFFFF
    ensures PseudoSum(srcIp, dstIp, payload) + WordSum(header[..6]) + WordSum(payload) ==
            WordSum(PseudoHeader(srcIp, dstIp, 17, 8 + |payload|) + (header[..6] + [0, 0] + payload))
  {
    hide WordSum, Word, PseudoHeader;
    var fields := header[..6];
    PseudoHeaderSum(srcIp, dstIp, 17, 8 + |payload|);
    ZeroedSum(fields, payload);
    WordSumSplits(PseudoHeader(srcIp, dstIp, 17, 8 + |payload|), fields + [0, 0] + payload);
  }

  lemma ZeroedSum(fields: seq<u8>, payload: seq<u8>)
    requires |fields| == 6
    ensures WordSum(fields + [0, 0] + payload) == WordSum(fields) + WordSum(payload)
  {
    hide WordSum, Word;
    WordSumAppend(fields, 0, 0);
    WordSumSplits(fields + [0, 0], payload);
    ZeroWord();
  }

  lemma ZeroWord()
    ensures Word(0, 0) == 0
  {
  }

  lemma FoldedWithin(n: nat) returns (k: nat)
    ensures n == Folded(n) + k * 0xFFFF
  {
    k := if n == 0 then 0 else (n - 1) / 0xFFFF;
  }

  lemma MultipleFolds(n: nat, k: nat)
    requires n > 0 && n == k * 0xFFFF
    ensures Folded(n) == 0xFFFF
  {
    assert n - 1 == (k - 1) * 0xFFFF + 0xFFFE;
    SameResidue(0xFFFE, k - 1);
  }

  /** A datagram with its checksum filled in verifies, and its checksum field
      is never zero. */
  lemma FilledDatagramChecks(srcIp: seq<u8>, dstIp: seq<u8>, header: seq<u8>, payload: seq<u8>)
    requires |srcIp| == 4 && |dstIp| == 4 && |header| == 8 && |payload| <= 0xFFFF
    ensures var c := UdpChecksumOf(srcIp, dstIp, header, payload);
            && c != 0
            && ChecksumOf(PseudoSum(srcIp, dstIp, payload) + WordSum(Fill(header, 6, c)) + WordSum(payload)) == 0
  {
    hide WordSum, ChecksumOf, Folded;
    SumFits(srcIp);
    SumFits(dstIp);
    SumFits(header[..6]);
    SumFits(payload);
    var c := UdpChecksumOf(srcIp, dstIp, header, payload);
    assert Fill(header, 6, c) == header[..6] + [c / 0x100, c % 0x100];
    WordSumAppend(header[..6], c / 0x100, c % 0x100);
    FilledTotalChecks(PseudoSum(srcIp, dstIp, payload) + WordSum(header[..6]), WordSum(payload));
  }

  lemma FilledTotalChecks(a: nat, w: nat)
    requires a < 0x100_0000 && w < TWO31
    ensures var c := NonZero(ChecksumOf(a + Folded(w)));
            c != 0 && ChecksumOf(a + c + w) == 0
  {
    hide Folded;
    var n := a + Folded(w);
    var c := NonZero(ChecksumOf(n));
    var k := FoldedWithin(w);
    var m := FoldedWithin(n);
    var total := a + c + w;
    assert total == n + c + k * 0xFFFF;
    var q := m + k + (if ChecksumOf(n) == 0 then 2 else 1);
    assert total == q * 0xFFFF;
    MultipleFolds(total, q);
  }

  /** Over the bytes themselves: pseudo-header, filled-in header and payload
      verify. */
  lemma FilledDatagramVerifies(srcIp: seq<u8>, dstIp: seq<u8>, header: seq<u8>, payload: seq<u8>)
    requires |srcIp| == 4 && |dstIp| == 4 && |header| == 8 && 8 + |payload| <= 0xFFFF
    ensures var datagram := Fill(header, 6, UdpChecksumOf(srcIp, dstIp, header, payload)) + payload;
            ChecksumOf(WordSum(PseudoHeader(srcIp, dstIp, 17, 8 + |payload|) + datagram)) == 0
  {
    hide ChecksumOf, WordSum, PseudoHeader, UdpChecksumOf;
    var filled := Fill(header, 6, UdpChecksumOf(srcIp, dstIp, header, payload));
    FilledDatagramChecks(srcIp, dstIp, header, payload);
    PseudoHeaderSum(srcIp, dstIp, 17, 8 + |payload|);
    WordSumSplits(filled, payload);
    WordSumSplits(PseudoHeader(srcIp, dstIp, 17, 8 + |payload|), filled + payload);
  }
}
