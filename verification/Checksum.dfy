/** The one's-complement checksum of RFC 1071, over sums kept in 32 bits. */
module Checksum {
  import opened Types

  /** The 16-bit big-endian words of a byte string, the last one padded with
      a zero byte, added up. */
  function WordSum(s: seq<u8>): nat {
    if |s| == 0 then 0
    else if |s| == 1 then Word(s[0], 0)
    else Word(s[0], s[1]) + WordSum(s[2..])
  }

  function Word(hi: nat, lo: nat): nat { hi * 0x100 + lo }

  /** The fixed point of folding: a residue modulo 65535 in which only zero
      itself is 0. */
  function Folded(n: nat): u16 { if n == 0 then 0 else (n - 1) % 0xFFFF + 1 }

  function Complement(n: u16): u16 { 0xFFFF - n }

  /** The checksum of a sum kept in 32 bits. */
  function ChecksumOf(sum: nat): u16 { Complement(Folded(sum % TWO32)) }

  // ---------------------------------------------------------------- the loops

  method AddWords(start: u32, s: seq<u8>) returns (sum: u32)
    ensures sum == (start + WordSum(s)) % TWO32
  {
    hide Word;
    sum := start;
    ghost var total: nat := start;
    var i := 0;
    while i < |s|
      invariant 0 <= i <= |s| + 1
      invariant sum == total % TWO32
      invariant total + WordSum(s[Min(i, |s|)..]) == start + WordSum(s)
    {
      var word := if i + 1 < |s| then Word(s[i], s[i + 1]) else Word(s[i], 0);
      assert s[i..][Min(2, |s| - i)..] == s[Min(i + 2, |s|)..];
      AddThenReduce(total, word);
      sum, total := (sum + word) % TWO32, total + word;
      i := i + 2;
    }
  }

  lemma AddThenReduce(a: nat, b: nat)
    ensures (a % TWO32 + b) % TWO32 == (a + b) % TWO32
  {
  }

  method Fold(start: u32) returns (r: u16)
    ensures r == Folded(start)
  {
    var sum := start;
    while sum >= TWO16
      invariant 0 <= sum < TWO32
      invariant Folded(sum) == Folded(start)
    {
      FoldKeeps(sum);
      sum := sum % TWO16 + sum / TWO16;
    }
    r := sum;
    FoldedIsItself(r);
  }

  lemma FoldKeeps(n: nat)
    requires n >= TWO16
    ensures 0 < n % TWO16 + n / TWO16 < n
    ensures Folded(n % TWO16 + n / TWO16) == Folded(n)
  {
    var q, r := n / TWO16, n % TWO16;
    assert n - 1 == (r + q - 1) + q * 0xFFFF;
    SameResidue(r + q - 1, q);
  }

  lemma SameResidue(a: nat, k: nat)
    ensures (a + k * 0xFFFF) % 0xFFFF == a % 0xFFFF
  {
  }

  lemma FoldedIsItself(n: u16)
    ensures Folded(n) == n
  {
  }

  method Ipv4Checksum(header: seq<u8>) returns (c: u16)
    ensures c == ChecksumOf(WordSum(header))
  {
    var sum := AddWords(0, header);
    var folded := Fold(sum);
    c := Complement(folded);
  }

  /** Pseudo-header and segment together. */
  function TcpSum(srcIp: seq<u8>, dstIp: seq<u8>, segment: seq<u8>): nat {
    WordSum(srcIp) + WordSum(dstIp) + 6 + |segment| + WordSum(segment)
  }

  method TcpChecksum(srcIp: seq<u8>, dstIp: seq<u8>, segment: seq<u8>) returns (c: u16)
    ensures c == ChecksumOf(TcpSum(srcIp, dstIp, segment))
  {
    hide WordSum;
    ghost var a, b, w := WordSum(srcIp), WordSum(dstIp), WordSum(segment);
    var sum := AddWords(0, srcIp);
    AddThenReduce(a, b);
    sum := AddWords(sum, dstIp);
    AddThenReduce(a + b, 6);
    sum := (sum + 6) % TWO32;
    AddThenReduce(a + b + 6, |segment| % TWO32);
    AddThenReduce(|segment|, a + b + 6);
    sum := (sum + |segment| % TWO32) % TWO32;
    AddThenReduce(a + b + 6 + |segment|, w);
    sum := AddWords(sum, segment);
    var folded := Fold(sum);
    c := Complement(folded);
  }

  // ---------------------------------------------------------------- what the sums are sums of

  lemma {:induction false} WordSumAppend(s: seq<u8>, a: u8, b: u8)
    requires |s| % 2 == 0
    ensures WordSum(s + [a, b]) == WordSum(s) + Word(a, b)
  {
    hide Word;
    if s == [] {
      assert ([a, b])[2..] == [];
    } else {
      WordSumAppend(s[2..], a, b);
      assert (s + [a, b])[2..] == s[2..] + [a, b];
    }
  }

  /** The sum splits at every even offset. */
  lemma {:induction false} WordSumSplits(s: seq<u8>, t: seq<u8>)
    requires |s| % 2 == 0
    ensures WordSum(s + t) == WordSum(s) + WordSum(t)
    decreases |s|
  {
    hide Word;
    if s == [] {
      assert s + t == t;
    } else {
      WordSumSplits(s[2..], t);
      assert (s + t)[2..] == s[2..] + t;
    }
  }

  /** The pseudo-header of RFC 9293 section 3.1 and RFC 768: both addresses, a
      zero byte, the protocol, and the length of what follows. */
  function PseudoHeader(srcIp: seq<u8>, dstIp: seq<u8>, protocol: u8, len: u16): seq<u8> {
    srcIp + dstIp + [0, protocol] + [len / 0x100, len % 0x100]
  }

  lemma PseudoHeaderSum(srcIp: seq<u8>, dstIp: seq<u8>, protocol: u8, len: u16)
    requires |srcIp| == 4 && |dstIp| == 4
    ensures |PseudoHeader(srcIp, dstIp, protocol, len)| == 12
    ensures WordSum(PseudoHeader(srcIp, dstIp, protocol, len)) == WordSum(srcIp) + WordSum(dstIp) + protocol + len
  {
    hide WordSum;
    WordSumSplits(srcIp, dstIp);
    WordSumAppend(srcIp + dstIp, 0, protocol);
    WordSumAppend(srcIp + dstIp + [0, protocol], len / 0x100, len % 0x100);
  }

  /** The TCP checksum covers the pseudo-header with protocol 6 and then the
      segment. */
  lemma TcpSumIsOverPseudoHeader(srcIp: seq<u8>, dstIp: seq<u8>, segment: seq<u8>)
    requires |srcIp| == 4 && |dstIp| == 4 && |segment| <= 0xFFFF
    ensures TcpSum(srcIp, dstIp, segment) == WordSum(PseudoHeader(srcIp, dstIp, 6, |segment|) + segment)
  {
    hide WordSum, PseudoHeader;
    PseudoHeaderSum(srcIp, dstIp, 6, |segment|);
    WordSumSplits(PseudoHeader(srcIp, dstIp, 6, |segment|), segment);
  }

  /** A byte string read as one big-endian number. */
  function Number(s: seq<u8>): nat {
    if s == [] then 0 else Number(s[..|s| - 1]) * 0x100 + s[|s| - 1]
  }

  // Padded with a zero byte to whole words.
  function Padded(s: seq<u8>): seq<u8> { if |s| % 2 == 0 then s else s + [0] }

  lemma NumberAppend(s: seq<u8>, a: u8, b: u8)
    ensures Number(s + [a, b]) == Number(s) * 0x1_0000 + Word(a, b)
  {
    var t := s + [a];
    assert (s + [a, b])[..|s| + 1] == t && t[..|s|] == s;
    assert Number(s + [a, b]) == Number(t) * 0x100 + b;
    assert Number(t) == Number(s) * 0x100 + a;
  }

  /** Modulo 65535 the sum of the words is the number itself, and it is zero
      only if the number is. */
  lemma {:induction false} SumIsNumber(s: seq<u8>) returns (k: nat)
    requires |s| % 2 == 0
    ensures Number(s) == WordSum(s) + k * 0xFFFF
    ensures Number(s) == 0 <==> WordSum(s) == 0
    decreases |s|
  {
    hide Word, Number;
    if s == [] {
      k := 0;
      assert Number([]) == 0 by { EmptyNumber(); }
    } else {
      var n := |s| - 2;
      var t := s[..n];
      assert s == t + [s[n], s[n + 1]];
      var m := SumIsNumber(t);
      WordSumAppend(t, s[n], s[n + 1]);
      NumberAppend(t, s[n], s[n + 1]);
      k := m + Number(t);
      assert Number(t) * 0x1_0000 == Number(t) + Number(t) * 0xFFFF;
    }
  }

  lemma EmptyNumber()
    ensures Number([]) == 0
  {
  }

  lemma PaddedSum(s: seq<u8>)
    ensures WordSum(Padded(s)) == WordSum(s)
  {
    if |s| % 2 == 1 {
      var n := |s| - 1;
      assert s == s[..n] + [s[n]] && s + [0] == s[..n] + [s[n], 0];
      WordSumSplits(s[..n], [s[n]]);
      WordSumAppend(s[..n], s[n], 0);
    }
  }

  lemma FoldsToOnes(n: nat)
    ensures Folded(n) == 0xFFFF <==> n > 0 && n % 0xFFFF == 0
  {
    FoldedResidue(n);
  }

  lemma ResidueShifts(a: nat, k: nat)
    ensures (a + k * 0xFFFF) % 0xFFFF == a % 0xFFFF
  {
  }

  /** What the checksum checks: bytes verify if and only if, read as one
      big-endian number, they are a positive multiple of 65535. */
  lemma VerifiesExactly(s: seq<u8>)
    requires |s| <= 0x1_FFFF
    ensures ChecksumOf(WordSum(s)) == 0 <==> Number(Padded(s)) > 0 && Number(Padded(s)) % 0xFFFF == 0
  {
    hide WordSum, Number, Folded;
    SumFits(s);
    PaddedSum(s);
    var k := SumIsNumber(Padded(s));
    FoldsToOnes(WordSum(s));
    ResidueShifts(WordSum(s), k);
  }

  // ---------------------------------------------------------------- what they achieve

  /** A sum of at most 65536 words never wraps. */
  lemma {:induction false} SumFits(s: seq<u8>)
    ensures 2 * WordSum(s) <= (|s| + 1) * 0xFFFF
  {
    if |s| >= 2 {
      SumFits(s[2..]);
    }
  }

  /** Folding keeps the residue modulo 65535 and tells zero from the rest. */
  lemma FoldedResidue(n: nat)
    ensures Folded(n) % 0xFFFF == n % 0xFFFF
    ensures Folded(n) == 0 <==> n == 0
  {
    if n > 0 {
      assert n == ((n - 1) / 0xFFFF) * 0xFFFF + Folded(n);
    }
  }

  /** Adding a sum's own checksum to it makes the checksum zero. */
  lemma ChecksumCancels(n: nat)
    requires n <= TWO32 - TWO16
    ensures ChecksumOf(n + ChecksumOf(n)) == 0
  {
    assert n % TWO32 == n;
    var q := if n == 0 then 0 else (n - 1) / 0xFFFF;
    assert n + ChecksumOf(n) == q * 0xFFFF + 0xFFFF;
    FoldedMultiple(q);
  }

  lemma FoldedMultiple(k: nat)
    ensures Folded(k * 0xFFFF + 0xFFFF) == 0xFFFF
  {
    SameResidue(0xFFFE, k);
  }

  /** Storing a word over a zero word at an even offset adds it to the sum. */
  lemma {:induction false} StoredWord(s: seq<u8>, at: nat, hi: u8, lo: u8)
    requires at % 2 == 0 && at + 1 < |s| && s[at] == 0 && s[at + 1] == 0
    ensures WordSum(s[at := hi][at + 1 := lo]) == WordSum(s) + Word(hi, lo)
    decreases at
  {
    var t := s[at := hi][at + 1 := lo];
    if at == 0 {
      assert t[2..] == s[2..];
    } else {
      StoredWord(s[2..], at - 2, hi, lo);
      assert t[2..] == s[2..][at - 2 := hi][at - 1 := lo];
    }
  }

  // Write a checksum into its field.
  function Fill(s: seq<u8>, at: nat, c: u16): seq<u8>
    requires at + 1 < |s|
  {
    s[at := c / 0x100][at + 1 := c % 0x100]
  }

  lemma FilledSum(s: seq<u8>, at: nat, c: u16)
    requires at % 2 == 0 && at + 1 < |s| && s[at] == 0 && s[at + 1] == 0
    ensures WordSum(Fill(s, at, c)) == WordSum(s) + c
  {
    StoredWord(s, at, c / 0x100, c % 0x100);
  }

  /** A header whose zeroed checksum field at an even offset is filled with
      its checksum has checksum zero. */
  lemma FilledHeaderChecks(header: seq<u8>, at: nat)
    requires at % 2 == 0 && at + 1 < |header| <= 0xFFFF && header[at] == 0 && header[at + 1] == 0
    ensures ChecksumOf(WordSum(Fill(header, at, ChecksumOf(WordSum(header))))) == 0
  {
    hide WordSum, ChecksumOf, Fill;
    SumFits(header);
    FilledSum(header, at, ChecksumOf(WordSum(header)));
    ChecksumCancels(WordSum(header));
  }

  /** The same for a TCP segment under its pseudo-header, odd lengths included. */
  lemma FilledSegmentChecks(srcIp: seq<u8>, dstIp: seq<u8>, segment: seq<u8>, at: nat)
    requires |srcIp| == 4 && |dstIp| == 4
    requires at % 2 == 0 && at + 1 < |segment| <= 0xFFFF && segment[at] == 0 && segment[at + 1] == 0
    ensures var c := ChecksumOf(TcpSum(srcIp, dstIp, segment));
            ChecksumOf(TcpSum(srcIp, dstIp, Fill(segment, at, c))) == 0
  {
    hide WordSum, ChecksumOf;
    SumFits(srcIp);
    SumFits(dstIp);
    SumFits(segment);
    var n := TcpSum(srcIp, dstIp, segment);
    FilledSum(segment, at, ChecksumOf(n));
    ChecksumCancels(n);
  }
}
