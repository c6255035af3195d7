/**
 The Internet checksum of the port scanner and the TCP header it protects.

 `Checksum` is the C function: 16-bit words in host (little-endian) order are added into a
 32-bit accumulator, the carries are folded in twice, and the low half is complemented.
 The reference is RFC 1071: the complement of the one's-complement sum.
 */
module Checksum {
  import opened Common

  // ------------------------------------------------------------------ the code

  /** The word at an even position on a little-endian host; a last odd byte stands alone. */
  function LittleWord(data: seq<byte>, i: nat): (w: nat)
    requires i < |data|
    ensures w < 0x1_0000
  {
    if i + 1 < |data| then Word(data[i], data[i + 1]) else data[i]
  }

  /** Addition of two uint32_t values, which wraps around at 2^32. */
  function AddU32(a: nat, b: nat): (r: nat)
    requires a < 0x1_0000_0000 && b < 0x1_0000_0000
    ensures r < 0x1_0000_0000
  {
    if a + b < 0x1_0000_0000 then a + b else a + b - 0x1_0000_0000
  }

  /** How many 16-bit words the loop adds; a last odd byte counts as one. */
  function Words(data: seq<byte>): nat {
    (|data| + 1) / 2
  }

  /** The accumulator after the first `n` words have been added. */
  function Accumulate(data: seq<byte>, n: nat): (sum: nat)
    requires n <= Words(data)
    ensures sum < 0x1_0000_0000
  {
    if n == 0 then 0 else AddU32(Accumulate(data, n - 1), LittleWord(data, 2 * (n - 1)))
  }

  /** Both folds and the complement, on 32-bit values, truncated to 16 bits. */
  function Fold(sum: nat): nat
    requires sum < 0x1_0000_0000
  {
    var once := AddU32(sum / 0x1_0000, sum % 0x1_0000);
    AddU32(once, once / 0x1_0000)
  }

  function Finish(sum: nat): (r: nat)
    requires sum < 0x1_0000_0000
  {
    0xffff - Fold(sum) % 0x1_0000
  }

  function ChecksumOf(data: seq<byte>): nat {
    Finish(Accumulate(data, Words(data)))
  }

  /** The loop of `checksum` and its odd last byte. */
  method AddWords(data: array<byte>) returns (sum: nat)
    ensures sum == Accumulate(data[..], Words(data[..]))
  {
    var p, len := 0, data.Length;
    sum := 0;
    ghost var n := 0;
    while len > 1
      invariant 0 <= len && p + len == data.Length && p == 2 * n
      invariant sum == Accumulate(data[..], n)
    {
      sum := AddU32(sum, Word(data[p], data[p + 1]));
      p, len, n := p + 2, len - 2, n + 1;
    }
    if len == 1 {
      sum := AddU32(sum, data[p]);
      n := n + 1;
    }
    assert n == Words(data[..]);
  }

  /** uint16_t checksum(void *data, int len) */
  method Compute(data: array<byte>) returns (r: nat)
    ensures r == ChecksumOf(data[..]) && r < 0x1_0000
  {
    var sum := AddWords(data);
    sum := AddU32(sum / 0x1_0000, sum % 0x1_0000);
    sum := AddU32(sum, sum / 0x1_0000);
    r := 0xffff - sum % 0x1_0000;
  }

  // ------------------------------------------------------------- the reference

  /** The plain sum of the words of a buffer, in either byte order. */
  function WordSum(data: seq<byte>): nat {
    if data == [] then 0
    else if |data| == 1 then data[0]
    else Word(data[0], data[1]) + WordSum(data[2..])
  }

  /** The same with the first byte of each word the high one and a zero byte added at the end. */
  function NetworkSum(data: seq<byte>): nat {
    if data == [] then 0
    else if |data| == 1 then Word(0, data[0])
    else Word(data[1], data[0]) + NetworkSum(data[2..])
  }

  /** The one's-complement value of a sum: 0 for 0, else its residue in 1..65535 modulo 65535. */
  function OnesComplement(sum: nat): nat {
    if sum == 0 then 0 else (sum - 1) % 0xffff + 1
  }

  /** RFC 1071 on a big-endian reading: the 16-bit checksum as a number. */
  function Rfc1071(data: seq<byte>): nat {
    0xffff - OnesComplement(NetworkSum(data))
  }

  // ------------------------------------------------------------- the accumulator

  lemma {:induction false} WordSumAppend(a: seq<byte>, b: seq<byte>)
    requires |a| % 2 == 0
    ensures WordSum(a + b) == WordSum(a) + WordSum(b)
  {
    if a == [] {
      assert a + b == b;
    } else {
      assert (a + b)[2..] == a[2..] + b;
      WordSumAppend(a[2..], b);
    }
  }

  /** The first `n` words of a buffer. */
  function Prefix(data: seq<byte>, n: nat): seq<byte>
    requires n <= Words(data)
  {
    data[..Min(2 * n, |data|)]
  }

  /** One 32-bit addition of a 16-bit word wraps at most once. */
  lemma AddWraps(acc: nat, w: nat) returns (k: nat)
    requires acc < 0x1_0000_0000 && w < 0x1_0000
    ensures acc + w == AddU32(acc, w) + k * 0x1_0000_0000
  {
    k := if acc + w < 0x1_0000_0000 then 0 else 1;
  }

  lemma PrefixSum(data: seq<byte>, n: nat)
    requires 0 < n <= Words(data)
    ensures WordSum(Prefix(data, n)) == WordSum(Prefix(data, n - 1)) + LittleWord(data, 2 * (n - 1))
  {
    var front, last := Prefix(data, n - 1), data[2 * (n - 1)..Min(2 * n, |data|)];
    assert Prefix(data, n) == front + last;
    WordSumAppend(front, last);
    assert |last| == 2 ==> last[2..] == [];
  }

  lemma EmptyPrefix(data: seq<byte>)
    ensures WordSum(Prefix(data, 0)) == 0
  {
  }

  /** The 32-bit accumulator is the plain sum, up to the number of times it has wrapped. */
  lemma {:induction false} AccumulatorIsSum(data: seq<byte>, n: nat) returns (k: nat)
    requires n <= Words(data)
    ensures WordSum(Prefix(data, n)) == Accumulate(data, n) + k * 0x1_0000_0000
  {
    hide WordSum, AddU32, LittleWord, Prefix;
    if n == 0 {
      EmptyPrefix(data);
      k := 0;
    } else {
      var before := AccumulatorIsSum(data, n - 1);
      PrefixSum(data, n);
      var wrap := AddWraps(Accumulate(data, n - 1), LittleWord(data, 2 * (n - 1)));
      k := before + wrap;
    }
  }

  lemma Residue32(x: nat, r: nat, k: nat)
    requires r < 0x1_0000_0000 && x == r + k * 0x1_0000_0000
    ensures x % 0x1_0000_0000 == r && x / 0x1_0000_0000 == k
  {
  }

  lemma ModShift(x: nat, k: nat)
    ensures (x + k * 0xffff) % 0xffff == x % 0xffff
  {
  }

  lemma NoWrap(x: nat)
    requires x < 0x1_0000_0000
    ensures x % 0x1_0000_0000 == x
  {
  }

  /** Two folds always suffice: what is left is the one's-complement value of the sum. */
  lemma TwoFoldsSuffice(sum: nat)
    requires sum < 0x1_0000_0000
    ensures Fold(sum) % 0x1_0000 == OnesComplement(sum)
  {
    var hi, lo := sum / 0x1_0000, sum % 0x1_0000;
    var once := hi + lo;
    assert sum == once + hi * 0xffff;
    if sum > 0 {
      ModShift(once - 1, hi);
      if once < 0x1_0000 {
        assert once / 0x1_0000 == 0;
      } else {
        assert once / 0x1_0000 == 1;
        assert (once - 1) % 0xffff == once - 1 - 0xffff;
      }
    }
  }

  lemma {:induction false} SumBound(data: seq<byte>)
    ensures WordSum(data) <= Words(data) * 0xffff
  {
    if |data| >= 2 {
      SumBound(data[2..]);
      assert Words(data) == Words(data[2..]) + 1;
    }
  }

  // -------------------------------------------------- the code meets the reference

  /** For every buffer: the code computes the reference on the sum modulo 2^32. */
  lemma ChecksumIsWrappedSum(data: seq<byte>)
    ensures ChecksumOf(data) == 0xffff - OnesComplement(WordSum(data) % 0x1_0000_0000)
  {
    var k := AccumulatorIsSum(data, Words(data));
    assert Prefix(data, Words(data)) == data;
    var sum := Accumulate(data, Words(data));
    Residue32(WordSum(data), sum, k);
    TwoFoldsSuffice(sum);
  }

  /** Up to 65537 words the accumulator never wraps, at any point of the loop. */
  lemma NeverWraps(data: seq<byte>, n: nat)
    requires n <= Words(data) && n <= 65537
    ensures WordSum(Prefix(data, n)) < 0x1_0000_0000
    ensures Accumulate(data, n) == WordSum(Prefix(data, n))
  {
    var k := AccumulatorIsSum(data, n);
    SumBound(Prefix(data, n));
    assert Words(Prefix(data, n)) <= n;
  }

  /** Up to 65537 words the code computes the complement of the one's-complement sum. */
  lemma ChecksumExact(data: seq<byte>)
    requires Words(data) <= 65537
    ensures ChecksumOf(data) == 0xffff - OnesComplement(WordSum(data))
  {
    NeverWraps(data, Words(data));
    assert Prefix(data, Words(data)) == data;
    TwoFoldsSuffice(WordSum(data));
  }

  lemma SameResidueIff(x: nat, k: nat)
    ensures (x + k) % 0xffff == x % 0xffff <==> k % 0xffff == 0
  {
    var q := k / 0xffff;
    assert x + k == x + k % 0xffff + q * 0xffff;
    ModShift(x + k % 0xffff, q);
  }

  lemma WrapsVisibleIff(k: nat, rest: nat)
    requires rest > 0
    ensures OnesComplement(rest) == OnesComplement(rest + k * 0x1_0000_0000) <==> k % 0xffff == 0
  {
    assert rest + k * 0x1_0000_0000 - 1 == (rest - 1 + k) + (k * 0x1_0001) * 0xffff;
    ModShift(rest - 1 + k, k * 0x1_0001);
    SameResidueIff(rest - 1, k);
  }

  /**
   Beyond the bound: the code is right for a buffer exactly when what wrapped around is
   invisible modulo 65535, that is, the number of wraps is a multiple of 65535 and the
   accumulator did not come out as 0.
   */
  lemma ChecksumRightIff(data: seq<byte>)
    ensures ChecksumOf(data) == 0xffff - OnesComplement(WordSum(data)) <==>
            WordSum(data) < 0x1_0000_0000 || (WordSum(data) % 0x1_0000_0000 != 0 && (WordSum(data) / 0x1_0000_0000) % 0xffff == 0)
  {
    ChecksumIsWrappedSum(data);
    var sum := WordSum(data);
    var k, rest := sum / 0x1_0000_0000, sum % 0x1_0000_0000;
    if k == 0 {
      NoWrap(sum);
    } else if rest > 0 {
      WrapsVisibleIff(k, rest);
    }
  }

  lemma FewWraps(sum: nat)
    requires 0x1_0000_0000 <= sum <= 0x4000_0000 * 0xffff
    ensures (sum / 0x1_0000_0000) % 0xffff != 0
  {
  }

  /** `len` is a C int: for every buffer a caller can pass, the code is right exactly when nothing wraps. */
  lemma RightIffNoWrap(data: seq<byte>)
    requires |data| < 0x8000_0000
    ensures ChecksumOf(data) == 0xffff - OnesComplement(WordSum(data)) <==> WordSum(data) < 0x1_0000_0000
  {
    hide ChecksumOf, OnesComplement, WordSum;
    ChecksumRightIff(data);
    SumBound(data);
    if WordSum(data) >= 0x1_0000_0000 {
      FewWraps(WordSum(data));
    }
  }

  lemma {:induction false} AllOnesSum(data: seq<byte>)
    requires |data| % 2 == 0 && forall i :: 0 <= i < |data| ==> data[i] == 255
    ensures WordSum(data) == (|data| / 2) * 0xffff
  {
    if data != [] {
      AllOnesSum(data[2..]);
    }
  }

  /** The bound is tight: 65538 words of all ones already give a wrong checksum. */
  lemma BoundIsTight(data: seq<byte>)
    requires |data| == 2 * 65538 && forall i :: 0 <= i < |data| ==> data[i] == 255
    ensures ChecksumOf(data) != 0xffff - OnesComplement(WordSum(data))
  {
    AllOnesSum(data);
    Residue32(WordSum(data), 65534, 1);
    ChecksumRightIff(data);
  }

  // ------------------------------------------------------- byte order independence

  /** Reading every word the other way round multiplies the sum by 256 modulo 65535. */
  lemma {:induction false} NetworkSumIsScaled(data: seq<byte>) returns (k: nat)
    ensures 256 * WordSum(data) == NetworkSum(data) + k * 0xffff
  {
    if data == [] {
      k := 0;
    } else if |data| == 1 {
      k := 0;
    } else {
      var rest := NetworkSumIsScaled(data[2..]);
      k := rest + data[1];
    }
  }

  function SwapBytes(v: nat): (r: nat)
    requires v < 0x1_0000
    ensures r < 0x1_0000
  {
    256 * (v % 256) + v / 256
  }

  /** Swapping the two bytes of a 16-bit value multiplies it by 256 modulo 65535. */
  lemma SwapScales(v: nat)
    requires v < 0x1_0000
    ensures 256 * v == SwapBytes(v) + (v / 256) * 0xffff
    ensures SwapBytes(v) == 0 <==> v == 0
  {
  }

  lemma OnesComplementUnique(sum: nat, v: nat, k: int)
    requires 0 < sum && 0 < v <= 0xffff && sum == v + k * 0xffff
    ensures OnesComplement(sum) == v
  {
    ModShift(v - 1, k);
  }

  lemma OnesComplementResidue(sum: nat) returns (k: nat)
    requires sum > 0
    ensures 0 < OnesComplement(sum) <= 0xffff
    ensures sum == OnesComplement(sum) + k * 0xffff
  {
    k := (sum - 1) / 0xffff;
  }

  lemma ScaledIsSwapped(s: nat, t: nat, j: nat)
    requires s > 0 && t > 0 && 256 * s == t + j * 0xffff
    ensures OnesComplement(t) == SwapBytes(OnesComplement(s))
  {
    var k := OnesComplementResidue(s);
    var v := OnesComplement(s);
    SwapScales(v);
    OnesComplementUnique(t, SwapBytes(v), v / 256 + 256 * k - j);
  }

  lemma {:induction false} ZeroTogether(data: seq<byte>)
    ensures WordSum(data) == 0 <==> NetworkSum(data) == 0
  {
    if |data| >= 2 {
      ZeroTogether(data[2..]);
    }
  }

  lemma SwapCommutes(data: seq<byte>)
    ensures OnesComplement(NetworkSum(data)) == SwapBytes(OnesComplement(WordSum(data)))
  {
    var s, t := WordSum(data), NetworkSum(data);
    ZeroTogether(data);
    if s > 0 {
      var j := NetworkSumIsScaled(data);
      ScaledIsSwapped(s, t, j);
    }
  }

  lemma ComplementCommutes(v: nat)
    requires v <= 0xffff
    ensures SwapBytes(0xffff - v) == 0xffff - SwapBytes(v)
  {
    assert v == 256 * (v / 256) + v % 256;
    assert 0xffff - v == 256 * (255 - v / 256) + (255 - v % 256);
  }

  lemma ReferenceIsSwapped(data: seq<byte>)
    ensures OnesComplement(WordSum(data)) <= 0xffff
    ensures Rfc1071(data) == SwapBytes(0xffff - OnesComplement(WordSum(data)))
  {
    SwapCommutes(data);
    ComplementCommutes(OnesComplement(WordSum(data)));
  }

  lemma SwappedStore(v: nat)
    requires v < 0x1_0000
    ensures Little16(v) == Big16(SwapBytes(v))
  {
  }

  /**
   Section 2(B) of RFC 1071: the two bytes the code stores, computed in host order and stored
   without htons, are the two bytes of the big-endian computation stored in network order.
   */
  lemma StoredBytesAreNetworkOrder(data: seq<byte>)
    requires Words(data) <= 65537
    ensures ChecksumOf(data) < 0x1_0000 && Rfc1071(data) < 0x1_0000
    ensures Little16(ChecksumOf(data)) == Big16(Rfc1071(data))
  {
    ChecksumExact(data);
    ReferenceIsSwapped(data);
    SwappedStore(ChecksumOf(data));
  }

  // ------------------------------------------------------------ using the checksum

  lemma FullIff(sum: nat)
    ensures OnesComplement(sum) == 0xffff <==> sum > 0 && sum % 0xffff == 0
  {
  }

  /** What a receiver sees: 0 exactly when the sum is a positive multiple of 65535. */
  lemma AcceptedIff(data: seq<byte>)
    requires Words(data) <= 65537
    ensures ChecksumOf(data) == 0 <==> WordSum(data) > 0 && WordSum(data) % 0xffff == 0
  {
    ChecksumExact(data);
    FullIff(WordSum(data));
  }

  lemma SplitSum(a: seq<byte>, w: seq<byte>, b: seq<byte>)
    requires |a| % 2 == 0 && |w| == 2
    ensures WordSum(a + w + b) == WordSum(a) + Word(w[0], w[1]) + WordSum(b)
  {
    WordSumAppend(a + w, b);
    WordSumAppend(a, w);
    assert w[2..] == [];
  }

  lemma ComplementFills(sum: nat)
    ensures sum + (0xffff - OnesComplement(sum)) > 0
    ensures (sum + (0xffff - OnesComplement(sum))) % 0xffff == 0
  {
    if sum > 0 {
      var k := OnesComplementResidue(sum);
      ModShift(0, k + 1);
    }
  }

  /** Storing the checksum of a buffer in a word that was zero makes the buffer check to 0. */
  lemma StoredChecksumVerifies(a: seq<byte>, b: seq<byte>)
    requires |a| % 2 == 0 && Words(a + [0, 0] + b) <= 65537
    ensures ChecksumOf(a + [0, 0] + b) < 0x1_0000
    ensures ChecksumOf(a + Little16(ChecksumOf(a + [0, 0] + b)) + b) == 0
  {
    var zeroed := a + [0, 0] + b;
    ChecksumExact(zeroed);
    var c := ChecksumOf(zeroed);
    SplitSum(a, [0, 0], b);
    SplitSum(a, Little16(c), b);
    WordLittle16(c);
    ComplementFills(WordSum(zeroed));
    var stored := a + Little16(c) + b;
    assert WordSum(stored) == WordSum(zeroed) + c;
    AcceptedIff(stored);
  }

  lemma MultiplesIff(rest: nat, w: nat, v: nat)
    requires (rest + w) % 0xffff == 0
    ensures (rest + v) % 0xffff == 0 <==> v % 0xffff == w % 0xffff
  {
  }

  /**
   Error detection. In a buffer that checks to 0, replacing any one word keeps the check at 0
   exactly when the new word is congruent to the old one modulo 65535 (and the buffer has not
   become all zero): every other change of one word is detected.
   */
  lemma OneWordChangeDetected(a: seq<byte>, w: seq<byte>, v: seq<byte>, b: seq<byte>)
    requires |a| % 2 == 0 && |w| == |v| == 2 && Words(a + w + b) <= 65537
    requires ChecksumOf(a + w + b) == 0
    ensures ChecksumOf(a + v + b) == 0 <==>
            Word(v[0], v[1]) % 0xffff == Word(w[0], w[1]) % 0xffff && WordSum(a + v + b) > 0
  {
    AcceptedIff(a + w + b);
    AcceptedIff(a + v + b);
    SplitSum(a, w, b);
    SplitSum(a, v, b);
    MultiplesIff(WordSum(a) + WordSum(b), Word(w[0], w[1]), Word(v[0], v[1]));
  }

  // -------------------------------------------------------------- the TCP segment

  function Big32(v: nat): (r: seq<byte>)
    requires v < 0x1_0000_0000
    ensures |r| == 4
  {
    Big16(v / 0x1_0000) + Big16(v % 0x1_0000)
  }

  /** The fields of the SYN segment before the checksum: ports, sequence number, ack 0, offset 5 and SYN, window. */
  function TcpFront(source: nat, dest: nat, seqNo: nat): (r: seq<byte>)
    requires source < 0x1_0000 && dest < 0x1_0000 && seqNo < 0x1_0000_0000
    ensures |r| == 16
  {
    Big16(source) + Big16(dest) + Big32(seqNo) + [0, 0, 0, 0] + [0x50, 0x02] + Big16(65535)
  }

  /** RFC 793 section 3.1: addresses, zero, protocol 6, TCP length 20. */
  function PseudoHeader(saddr: seq<byte>, daddr: seq<byte>): (r: seq<byte>)
    requires |saddr| == |daddr| == 4
    ensures |r| == 12
  {
    saddr + daddr + [0, 6] + Big16(20)
  }

  /** p reads as the pseudo header of section 3.1 of RFC 793 for a TCP segment of 20 bytes. */
  predicate ReadsAsPseudo(p: seq<byte>, saddr: seq<byte>, daddr: seq<byte>) {
    && |p| == 12
    && p[0..4] == saddr && p[4..8] == daddr
    && p[8] == 0 && p[9] == 6 && p[10] == 0 && p[11] == 20
  }

  /** The bytes tcp_checksum puts before the header are those, and no others are. */
  lemma PseudoHeaderReads(p: seq<byte>, saddr: seq<byte>, daddr: seq<byte>)
    requires |saddr| == |daddr| == 4
    ensures ReadsAsPseudo(p, saddr, daddr) <==> p == PseudoHeader(saddr, daddr)
  {
    var q := PseudoHeader(saddr, daddr);
    assert q[0..4] == saddr && q[4..8] == daddr && q[8..10] == [0, 6] && q[10..12] == [0, 20];
    if ReadsAsPseudo(p, saddr, daddr) {
      assert p == p[0..4] + p[4..8] + [p[8], p[9]] + [p[10], p[11]];
    }
  }

  /** What a receiver reads in the fields of the header (section 3.1 of RFC 793). */
  predicate ReadsAsSyn(h: seq<byte>, source: nat, dest: nat, seqNo: nat) {
    && |h| == 20
    && Word(h[1], h[0]) == source && Word(h[3], h[2]) == dest
    && 0x1_0000 * Word(h[5], h[4]) + Word(h[7], h[6]) == seqNo
    && h[8] == h[9] == h[10] == h[11] == 0        // acknowledgment number
    && h[12] == 5 * 16 && h[13] == 2              // data offset 5 and SYN alone
    && h[14] == 255 && h[15] == 255              // window
    && h[18] == h[19] == 0                        // urgent pointer
  }

  lemma Big16Reads(v: nat)
    requires v < 0x1_0000
    ensures Word(Big16(v)[1], Big16(v)[0]) == v
  {
  }

  lemma Big32Reads(v: nat)
    requires v < 0x1_0000_0000
    ensures var b := Big32(v); 0x1_0000 * Word(b[1], b[0]) + Word(b[3], b[2]) == v
  {
    Big16Reads(v / 0x1_0000);
    Big16Reads(v % 0x1_0000);
    assert v == 0x1_0000 * (v / 0x1_0000) + v % 0x1_0000;
  }

  lemma TcpFrontReads(h: seq<byte>, source: nat, dest: nat, seqNo: nat)
    requires source < 0x1_0000 && dest < 0x1_0000 && seqNo < 0x1_0000_0000
    requires |h| == 20 && h[..16] == TcpFront(source, dest, seqNo) && h[18..] == [0, 0]
    ensures ReadsAsSyn(h, source, dest, seqNo)
  {
    hide Big16, Big32;
    var f := TcpFront(source, dest, seqNo);
    Big16Reads(source);
    Big16Reads(dest);
    Big16Reads(65535);
    Big32Reads(seqNo);
    assert forall i :: 0 <= i < 16 ==> h[i] == h[..16][i] == f[i];
    assert f[0..2] == Big16(source) && f[2..4] == Big16(dest) && f[4..8] == Big32(seqNo);
    assert f[8..12] == [0, 0, 0, 0] && f[12..14] == [0x50, 0x02] && f[14..16] == Big16(65535);
    assert h[18] == h[18..][0] && h[19] == h[18..][1];
    assert f[0] == f[0..2][0] && f[1] == f[0..2][1] && f[2] == f[2..4][0] && f[3] == f[2..4][1];
    assert forall i :: 0 <= i < 4 ==> f[4 + i] == f[4..8][i] && f[8 + i] == f[8..12][i];
    assert f[12] == f[12..14][0] && f[13] == f[12..14][1] && f[14] == f[14..16][0] && f[15] == f[14..16][1];
  }

  /** uint16_t tcp_checksum(struct tcphdr *tcph, struct iphdr *iph) */
  method TcpChecksum(tcph: array<byte>, saddr: seq<byte>, daddr: seq<byte>) returns (r: nat)
    requires tcph.Length == 20 && |saddr| == |daddr| == 4
    ensures r < 0x1_0000
    ensures forall p :: ReadsAsPseudo(p, saddr, daddr) ==> r == ChecksumOf(p + tcph[..])
    ensures r == ChecksumOf(PseudoHeader(saddr, daddr) + tcph[..])
  {
    var pseudo := PseudoHeader(saddr, daddr);
    var buffer := new byte[32];
    for i := 0 to 12
      invariant buffer[..i] == pseudo[..i]
    {
      buffer[i] := pseudo[i];
    }
    for i := 0 to 20
      invariant buffer[..12] == pseudo
      invariant buffer[12..12 + i] == tcph[..i]
    {
      buffer[12 + i] := tcph[i];
    }
    assert buffer[..] == pseudo + tcph[..] by {
      assert buffer[..] == buffer[..12] + buffer[12..32];
    }
    r := Compute(buffer);
    forall p | ReadsAsPseudo(p, saddr, daddr) ensures r == ChecksumOf(p + tcph[..]) {
      PseudoHeaderReads(p, saddr, daddr);
    }
  }

  method Put(a: array<byte>, at: nat, bytes: seq<byte>)
    requires at + |bytes| <= a.Length
    modifies a
    ensures a[..] == old(a[..at]) + bytes + old(a[at + |bytes|..])
  {
    ghost var was := a[..];
    for i := 0 to |bytes|
      invariant a[..] == was[..at] + bytes[..i] + was[at + i..]
    {
      a[at + i] := bytes[i];
    }
  }

  lemma Regroup(p: seq<byte>, a: seq<byte>, w: seq<byte>, b: seq<byte>)
    ensures p + (a + w + b) == p + a + w + b
  {
  }

  lemma SegmentSize(p: seq<byte>, front: seq<byte>)
    requires |p| == 12 && |front| == 16
    ensures |p + front| % 2 == 0 && Words(p + front + [0, 0] + [0, 0]) <= 65537
  {
    assert |p + front + [0, 0] + [0, 0]| == 32;
  }

  lemma FilledHeaderVerifies(p: seq<byte>, front: seq<byte>, check: nat)
    requires |p| == 12 && |front| == 16 && check < 0x1_0000
    requires check == ChecksumOf(p + (front + [0, 0] + [0, 0]))
    ensures ChecksumOf(p + (front + Little16(check) + [0, 0])) == 0
  {
    Regroup(p, front, [0, 0], [0, 0]);
    Regroup(p, front, Little16(check), [0, 0]);
    SegmentSize(p, front);
    StoredChecksumVerifies(p + front, [0, 0]);
  }

  /** The last statement of build_tcph: the check field of an otherwise finished header. */
  method FillCheck(tcph: array<byte>, saddr: seq<byte>, daddr: seq<byte>, ghost front: seq<byte>)
    requires tcph.Length == 20 && |saddr| == |daddr| == 4
    requires |front| == 16 && tcph[..] == front + [0, 0] + [0, 0]
    modifies tcph
    ensures tcph[..16] == front && tcph[18..] == [0, 0]
    ensures forall p :: ReadsAsPseudo(p, saddr, daddr) ==> ChecksumOf(p + tcph[..]) == 0
  {
    hide PseudoHeader, ChecksumOf, ReadsAsPseudo;
    var check := TcpChecksum(tcph, saddr, daddr);
    Put(tcph, 16, Little16(check));
    assert tcph[..] == front + Little16(check) + [0, 0];
    FilledHeaderVerifies(PseudoHeader(saddr, daddr), front, check);
    forall p | ReadsAsPseudo(p, saddr, daddr) ensures ChecksumOf(p + tcph[..]) == 0 {
      PseudoHeaderReads(p, saddr, daddr);
    }
  }

  /** void build_tcph(...) on a header that syn_scan has zeroed. */
  method BuildTcph(tcph: array<byte>, saddr: seq<byte>, daddr: seq<byte>, source: nat, dest: nat, seqNo: nat)
    requires tcph.Length == 20 && tcph[..] == seq(20, _ => 0)
    requires |saddr| == |daddr| == 4
    requires source < 0x1_0000 && dest < 0x1_0000 && seqNo < 0x1_0000_0000
    modifies tcph
    ensures ReadsAsSyn(tcph[..], source, dest, seqNo)
    ensures forall p :: ReadsAsPseudo(p, saddr, daddr) ==> ChecksumOf(p + tcph[..]) == 0
  {
    hide Big16, Big32, PseudoHeader, ChecksumOf, ReadsAsPseudo, ReadsAsSyn;
    var ports := Big16(source) + Big16(dest);
    Put(tcph, 0, Big16(source));
    Put(tcph, 2, Big16(dest));
    assert tcph[..4] == ports;
    Put(tcph, 4, Big32(seqNo));
    Put(tcph, 8, [0, 0, 0, 0]);
    assert tcph[..12] == ports + Big32(seqNo) + [0, 0, 0, 0];
    Put(tcph, 12, [0x50, 0x02]);
    Put(tcph, 14, Big16(65535));
    assert tcph[..16] == TcpFront(source, dest, seqNo);
    Put(tcph, 16, [0, 0]);
    Put(tcph, 18, [0, 0]);
    assert tcph[..] == TcpFront(source, dest, seqNo) + [0, 0] + [0, 0];
    FillCheck(tcph, saddr, daddr, TcpFront(source, dest, seqNo));
    TcpFrontReads(tcph[..], source, dest, seqNo);
  }
}
