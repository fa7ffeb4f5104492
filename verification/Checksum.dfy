// The Internet checksum as ping computes it, in 32-bit unsigned arithmetic.
module Checksum {
  import opened Common

  const WORD: nat := 0x1_0000          // 2^16
  const DOUBLE: nat := 0x1_0000_0000   // 2^32
  const MAX_EXACT: nat := 131074       // 65537 words of at most 65535

  const IP_HEADER: nat := 20
  const PING_LENGTH: nat := 44         // IP header, ICMP header, timestamp
  const IP_CHECK_AT: nat := 10
  const ICMP_CHECK_AT: nat := 22

  function Word(hi: byte, lo: byte): nat { hi as nat * 256 + lo as nat }

  // The sum of the big-endian words of an even number of bytes.
  function WordSum(buf: seq<byte>): nat {
    if |buf| < 2 then 0 else WordSum(buf[..|buf| - 2]) + Word(buf[|buf| - 2], buf[|buf| - 1])
  }

  // The one's-complement value of a sum: carries out of 16 bits are added back.
  function Ones(sum: nat): (f: nat)
    ensures f < WORD
  {
    if sum < WORD then sum else Ones(sum - 65535)
  }

  // What calculate_checksum returns, with the sum kept modulo 2^32.
  function Value(buf: seq<byte>): (c: nat)
    ensures c < WORD
  {
    WORD - 1 - Ones(WordSum(buf) % 0x1_0000_0000)
  }

  // --- The sum -----------------------------------------------------------------------

  lemma {:induction false} SumBound(buf: seq<byte>)
    ensures WordSum(buf) <= 65535 * (|buf| / 2)
  {
    if |buf| >= 2 {
      SumBound(buf[..|buf| - 2]);
    }
  }

  // Up to 131074 bytes the 32-bit sum does not overflow.
  lemma NoOverflow(buf: seq<byte>)
    requires |buf| <= MAX_EXACT
    ensures WordSum(buf) < DOUBLE
  {
    SumBound(buf);
  }

  lemma {:induction false} SumConcat(a: seq<byte>, b: seq<byte>)
    requires |b| % 2 == 0
    ensures WordSum(a + b) == WordSum(a) + WordSum(b)
  {
    if |b| < 2 {
      assert a + b == a;
    } else {
      assert (a + b)[..|a + b| - 2] == a + b[..|b| - 2];
      SumConcat(a, b[..|b| - 2]);
    }
  }

  // The sum of the bytes at even, or odd, offsets.
  function ByteSum(buf: seq<byte>, parity: nat): nat {
    if buf == [] then 0
    else ByteSum(buf[..|buf| - 1], parity) + if (|buf| - 1) % 2 == parity then buf[|buf| - 1] as nat else 0
  }

  // Network byte order: the first byte of each pair counts 256 times.
  lemma {:induction false} ByteOrder(buf: seq<byte>)
    requires |buf| % 2 == 0
    ensures WordSum(buf) == 256 * ByteSum(buf, 0) + ByteSum(buf, 1)
  {
    if buf != [] {
      var n := |buf| - 2;
      ByteOrder(buf[..n]);
      assert buf[..n + 1][..n] == buf[..n];
      assert ByteSum(buf[..n + 1], 0) == ByteSum(buf[..n], 0) + buf[n] as nat;
    }
  }

  lemma SumAround(a: seq<byte>, hi: byte, lo: byte, b: seq<byte>)
    requires |b| % 2 == 0
    ensures WordSum(a + [hi, lo] + b) == WordSum(a) + Word(hi, lo) + WordSum(b)
  {
    SumConcat(a + [hi, lo], b);
    SumConcat(a, [hi, lo]);
    assert [hi, lo][..0] == [];
  }

  // --- The fold ----------------------------------------------------------------------

  function FoldOnce(sum: nat): nat { sum % 0x1_0000 + sum / 0x1_0000 }

  lemma FoldKeepsOnes(sum: nat)
    ensures FoldOnce(sum) % 65535 == sum % 65535 && (FoldOnce(sum) == 0 <==> sum == 0)
    ensures sum >= WORD ==> FoldOnce(sum) < sum
  {
  }

  lemma ModAdd(a: nat, k: nat)
    ensures (a + 65535 * k) % 65535 == a % 65535
  {
  }

  // The carry loop takes at most two rounds.
  lemma FoldTwice(sum: nat)
    requires sum < DOUBLE
    ensures FoldOnce(FoldOnce(sum)) < WORD
  {
  }

  // Zero only for zero, otherwise the representative modulo 65535 in 1 .. 65535.
  lemma {:induction false} OnesFacts(sum: nat)
    ensures Ones(sum) % 65535 == sum % 65535 && (Ones(sum) == 0 <==> sum == 0)
  {
    if sum >= WORD {
      OnesFacts(sum - 65535);
      ModAdd(sum - 65535, 1);
    }
  }

  lemma OnesUnique(sum: nat, f: nat)
    requires f < WORD && f % 65535 == sum % 65535 && (f == 0 <==> sum == 0)
    ensures Ones(sum) == f
  {
  }

  lemma SumOfResidues(x: nat, y: nat, fx: nat, fy: nat)
    requires fx % 65535 == x % 65535 && fy % 65535 == y % 65535
    ensures (fx + fy) % 65535 == (x + y) % 65535
  {
    var m := 65535;
    var r := fx % m + fy % m;
    assert fx + fy == r + m * (fx / m + fy / m);
    assert x + y == r + m * (x / m + y / m);
    ModAdd(r, fx / m + fy / m);
    ModAdd(r, x / m + y / m);
  }

  lemma OnesOfSum(x: nat, y: nat)
    ensures Ones(Ones(x) + Ones(y)) == Ones(x + y)
  {
    OnesFacts(x);
    OnesFacts(y);
    SumOfResidues(x, y, Ones(x), Ones(y));
    OnesFacts(Ones(x) + Ones(y));
    OnesUnique(x + y, Ones(Ones(x) + Ones(y)));
  }

  // Folding parts separately and folding the result gives the fold of the whole.
  lemma FoldOfParts(a: seq<byte>, b: seq<byte>)
    requires |b| % 2 == 0
    ensures Ones(WordSum(a + b)) == Ones(Ones(WordSum(a)) + Ones(WordSum(b)))
  {
    var x, y := WordSum(a), WordSum(b);
    OnesOfSum(x, y);
    assert WordSum(a + b) == x + y by { SumConcat(a, b); }
  }

  // --- The reference: one's-complement addition, word by word ------------------------

  // 16-bit addition with end-around carry.
  function CarryAdd(a: nat, b: nat): nat {
    if a + b >= WORD then a + b - 65535 else a + b
  }

  function CarrySum(buf: seq<byte>): (f: nat)
    ensures f < WORD
  {
    if |buf| < 2 then 0 else CarryAdd(CarrySum(buf[..|buf| - 2]), Word(buf[|buf| - 2], buf[|buf| - 1]))
  }

  lemma CarryAddIsOnes(x: nat, w: nat)
    requires w < WORD
    ensures CarryAdd(Ones(x), w) == Ones(x + w)
  {
  }

  // Deferring all carries to one fold of the plain sum changes nothing.
  lemma {:induction false} DeferredCarries(buf: seq<byte>)
    ensures Ones(WordSum(buf)) == CarrySum(buf)
  {
    if |buf| >= 2 {
      var before := buf[..|buf| - 2];
      DeferredCarries(before);
      CarryAddIsOnes(WordSum(before), Word(buf[|buf| - 2], buf[|buf| - 1]));
    }
  }

  ghost predicate Exact(buf: seq<byte>) {
    Value(buf) == WORD - 1 - CarrySum(buf)
  }

  ghost predicate ExactFor(n: nat) {
    forall buf: seq<byte> | |buf| == n :: Exact(buf)
  }

  // The 32-bit accumulator gives the one's-complement checksum for every buffer of
  // an even length exactly when that length is at most 131074 bytes.
  lemma LengthLimit(n: nat)
    requires n % 2 == 0
    ensures ExactFor(n) <==> n <= MAX_EXACT
  {
    if n <= MAX_EXACT {
      forall buf: seq<byte> | |buf| == n ensures Exact(buf) {
        ExactBelow(buf);
      }
    } else {
      var buf := Overflowing(n, WORD + 2);
    }
  }

  lemma ExactBelow(buf: seq<byte>)
    requires |buf| <= MAX_EXACT
    ensures Exact(buf)
  {
    NoOverflow(buf);
    DeferredCarries(buf);
    var sum := WordSum(buf);
    assert sum % 0x1_0000_0000 == sum;
  }

  // One word of 0xFFFF too many for 32 bits, then zeros.
  lemma Overflowing(n: nat, words: nat) returns (buf: seq<byte>)
    requires words == WORD + 2 && n % 2 == 0 && n >= 2 * words
    ensures |buf| == n && !Exact(buf)
  {
    var ones, zeros := Repeat(255, 2 * words), Repeat(0, n - 2 * words);
    buf := ones + zeros;
    SumRepeat(255, words);
    SumRepeat(0, (n - 2 * words) / 2);
    SumConcat(ones, zeros);
    DeferredCarries(buf);
    var sum := WordSum(buf);
    assert sum == 65535 * words == DOUBLE + 65534;
    ModAdd(0, words);
    OnesUnique(sum, 65535);
  }

  function Repeat(b: byte, n: nat): (s: seq<byte>)
    ensures |s| == n && forall i :: 0 <= i < n ==> s[i] == b
  {
    seq(n, _ => b)
  }

  lemma {:induction false} SumRepeat(b: byte, words: nat)
    ensures WordSum(Repeat(b, 2 * words)) == Word(b, b) * words
  {
    if words > 0 {
      assert Repeat(b, 2 * words)[..2 * words - 2] == Repeat(b, 2 * (words - 1));
      SumRepeat(b, words - 1);
    }
  }

  // --- Insert, then verify ---------------------------------------------------------

  // Buffer buf with the 16-bit field at an offset set to v in network byte order.
  function Patch(buf: seq<byte>, at: nat, v: nat): (r: seq<byte>)
    requires at + 2 <= |buf| && v < WORD
    ensures |r| == |buf|
    ensures Word(r[at], r[at + 1]) == v
    ensures forall i :: 0 <= i < |buf| && i != at && i != at + 1 ==> r[i] == buf[i]
  {
    buf[at := (v / 256) as byte][at + 1 := (v % 256) as byte]
  }

  lemma SumPatch(buf: seq<byte>, at: nat, v: nat)
    requires |buf| % 2 == 0 && at % 2 == 0 && at + 2 <= |buf| && v < WORD
    ensures WordSum(Patch(buf, at, v)) + Word(buf[at], buf[at + 1]) == WordSum(buf) + v
  {
    var r := Patch(buf, at, v);
    SumSplit(buf, at);
    SumSplit(r, at);
    assert r[..at] == buf[..at] && r[at + 2..] == buf[at + 2..];
  }

  lemma SumSplit(buf: seq<byte>, at: nat)
    requires |buf| % 2 == 0 && at % 2 == 0 && at + 2 <= |buf|
    ensures WordSum(buf) == WordSum(buf[..at]) + Word(buf[at], buf[at + 1]) + WordSum(buf[at + 2..])
  {
    assert buf == buf[..at] + [buf[at], buf[at + 1]] + buf[at + 2..];
    SumAround(buf[..at], buf[at], buf[at + 1], buf[at + 2..]);
  }

  // A sum makes a checksum of zero exactly when it is a positive multiple of 65535.
  lemma ZeroIff(sum: nat)
    ensures WORD - 1 - Ones(sum) == 0 <==> sum > 0 && sum % 65535 == 0
  {
  }

  lemma ComplementCloses(sum: nat)
    requires sum < DOUBLE
    ensures var c := WORD - 1 - Ones(sum);
      (sum + c) % 65535 == 0 && 0 < sum + c < DOUBLE
  {
    OnesFacts(sum);
    var q, f := sum / 65535, Ones(sum);
    assert sum == 65535 * q + sum % 65535;
    if f == 65535 {
      ModAdd(0, q);
    } else {
      assert f == sum % 65535;
      assert sum + (WORD - 1 - f) == 65535 * (q + 1);
      ModAdd(0, q + 1);
    }
  }

  lemma WrappedSum(x: nat, c: nat)
    requires x % 0x1_0000_0000 + c < DOUBLE
    ensures (x + c) % 0x1_0000_0000 == x % 0x1_0000_0000 + c
  {
  }

  // Storing the checksum of a buffer with a zeroed field in that field makes the
  // recomputed checksum zero. No bound on the length: a sum that wraps around wraps
  // around the same way in both computations.
  lemma InsertThenVerify(buf: seq<byte>, at: nat)
    requires |buf| % 2 == 0 && at % 2 == 0 && at + 2 <= |buf| && buf[at] == 0 && buf[at + 1] == 0
    ensures Value(Patch(buf, at, Value(buf))) == 0
  {
    var sum, c := WordSum(buf), Value(buf);
    SumPatch(buf, at, c);
    ComplementCloses(sum % 0x1_0000_0000);
    WrappedSum(sum, c);
    ZeroIff(sum % 0x1_0000_0000 + c);
  }

  // --- The loops ------------------------------------------------------------------

  lemma NextWord(s: seq<byte>, hi: byte, lo: byte)
    ensures (WordSum(s) % 0x1_0000_0000 + Word(hi, lo)) % 0x1_0000_0000 == WordSum(s + [hi, lo]) % 0x1_0000_0000
  {
  }

  // The running sum after i bytes from a given offset.
  ghost predicate Summed(s: seq<byte>, from: nat, i: nat, sum: nat) {
    from + i <= |s| && sum == WordSum(s[from..from + i]) % 0x1_0000_0000
  }

  lemma SummedNext(s: seq<byte>, from: nat, i: nat, sum: nat)
    requires from + i + 2 <= |s| && Summed(s, from, i, sum)
    ensures Summed(s, from, i + 2, (sum + Word(s[from + i], s[from + i + 1])) % 0x1_0000_0000)
  {
    var done, hi, lo := s[from..from + i], s[from + i], s[from + i + 1];
    assert s[from..from + i + 2] == done + [hi, lo];
    NextWord(done, hi, lo);
  }

  method CalculateChecksum(buf: array<byte>, from: nat, nLen: nat) returns (c: nat)
    requires nLen % 2 == 0 && from + nLen <= buf.Length
    ensures c == Value(buf[from..from + nLen])
  {
    var nSum := 0;
    var i := 0;
    ghost var words, all := 0, nLen / 2;
    while i < nLen
      invariant 0 <= words <= all && i == 2 * words && nLen == 2 * all
      invariant Summed(buf[..], from, i, nSum)
    {
      SummedNext(buf[..], from, i, nSum);
      var nWord := Word(buf[from + i], buf[from + i + 1]);
      nSum := (nSum + nWord) % 0x1_0000_0000;
      i := i + 2;
      words := words + 1;
    }
    assert buf[..][from..from + nLen] == buf[from..from + nLen];
    c := Fold(nSum);
  }

  // The carry loop, complement and cast to 16 bits; at most two rounds.
  method Fold(sum: nat) returns (c: nat)
    requires sum < DOUBLE
    ensures c == WORD - 1 - Ones(sum)
  {
    var nSum: nat := sum;
    ghost var rounds: nat := 0;
    while nSum / 0x1_0000 != 0
      invariant FoldInv(sum, nSum, rounds)
      decreases nSum
    {
      FoldStep(sum, nSum, rounds);
      nSum := nSum % 0x1_0000 + nSum / 0x1_0000;
      rounds := rounds + 1;
    }
    OnesUnique(sum, nSum);
    c := Complement(nSum);
  }

  // The 32-bit complement, cast to 16 bits.
  function Complement(n: nat): (c: nat)
    requires n < DOUBLE
    ensures n < WORD ==> c == WORD - 1 - n
  {
    (DOUBLE - 1 - n) % 0x1_0000
  }

  // The running value after some rounds of the carry loop.
  ghost predicate FoldInv(sum: nat, n: nat, rounds: nat) {
    && n % 65535 == sum % 65535 && (n == 0 <==> sum == 0)
    && rounds <= 2 && n == Folded(sum, rounds)
  }

  lemma FoldStep(sum: nat, n: nat, rounds: nat)
    requires FoldInv(sum, n, rounds) && n >= WORD && sum < DOUBLE
    ensures FoldInv(sum, FoldOnce(n), rounds + 1) && FoldOnce(n) < n
  {
    FoldKeepsOnes(n);
    FoldTwice(sum);
  }

  function Folded(sum: nat, rounds: nat): nat {
    if rounds == 0 then sum else if rounds == 1 then FoldOnce(sum) else FoldOnce(FoldOnce(sum))
  }

  predicate InCheckField(i: int) {
    i == IP_CHECK_AT || i == IP_CHECK_AT + 1 || i == ICMP_CHECK_AT || i == ICMP_CHECK_AT + 1
  }

  // Both checksums, computed before either is stored.
  function WithChecksums(buf: seq<byte>): seq<byte>
    requires |buf| >= PING_LENGTH
  {
    Patch(Patch(buf, IP_CHECK_AT, Value(buf[..IP_HEADER])), ICMP_CHECK_AT, Value(buf[IP_HEADER..PING_LENGTH]))
  }

  // Fills the two checksum fields of an echo request, as ping does before sending.
  method FillChecksums(buf: array<byte>)
    requires buf.Length >= PING_LENGTH
    requires buf[IP_CHECK_AT] == buf[IP_CHECK_AT + 1] == 0
    requires buf[ICMP_CHECK_AT] == buf[ICMP_CHECK_AT + 1] == 0
    modifies buf
    ensures Value(buf[..IP_HEADER]) == 0
    ensures Value(buf[IP_HEADER..PING_LENGTH]) == 0
    ensures buf[..] == WithChecksums(old(buf[..]))
    ensures forall i | 0 <= i < buf.Length && !InCheckField(i) :: buf[i] == old(buf[i])
  {
    var ip := CalculateChecksum(buf, 0, IP_HEADER);
    var icmp := CalculateChecksum(buf, IP_HEADER, PING_LENGTH - IP_HEADER);
    ghost var before := buf[..];
    StoreField(buf, IP_CHECK_AT, ip);
    StoreField(buf, ICMP_CHECK_AT, icmp);
    BothFieldsVerify(before, ip, icmp);
    assert buf[..IP_HEADER] == buf[..][..IP_HEADER];
    assert buf[IP_HEADER..PING_LENGTH] == buf[..][IP_HEADER..PING_LENGTH];
  }

  lemma PatchSlice(buf: seq<byte>, at: nat, v: nat, lo: nat, hi: nat)
    requires at + 2 <= |buf| && v < WORD && lo <= hi <= |buf|
    ensures lo <= at && at + 2 <= hi ==> Patch(buf, at, v)[lo..hi] == Patch(buf[lo..hi], at - lo, v)
    ensures hi <= at || at + 2 <= lo ==> Patch(buf, at, v)[lo..hi] == buf[lo..hi]
  {
  }

  lemma BothFieldsVerify(buf: seq<byte>, ip: nat, icmp: nat)
    requires |buf| >= PING_LENGTH
    requires buf[IP_CHECK_AT] == buf[IP_CHECK_AT + 1] == 0
    requires buf[ICMP_CHECK_AT] == buf[ICMP_CHECK_AT + 1] == 0
    requires ip == Value(buf[..IP_HEADER]) && icmp == Value(buf[IP_HEADER..PING_LENGTH])
    ensures var sent := Patch(Patch(buf, IP_CHECK_AT, ip), ICMP_CHECK_AT, icmp);
      Value(sent[..IP_HEADER]) == 0 && Value(sent[IP_HEADER..PING_LENGTH]) == 0
  {
    var half := Patch(buf, IP_CHECK_AT, ip);
    PatchSlice(buf, IP_CHECK_AT, ip, 0, IP_HEADER);
    PatchSlice(buf, IP_CHECK_AT, ip, IP_HEADER, PING_LENGTH);
    PatchSlice(half, ICMP_CHECK_AT, icmp, 0, IP_HEADER);
    PatchSlice(half, ICMP_CHECK_AT, icmp, IP_HEADER, PING_LENGTH);
    InsertThenVerify(buf[..IP_HEADER], IP_CHECK_AT);
    InsertThenVerify(buf[IP_HEADER..PING_LENGTH], ICMP_CHECK_AT - IP_HEADER);
  }

  // htons and the copy of the header back into the buffer.
  method StoreField(buf: array<byte>, at: nat, v: nat)
    requires at + 2 <= buf.Length && v < WORD
    modifies buf
    ensures buf[..] == Patch(old(buf[..]), at, v)
  {
    buf[at] := (v / 256) as byte;
    buf[at + 1] := (v % 256) as byte;
  }
}
