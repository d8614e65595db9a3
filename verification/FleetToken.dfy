/** The equality token of the fleet: a hash over a canonical byte stream of bot ids and revisions. */
module FleetToken {
  import opened Prelude
  import opened TextOrder

  newtype byte = n: int | 0 <= n < 256

  datatype Bot = Bot(id: string, version: u64)

  // ---- bytes ----

  /** One character in UTF-8. */
  function EncodeChar(c: char): (r: seq<byte>)
    ensures 1 <= |r| <= 4
  {
    var n := c as int;
    if n < 0x80 then [n as byte]
    else if n < 0x800 then [(0xC0 + n / 64) as byte, (0x80 + n % 64) as byte]
    else if n < 0x1_0000 then [(0xE0 + n / 4096) as byte, (0x80 + n / 64 % 64) as byte, (0x80 + n % 64) as byte]
    else [(0xF0 + n / 262144) as byte, (0x80 + n / 4096 % 64) as byte,
          (0x80 + n / 64 % 64) as byte, (0x80 + n % 64) as byte]
  }

  function Encode(s: string): seq<byte> {
    if s == "" then [] else EncodeChar(s[0]) + Encode(s[1..])
  }

  function Payload(b: byte): int {
    b as int - 0x80
  }

  /** The code point that starts a byte sequence, and its length; the first byte tells which form it is. */
  function FirstPoint(bytes: seq<byte>): (int, nat)
    requires bytes != []
  {
    var first := bytes[0] as int;
    if first < 0x80 || |bytes| < 2 then (first, 1)
    else if first < 0xE0 || |bytes| < 3 then ((first - 0xC0) * 64 + Payload(bytes[1]), 2)
    else if first < 0xF0 || |bytes| < 4 then ((first - 0xE0) * 4096 + Payload(bytes[1]) * 64 + Payload(bytes[2]), 3)
    else ((first - 0xF0) * 262144 + Payload(bytes[1]) * 4096 + Payload(bytes[2]) * 64 + Payload(bytes[3]), 4)
  }

  lemma CodePointParts(n: nat)
    ensures n == n / 4096 * 4096 + n / 64 % 64 * 64 + n % 64
    ensures n == n / 262144 * 262144 + n / 4096 % 64 * 4096 + n / 64 % 64 * 64 + n % 64
  {}

  lemma FirstPointOf(c: char, rest: seq<byte>)
    ensures FirstPoint(EncodeChar(c) + rest) == (c as int, |EncodeChar(c)|)
  {
    var n := c as int;
    var bytes := EncodeChar(c) + rest;
    assert forall i | 0 <= i < |EncodeChar(c)| :: bytes[i] == EncodeChar(c)[i];
    CodePointParts(n);
  }

  /** Different texts have different bytes. */
  lemma {:induction false} EncodeIsInjective(s: string, t: string)
    requires Encode(s) == Encode(t)
    ensures s == t
    decreases |s|
  {
    if s != "" && t != "" {
      var x, y := EncodeChar(s[0]), EncodeChar(t[0]);
      FirstPointOf(s[0], Encode(s[1..]));
      FirstPointOf(t[0], Encode(t[1..]));
      assert s[0] as int == t[0] as int && s[0] == t[0];
      assert (x + Encode(s[1..]))[|x|..] == Encode(s[1..]) && (y + Encode(t[1..]))[|y|..] == Encode(t[1..]);
      EncodeIsInjective(s[1..], t[1..]);
      assert s == [s[0]] + s[1..] && t == [t[0]] + t[1..];
    }
  }

  /** `to_le_bytes`, `k` bytes. */
  function LittleEndian(n: nat, k: nat): (r: seq<byte>)
    ensures |r| == k
  {
    if k == 0 then [] else [(n % 256) as byte] + LittleEndian(n / 256, k - 1)
  }

  function FromLittleEndian(bytes: seq<byte>): nat {
    if bytes == [] then 0 else bytes[0] as nat + 256 * FromLittleEndian(bytes[1..])
  }

  function Power(k: nat): nat {
    if k == 0 then 1 else 256 * Power(k - 1)
  }

  lemma {:induction false} LittleEndianRoundTrip(n: nat, k: nat)
    requires n < Power(k)
    ensures FromLittleEndian(LittleEndian(n, k)) == n
    decreases k
  {
    if k > 0 {
      assert LittleEndian(n, k)[1..] == LittleEndian(n / 256, k - 1);
      LittleEndianRoundTrip(n / 256, k - 1);
    }
  }

  lemma EightBytesHoldU64()
    ensures Power(8) == U64_MAX + 1
  {
    assert Power(4) == 0x1_0000_0000;
  }

  // ---- the stream ----

  /** One bot: the length of its id, its id and its revision. */
  function BotBytes(b: Bot): seq<byte> {
    LittleEndian(|Encode(b.id)|, 8) + Encode(b.id) + LittleEndian(b.version, 8)
  }

  function Stream(bots: seq<Bot>): seq<byte> {
    if bots == [] then [] else BotBytes(bots[0]) + Stream(bots[1..])
  }

  predicate HasShortIds(bots: seq<Bot>) {
    forall i | 0 <= i < |bots| :: |Encode(bots[i].id)| <= U64_MAX
  }

  lemma HeaderIsDetermined(b: Bot, rest: seq<byte>, c: Bot, more: seq<byte>)
    requires |Encode(b.id)| <= U64_MAX && |Encode(c.id)| <= U64_MAX
    requires BotBytes(b) + rest == BotBytes(c) + more
    ensures |Encode(b.id)| == |Encode(c.id)|
  {
    var left, right := BotBytes(b) + rest, BotBytes(c) + more;
    EightBytesHoldU64();
    assert left[..8] == LittleEndian(|Encode(b.id)|, 8) && right[..8] == LittleEndian(|Encode(c.id)|, 8);
    LittleEndianRoundTrip(|Encode(b.id)|, 8);
    LittleEndianRoundTrip(|Encode(c.id)|, 8);
  }

  lemma BodyIsDetermined(head: seq<byte>, id: seq<byte>, version: seq<byte>, rest: seq<byte>,
                         other: seq<byte>, code: seq<byte>, revision: seq<byte>, more: seq<byte>)
    requires |head| == |other| && |id| == |code| && |version| == |revision|
    requires head + id + version + rest == other + code + revision + more
    ensures id == code && version == revision && rest == more
  {
    var left, right := head + id + version + rest, other + code + revision + more;
    var m, n := |head| + |id|, |head| + |id| + |version|;
    assert left[|head|..m] == id && right[|head|..m] == code;
    assert left[m..n] == version && right[m..n] == revision;
    assert left[n..] == rest && right[n..] == more;
  }

  /** A bot's bytes end where its own length says they do. */
  lemma FirstBotIsDetermined(b: Bot, rest: seq<byte>, c: Bot, more: seq<byte>)
    requires |Encode(b.id)| <= U64_MAX && |Encode(c.id)| <= U64_MAX
    requires BotBytes(b) + rest == BotBytes(c) + more
    ensures b == c && rest == more
  {
    HeaderIsDetermined(b, rest, c, more);
    BodyIsDetermined(LittleEndian(|Encode(b.id)|, 8), Encode(b.id), LittleEndian(b.version, 8), rest,
                     LittleEndian(|Encode(c.id)|, 8), Encode(c.id), LittleEndian(c.version, 8), more);
    EncodeIsInjective(b.id, c.id);
    EightBytesHoldU64();
    LittleEndianRoundTrip(b.version, 8);
    LittleEndianRoundTrip(c.version, 8);
  }

  /** The byte stream is uniquely decodable. */
  lemma {:induction false} StreamIsInjective(bots: seq<Bot>, others: seq<Bot>)
    requires HasShortIds(bots) && HasShortIds(others)
    requires Stream(bots) == Stream(others)
    ensures bots == others
    decreases |bots|
  {
    if bots != [] && others != [] {
      FirstBotIsDetermined(bots[0], Stream(bots[1..]), others[0], Stream(others[1..]));
      StreamIsInjective(bots[1..], others[1..]);
      assert bots == [bots[0]] + bots[1..] && others == [others[0]] + others[1..];
    }
  }

  // ---- the hash ----

  /** Bitwise exclusive or. */
  function Xor(a: nat, b: nat): nat {
    if a == 0 then b else if b == 0 then a
    else (if a % 2 != b % 2 then 1 else 0) + 2 * Xor(a / 2, b / 2)
  }

  const OFFSET_BASIS: nat := 0xcbf2_9ce4_8422_2325
  const PRIME: nat := 0x100_0000_01b3

  function Mix(hash: nat, b: byte): nat {
    Xor(hash, b as nat) * PRIME % (U64_MAX + 1)
  }

  function Fnv(bytes: seq<byte>, hash: nat): nat {
    if bytes == [] then hash else Mix(Fnv(bytes[..|bytes| - 1], hash), bytes[|bytes| - 1])
  }

  lemma FnvContinues(bytes: seq<byte>, more: seq<byte>, hash: nat)
    ensures Fnv(bytes + more, hash) == Fnv(more, Fnv(bytes, hash))
    decreases |more|
  {
    if more == [] {
      assert bytes + more == bytes;
    } else {
      assert (bytes + more)[..|bytes + more| - 1] == bytes + more[..|more| - 1];
      FnvContinues(bytes, more[..|more| - 1], hash);
    }
  }

  // ---- what the hash cannot confuse ----

  function Bit(n: nat, k: nat): nat {
    if k == 0 then n % 2 else Bit(n / 2, k - 1)
  }

  lemma {:induction false} ZeroHasNoBits(k: nat)
    ensures Bit(0, k) == 0
    decreases k
  {
    if k > 0 { ZeroHasNoBits(k - 1); }
  }

  /** Exclusive or, bit by bit. */
  lemma {:induction false} XorIsBitwise(a: nat, b: nat, k: nat)
    ensures Bit(Xor(a, b), k) == (if Bit(a, k) == Bit(b, k) then 0 else 1)
    decreases k
  {
    ZeroHasNoBits(k);
    if k > 0 && a != 0 && b != 0 { XorIsBitwise(a / 2, b / 2, k - 1); }
    BitIsBinary(a, k);
    BitIsBinary(b, k);
  }

  lemma {:induction false} BitIsBinary(n: nat, k: nat)
    ensures Bit(n, k) <= 1
    decreases k
  {
    if k > 0 { BitIsBinary(n / 2, k - 1); }
  }

  lemma {:induction false} XorUndoes(a: nat, b: nat)
    ensures Xor(Xor(a, b), b) == a
    decreases a + b
  {
    if a != 0 && b != 0 {
      XorUndoes(a / 2, b / 2);
      var x := (if a % 2 != b % 2 then 1 else 0) + 2 * Xor(a / 2, b / 2);
      assert x / 2 == Xor(a / 2, b / 2) && (x % 2 != b % 2 <==> a % 2 == 1);
    } else if a == 0 {
      XorOfSame(b);
    }
  }

  lemma {:induction false} XorOfSame(b: nat)
    ensures Xor(b, b) == 0
    decreases b
  {
    if b != 0 { XorOfSame(b / 2); }
  }

  lemma {:induction false} XorCommutes(a: nat, b: nat)
    ensures Xor(a, b) == Xor(b, a)
    decreases a
  {
    if a != 0 && b != 0 { XorCommutes(a / 2, b / 2); }
  }

  function Two(k: nat): nat {
    if k == 0 then 1 else 2 * Two(k - 1)
  }

  lemma {:induction false} XorStaysBelow(a: nat, b: nat, k: nat)
    requires a < Two(k) && b < Two(k)
    ensures Xor(a, b) < Two(k)
    decreases k
  {
    if k > 0 && a != 0 && b != 0 { XorStaysBelow(a / 2, b / 2, k - 1); }
  }

  lemma EightMoreBits(n: nat)
    ensures Two(n + 8) == 256 * Two(n)
  {
    assert Two(n + 2) == 4 * Two(n) && Two(n + 4) == 4 * Two(n + 2);
    assert Two(n + 6) == 4 * Two(n + 4) && Two(n + 8) == 4 * Two(n + 6);
  }

  lemma {:induction false} BytesAreBits(k: nat)
    ensures Two(8 * k) == Power(k)
    decreases k
  {
    if k > 0 {
      BytesAreBits(k - 1);
      EightMoreBits(8 * (k - 1));
    }
  }

  lemma SixtyFourBits()
    ensures Two(64) == U64_MAX + 1
  {
    BytesAreBits(8);
    EightBytesHoldU64();
  }

  /** The inverse of the prime modulo 2^64. */
  const INVERSE: nat := 0xce96_5057_aff6_957b

  lemma Cancels(x: nat, p: nat, inverse: nat, m: nat, k: nat)
    requires x < m && p * inverse == 1 + k * m
    ensures x * p % m * inverse % m == x
  {
    var q, r := x * p / m, x * p % m;
    assert x * p == q * m + r;
    assert r * inverse == x * (p * inverse) - q * m * inverse;
    assert x * (p * inverse) == x + x * k * m;
    var d := x * k - q * inverse;
    assert r * inverse == x + d * m;
    Remainder(r * inverse, x, d, m);
  }

  lemma Remainder(n: nat, x: nat, d: int, m: nat)
    requires x < m && n == x + d * m
    ensures n % m == x
  {
    DivisionIsUnique(n / m, n % m, d, x, m);
  }

  lemma DivisionIsUnique(q: int, r: nat, d: int, x: nat, m: nat)
    requires r < m && x < m && q * m + r == d * m + x
    ensures r == x
  {
    assert (q - d) * m == x - r;
    if q > d {
      AtLeastOnce(q - d, m);
    } else if q < d {
      AtLeastOnce(d - q, m);
    }
  }

  lemma AtLeastOnce(k: nat, m: nat)
    requires k > 0
    ensures k * m >= m
  {
    assert k * m == (k - 1) * m + m;
  }

  /** Mixing a byte into a 64-bit hash can be undone. */
  lemma MixUndone(hash: u64, b: byte)
    ensures Xor(Mix(hash, b) * INVERSE % (U64_MAX + 1), b as nat) == hash
  {
    SixtyFourBits();
    XorStaysBelow(hash, b as nat, 64);
    Cancels(Xor(hash, b as nat), PRIME, INVERSE, U64_MAX + 1, PRIME * INVERSE / (U64_MAX + 1));
    XorUndoes(hash, b as nat);
  }

  /** Different hashes stay different, and different bytes make the same hash different. */
  lemma MixIsInjective(hash: u64, other: u64, b: byte, c: byte)
    ensures Mix(hash, b) == Mix(other, b) ==> hash == other
    ensures Mix(hash, b) == Mix(hash, c) ==> b == c
  {
    MixUndone(hash, b);
    MixUndone(other, b);
    MixUndone(hash, c);
    if Mix(hash, b) == Mix(hash, c) {
      SixtyFourBits();
      var x := Mix(hash, b) * INVERSE % (U64_MAX + 1);
      XorCommutes(x, b as nat);
      XorCommutes(x, c as nat);
      XorCancels(x, b as nat, c as nat);
    }
  }

  lemma XorCancels(x: nat, b: nat, c: nat)
    requires Xor(x, b) == Xor(x, c)
    ensures b == c
  {
    XorCommutes(x, b);
    XorCommutes(x, c);
    XorUndoes(b, x);
    XorUndoes(c, x);
  }

  lemma {:induction false} FnvStays64(bytes: seq<byte>, hash: u64)
    ensures Fnv(bytes, hash) <= U64_MAX
    decreases |bytes|
  {}

  /** The same bytes keep different hashes apart. */
  lemma {:induction false} FnvKeepsApart(bytes: seq<byte>, hash: u64, other: u64)
    requires hash != other
    ensures Fnv(bytes, hash) != Fnv(bytes, other)
    decreases |bytes|
  {
    if bytes != [] {
      var init, last := bytes[..|bytes| - 1], bytes[|bytes| - 1];
      FnvKeepsApart(init, hash, other);
      FnvStays64(init, hash);
      FnvStays64(init, other);
      MixIsInjective(Fnv(init, hash), Fnv(init, other), last, last);
    }
  }

  /** Streams of one length that differ in a single byte have different hashes. */
  lemma OneByteTells(before: seq<byte>, b: byte, c: byte, after: seq<byte>, hash: u64)
    requires b != c
    ensures Fnv(before + [b] + after, hash) != Fnv(before + [c] + after, hash)
  {
    var h := Fnv(before, hash);
    FnvStays64(before, hash);
    FnvContinues(before + [b], after, hash);
    FnvContinues(before + [c], after, hash);
    assert (before + [b])[..|before|] == before && (before + [c])[..|before|] == before;
    MixIsInjective(h, h, b, c);
    FnvKeepsApart(after, Mix(h, b), Mix(h, c));
  }

  lemma BasisXorLetter()
    ensures Xor(0xcbf2_9ce4_8422_2325, 0x61) == 0xcbf2_9ce4_8422_2344
  {
    assert Xor(0x32f_ca73_9210_888c, 1) == 0x32f_ca73_9210_888d;
    assert Xor(0x65f_94e7_2421_1119, 3) == 0x65f_94e7_2421_111a;
    assert Xor(0xcbf_29ce_4842_2232, 6) == 0xcbf_29ce_4842_2234;
    assert Xor(0x197e_539c_9084_4464, 12) == 0x197e_539c_9084_4468;
    assert Xor(0x32fc_a739_2108_88c9, 24) == 0x32fc_a739_2108_88d1;
    assert Xor(0x65f9_4e72_4211_1192, 48) == 0x65f9_4e72_4211_11a2;
  }

  lemma OneByteHash(b: byte, hash: nat, x: nat)
    requires Xor(hash, b as nat) == x
    ensures Fnv([b], hash) == x * PRIME % (U64_MAX + 1)
  {
    assert [b][..0] == [];
  }

  lemma LetterTimesPrime(x: nat)
    requires x == 0xcbf2_9ce4_8422_2344
    ensures x * PRIME % (U64_MAX + 1) == 0xaf63_dc4c_8601_ec8c
  {}

  /** The published value of 64-bit FNV-1a for the letter "a". */
  lemma KnownHash(text: seq<byte>, basis: nat, letter: byte)
    requires text == [letter] && letter == 0x61 && basis == OFFSET_BASIS
    ensures Fnv(text, basis) == 0xaf63_dc4c_8601_ec8c
  {
    var x := Xor(basis, letter as nat);
    BasisXorLetter();
    OneByteHash(letter, basis, x);
    LetterTimesPrime(x);
  }

  /** The two streams differ at `k` and nowhere else. */
  predicate DifferAt(a: seq<byte>, b: seq<byte>, k: nat) {
    k < |a| == |b| && a[k] != b[k] && a[..k] == b[..k] && a[k + 1..] == b[k + 1..]
  }

  lemma DifferWithin(before: seq<byte>, a: seq<byte>, b: seq<byte>, after: seq<byte>, k: nat)
    requires DifferAt(a, b, k)
    ensures DifferAt(before + a + after, before + b + after, |before| + k)
  {
    assert (before + a + after)[..|before| + k] == before + a[..k];
    assert (before + b + after)[..|before| + k] == before + b[..k];
    assert (before + a + after)[|before| + k + 1..] == a[k + 1..] + after;
    assert (before + b + after)[|before| + k + 1..] == b[k + 1..] + after;
  }

  lemma HashTellsOneByte(a: seq<byte>, b: seq<byte>, k: nat, hash: u64)
    requires DifferAt(a, b, k)
    ensures Fnv(a, hash) != Fnv(b, hash)
  {
    OneByteTells(a[..k], a[k], b[k], a[k + 1..], hash);
    assert a == a[..k] + [a[k]] + a[k + 1..] && b == a[..k] + [b[k]] + a[k + 1..];
  }

  // ---- the token ----

  predicate HasDistinctIds(bots: seq<Bot>) {
    forall i, j | 0 <= i < j < |bots| :: bots[i].id != bots[j].id
  }

  function Revisions(bots: seq<Bot>): map<string, u64>
    requires HasDistinctIds(bots)
  {
    map b | b in bots :: b.id := b.version
  }

  /** The bots in ascending order of id: what sorting leaves when no id repeats. */
  function InOrder(revisions: map<string, u64>): (r: seq<Bot>)
    ensures |r| == |revisions|
    ensures forall i | 0 <= i < |r| :: r[i].id in revisions && r[i].version == revisions[r[i].id]
  {
    var ids := Ascending(revisions.Keys);
    seq(|ids|, i requires 0 <= i < |ids| => assert ids[i] in revisions.Keys; Bot(ids[i], revisions[ids[i]]))
  }

  function Token(revisions: map<string, u64>): nat {
    Fnv(Stream(InOrder(revisions)), OFFSET_BASIS)
  }

  lemma StreamOfPrefix(bots: seq<Bot>, i: nat)
    requires i < |bots|
    ensures Stream(bots[..i + 1]) == Stream(bots[..i]) + BotBytes(bots[i])
    decreases i
  {
    if i == 0 {
      assert bots[..1] == [bots[0]] && bots[..0] == [];
      assert bots[..1][1..] == [];
    } else {
      StreamOfPrefix(bots[1..], i - 1);
      assert bots[..i + 1][1..] == bots[1..][..i] && bots[..i][1..] == bots[1..][..i - 1];
      assert bots[1..][i - 1] == bots[i];
    }
  }

  method HashBytes(bytes: seq<byte>, start: nat) returns (hash: nat)
    ensures hash == Fnv(bytes, start)
  {
    hash := start;
    for i := 0 to |bytes|
      invariant hash == Fnv(bytes[..i], start)
    {
      assert bytes[..i + 1][..i] == bytes[..i];
      hash := Mix(hash, bytes[i]);
    }
    assert bytes[..|bytes|] == bytes;
  }

  /** The bots come from a map, so no id repeats, but in no particular order. */
  method FleetVersionFor(bots: seq<Bot>) returns (hash: nat)
    requires HasDistinctIds(bots)
    ensures hash == Token(Revisions(bots))
  {
    var sorted := InOrder(Revisions(bots));
    hash := OFFSET_BASIS;
    for i := 0 to |sorted|
      invariant hash == Fnv(Stream(sorted[..i]), OFFSET_BASIS)
    {
      StreamOfPrefix(sorted, i);
      FnvContinues(Stream(sorted[..i]), BotBytes(sorted[i]), OFFSET_BASIS);
      hash := HashBytes(BotBytes(sorted[i]), hash);
    }
    assert sorted[..|sorted|] == sorted;
  }

  /** The order in which the bots are supplied does not matter. */
  lemma TokenIgnoresOrder(bots: seq<Bot>, shuffled: seq<Bot>)
    requires HasDistinctIds(bots) && HasDistinctIds(shuffled) && multiset(bots) == multiset(shuffled)
    ensures Token(Revisions(bots)) == Token(Revisions(shuffled))
  {
    assert forall b :: b in bots <==> b in multiset(bots);
    assert forall b :: b in shuffled <==> b in multiset(shuffled);
    assert Revisions(bots) == Revisions(shuffled);
  }

  lemma OrderedBotsDetermineFleet(a: map<string, u64>, b: map<string, u64>)
    requires InOrder(a) == InOrder(b)
    ensures a == b
  {
    var x, y := Ascending(a.Keys), Ascending(b.Keys);
    assert |x| == |InOrder(a)| && |y| == |InOrder(b)|;
    forall i | 0 <= i < |x| ensures x[i] == y[i] {
      assert InOrder(a)[i].id == x[i] && InOrder(b)[i].id == y[i];
    }
    assert x == y;
    assert a.Keys == b.Keys;
    forall id | id in a ensures a[id] == b[id] {
      assert id in x;
      var i :| 0 <= i < |x| && x[i] == id;
      assert InOrder(a)[i].version == a[id] && InOrder(b)[i].version == b[id];
    }
  }

  /** Two fleets that differ share a token only when the hash sends two different byte streams to one value. */
  lemma TokenCollidesOnlyInTheHash(a: map<string, u64>, b: map<string, u64>)
    requires HasShortIds(InOrder(a)) && HasShortIds(InOrder(b))
    requires a != b && Token(a) == Token(b)
    ensures Stream(InOrder(a)) != Stream(InOrder(b))
    ensures Fnv(Stream(InOrder(a)), OFFSET_BASIS) == Fnv(Stream(InOrder(b)), OFFSET_BASIS)
  {
    if Stream(InOrder(a)) == Stream(InOrder(b)) {
      StreamIsInjective(InOrder(a), InOrder(b));
      OrderedBotsDetermineFleet(a, b);
    }
  }

  // ---- changes the token cannot miss ----

  lemma {:induction false} StreamConcat(a: seq<Bot>, b: seq<Bot>)
    ensures Stream(a + b) == Stream(a) + Stream(b)
    decreases |a|
  {
    if a == [] {
      assert a + b == b;
    } else {
      assert (a + b)[1..] == a[1..] + b;
      StreamConcat(a[1..], b);
    }
  }

  lemma BotBytesDiffer(id: string, v: u64, w: u64, k: nat)
    requires DifferAt(LittleEndian(v, 8), LittleEndian(w, 8), k)
    ensures DifferAt(BotBytes(Bot(id, v)), BotBytes(Bot(id, w)), 8 + |Encode(id)| + k)
  {
    var head := LittleEndian(|Encode(id)|, 8) + Encode(id);
    DifferWithin(head, LittleEndian(v, 8), LittleEndian(w, 8), [], k);
    assert head + LittleEndian(v, 8) + [] == BotBytes(Bot(id, v));
    assert head + LittleEndian(w, 8) + [] == BotBytes(Bot(id, w));
  }

  lemma StreamAround(before: seq<Bot>, b: Bot, after: seq<Bot>)
    ensures Stream(before + [b] + after) == Stream(before) + BotBytes(b) + Stream(after)
  {
    StreamConcat(before + [b], after);
    StreamConcat(before, [b]);
    assert Stream([b]) == BotBytes(b) + Stream([b][1..]);
    assert BotBytes(b) + [] == BotBytes(b);
  }

  lemma StreamsDiffer(before: seq<Bot>, b: Bot, c: Bot, after: seq<Bot>, k: nat)
    requires DifferAt(BotBytes(b), BotBytes(c), k)
    ensures DifferAt(Stream(before + [b] + after), Stream(before + [c] + after), |Stream(before)| + k)
  {
    StreamAround(before, b, after);
    StreamAround(before, c, after);
    DifferWithin(Stream(before), BotBytes(b), BotBytes(c), Stream(after), k);
  }

  lemma RevisedInPlace(revisions: map<string, u64>, id: string, revision: u64) returns (i: nat)
    requires id in revisions
    ensures i < |InOrder(revisions)| && InOrder(revisions)[i] == Bot(id, revisions[id])
    ensures InOrder(revisions[id := revision]) == InOrder(revisions)[i := Bot(id, revision)]
  {
    var ids := Ascending(revisions.Keys);
    assert revisions[id := revision].Keys == revisions.Keys;
    AscendingIsOrdered(revisions.Keys);
    AscendingListsAll(revisions.Keys);
    assert id in ids;
    i :| 0 <= i < |ids| && ids[i] == id;
    var was, now := InOrder(revisions), InOrder(revisions[id := revision]);
    forall j | 0 <= j < |ids| ensures now[j] == was[i := Bot(id, revision)][j] {
      if j != i { AscendingIsDistinct(revisions.Keys, i, j); }
    }
  }

  lemma OneBotDiffers(before: seq<Bot>, b: Bot, c: Bot, after: seq<Bot>, k: nat)
    requires DifferAt(BotBytes(b), BotBytes(c), k)
    ensures Fnv(Stream(before + [b] + after), OFFSET_BASIS) != Fnv(Stream(before + [c] + after), OFFSET_BASIS)
  {
    StreamsDiffer(before, b, c, after, k);
    HashTellsOneByte(Stream(before + [b] + after), Stream(before + [c] + after), |Stream(before)| + k, OFFSET_BASIS);
  }

  lemma OneBotTells(bots: seq<Bot>, i: nat, revision: u64, k: nat)
    requires i < |bots| && DifferAt(LittleEndian(bots[i].version, 8), LittleEndian(revision, 8), k)
    ensures Fnv(Stream(bots), OFFSET_BASIS) != Fnv(Stream(bots[i := Bot(bots[i].id, revision)]), OFFSET_BASIS)
  {
    var b, c := bots[i], Bot(bots[i].id, revision);
    BotBytesDiffer(b.id, b.version, revision, k);
    assert bots == bots[..i] + [b] + bots[i + 1..];
    assert bots[i := c] == bots[..i] + [c] + bots[i + 1..];
    OneBotDiffers(bots[..i], b, c, bots[i + 1..], 8 + |Encode(b.id)| + k);
  }

  /** Revising one bot so that a single byte of its revision changes always changes the token. */
  lemma TokenSeesOneByte(revisions: map<string, u64>, id: string, revision: u64, k: nat)
    requires id in revisions && DifferAt(LittleEndian(revisions[id], 8), LittleEndian(revision, 8), k)
    ensures Token(revisions[id := revision]) != Token(revisions)
  {
    var i := RevisedInPlace(revisions, id, revision);
    OneBotTells(InOrder(revisions), i, revision, k);
  }

  /** The next revision of a bot always changes the token, unless it carries into the second byte. */
  lemma TokenSeesNextRevision(revisions: map<string, u64>, id: string)
    requires id in revisions && revisions[id] % 256 != 255
    ensures Token(revisions[id := revisions[id] + 1]) != Token(revisions)
  {
    var n := revisions[id];
    assert (n + 1) / 256 == n / 256 && (n + 1) % 256 == n % 256 + 1;
    TokenSeesOneByte(revisions, id, n + 1, 0);
  }
}
