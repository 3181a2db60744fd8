/** ULIDs: 48 bits of millisecond time and 80 bits of entropy as 26 Crockford base-32 symbols. */
module Ulid {
  import opened Wire
  import opened Text

  const ALPHABET: string := "0123456789ABCDEFGHJKMNPQRSTVWXYZ"
  const TWO_TO_48: int := 0x1_0000_0000_0000
  const TWO_TO_59: int := 0x0800_0000_0000_0000
  const TWO_TO_128: int := TWO_TO_64 * TWO_TO_64
  const LENGTH: nat := 26

  // --- bits of unsigned words ----------------------------------------------

  /** Bitwise or. */
  function BitOr(a: nat, b: nat): nat
    decreases a + b
  {
    if a == 0 then b
    else if b == 0 then a
    else 2 * BitOr(a / 2, b / 2) + if a % 2 == 1 || b % 2 == 1 then 1 else 0
  }

  function Pow2(k: nat): (r: nat)
    ensures r > 0
  {
    if k == 0 then 1 else 2 * Pow2(k - 1)
  }

  function Shr(x: nat, k: nat): nat
    decreases k
  {
    if k == 0 then x else Shr(x / 2, k - 1)
  }

  /** Left shift of a 64-bit word. */
  function Shl64(x: nat, k: nat): nat
  {
    (x * Pow2(k)) % TWO_TO_64
  }

  /** Or of words that share no bit is addition. */
  lemma {:induction false} OrIsSum(a: nat, m: nat, k: nat)
    requires a < Pow2(k)
    ensures BitOr(a, m * Pow2(k)) == a + m * Pow2(k)
    decreases k
  {
    if k > 0 && a > 0 && m > 0 {
      var half := Pow2(k - 1);
      assert m * Pow2(k) == 2 * (m * half);
      assert (m * Pow2(k)) / 2 == m * half && (m * Pow2(k)) % 2 == 0;
      OrIsSum(a / 2, m, k - 1);
    } else if k > 0 && a == 0 {
    } else {
      assert a == 0 || m == 0 || k == 0;
    }
  }

  // --- what a ULID denotes --------------------------------------------------

  /** v without its k least significant base-32 digits. */
  function Drop(v: nat, k: nat): nat
  {
    if k == 0 then v else Drop(v, k - 1) / 32
  }

  function SymbolAt(v: nat, i: nat): char
    requires i < LENGTH
  {
    ALPHABET[Drop(v, LENGTH - 1 - i) % 32]
  }

  function Encoding(v: nat): (s: string)
    ensures |s| == LENGTH
  {
    seq(LENGTH, i requires 0 <= i < LENGTH => SymbolAt(v, i))
  }

  lemma {:induction false} SplitAt(b: Bytes, n: nat)
    requires n <= |b|
    ensures BigEndian(b) == BigEndian(b[..n]) * Pow256(|b| - n) + BigEndian(b[n..])
  {
    if n == |b| {
      assert b[..n] == b;
    } else {
      var c := b[..|b| - 1];
      SplitAt(c, n);
      Peel(b, n);
      Regroup(BigEndian(b[..n]), Pow256(|c| - n), BigEndian(c[n..]), b[|b| - 1]);
    }
  }

  lemma Regroup(x: int, p: int, y: int, d: int)
    ensures (x * p + y) * 256 + d == x * (256 * p) + (y * 256 + d)
  {
  }

  /** One turn of the loop: the low five bits come out, and the two words shift right as one. */
  lemma ShiftPair(hi: nat, lo: nat)
    requires hi < TWO_TO_64 && lo < TWO_TO_64
    ensures lo % 32 == (hi * TWO_TO_64 + lo) % 32
    ensures Shr(hi, 5) < TWO_TO_64
    ensures BitOr(Shr(lo, 5), Shl64(hi, 59)) < TWO_TO_64
    ensures Shr(hi, 5) * TWO_TO_64 + BitOr(Shr(lo, 5), Shl64(hi, 59)) == (hi * TWO_TO_64 + lo) / 32
  {
    hide Pow2, Shr, BitOr;
    Pow2Of59();
    ShiftFive(hi);
    ShiftFive(lo);
    HighBits(hi);
    OrIsSum(lo / 32, hi % 32, 59);
    ShiftWords(hi, lo);
  }

  lemma ShiftWords(hi: nat, lo: nat)
    requires hi < TWO_TO_64 && lo < TWO_TO_64
    ensures lo % 32 == (hi * TWO_TO_64 + lo) % 32
    ensures lo / 32 + (hi % 32) * TWO_TO_59 < TWO_TO_64
    ensures (hi / 32) * TWO_TO_64 + (lo / 32 + (hi % 32) * TWO_TO_59) == (hi * TWO_TO_64 + lo) / 32
  {
    var a, b, c, d := hi / 32, hi % 32, lo / 32, lo % 32;
    Quotient(hi * TWO_TO_64 + lo, a * TWO_TO_64 + b * TWO_TO_59 + c, d);
  }

  lemma Quotient(x: nat, q: nat, r: nat)
    requires x == 32 * q + r && r < 32
    ensures x / 32 == q && x % 32 == r
  {
  }

  lemma ShiftFive(x: nat)
    ensures Shr(x, 5) == x / 32
  {
    assert Shr(x, 5) == x / 2 / 2 / 2 / 2 / 2;
  }

  lemma HighBits(hi: nat)
    requires hi < TWO_TO_64
    ensures (hi * TWO_TO_59) % TWO_TO_64 == (hi % 32) * TWO_TO_59
  {
    assert hi * TWO_TO_59 == (hi / 32) * TWO_TO_64 + (hi % 32) * TWO_TO_59;
  }

  lemma {:induction false} Pow2Add(j: nat, k: nat)
    ensures Pow2(j + k) == Pow2(j) * Pow2(k)
  {
    if j > 0 {
      Pow2Add(j - 1, k);
    }
  }

  lemma Pow2Double(k: nat, p: nat)
    requires Pow2(k) == p
    ensures Pow2(2 * k + 1) == 2 * p * p
  {
    Pow2Add(k, k);
  }

  lemma Pow2Of59()
    ensures Pow2(59) == TWO_TO_59
  {
    assert Pow2(14) == 0x4000;
    Pow2Double(14, 0x4000);
    Pow2Double(29, 0x2000_0000);
  }

  lemma TwoWords(b: Bytes)
    requires |b| == 16
    ensures BigEndian(b[..8]) < TWO_TO_64 && BigEndian(b[8..]) < TWO_TO_64
    ensures BigEndian(b) == BigEndian(b[..8]) * TWO_TO_64 + BigEndian(b[8..])
  {
    hide BigEndian;
    BigEndianBound(b[..8]);
    BigEndianBound(b[8..]);
    SplitAt(b, 8);
    assert Pow256(8) == TWO_TO_64;
  }

  lemma DropStep(v: nat, k: nat)
    ensures Drop(v, 0) == v
    ensures Drop(v, k + 1) == Drop(v, k) / 32
    ensures k < LENGTH ==> SymbolAt(v, LENGTH - 1 - k) == ALPHABET[Drop(v, k) % 32]
  {
  }

  /** The two words hold what is left of v without its k least significant digits. */
  ghost predicate Words(v: nat, k: nat, hi: nat, lo: nat)
  {
    hi < TWO_TO_64 && lo < TWO_TO_64 && hi * TWO_TO_64 + lo == Drop(v, k)
  }

  lemma FirstWords(b: Bytes)
    requires |b| == 16
    ensures Words(BigEndian(b), 0, BigEndian(b[..8]), BigEndian(b[8..]))
  {
    hide BigEndian;
    TwoWords(b);
  }

  lemma Turn(v: nat, hi: nat, lo: nat, k: nat)
    requires k < LENGTH && Words(v, k, hi, lo)
    ensures Words(v, k + 1, Shr(hi, 5), BitOr(Shr(lo, 5), Shl64(hi, 59)))
    ensures SymbolAt(v, LENGTH - 1 - k) == ALPHABET[lo % 32]
  {
    hide Shr, Shl64, BitOr, SymbolAt, Drop;
    ShiftPair(hi, lo);
    DropStep(v, k);
  }

  method Put(out: array<char>, i: nat, c: char)
    requires i < out.Length
    modifies out
    ensures out[i..] == [c] + old(out[i + 1..])
  {
    out[i] := c;
  }

  /** Renders the 128 bits of b, five at a time from the least significant end. */
  method EncodeCrockford(b: Bytes) returns (s: string)
    requires |b| == 16
    ensures s == Encoding(BigEndian(b))
  {
    var out := new char[LENGTH](_ => '0');
    hide BigEndian, Shr, Shl64, BitOr, SymbolAt, Words, Encoding;
    var hi: nat, lo: nat := BigEndian(b[..8]), BigEndian(b[8..]);
    ghost var v := BigEndian(b);
    FirstWords(b);
    var i: nat := LENGTH;
    while i > 0
      invariant i <= LENGTH == out.Length && Words(v, LENGTH - i, hi, lo)
      invariant out[i..] == Encoding(v)[i..]
    {
      i := i - 1;
      Turn(v, hi, lo, LENGTH - 1 - i);
      EncodingFrom(v, i);
      Put(out, i, ALPHABET[lo % 32]);
      lo, hi := BitOr(Shr(lo, 5), Shl64(hi, 59)), Shr(hi, 5);
    }
    s := out[..];
    assert out[0..] == s && Encoding(v)[0..] == Encoding(v);
  }

  lemma EncodingFrom(v: nat, i: nat)
    requires i < LENGTH
    ensures Encoding(v)[i..] == [SymbolAt(v, i)] + Encoding(v)[i + 1..]
  {
    hide SymbolAt;
  }

  // --- the encoding keeps everything -----------------------------------------

  function Pow32(k: nat): (r: nat)
    ensures r > 0
  {
    if k == 0 then 1 else 32 * Pow32(k - 1)
  }

  /** The value of a symbol; 32 for a character outside the alphabet. */
  function ValueOf(c: char): (d: nat)
    ensures d <= 32
    ensures d < 32 ==> ALPHABET[d] == c
  {
    IndexFrom(c, 0)
  }

  function IndexFrom(c: char, k: nat): (d: nat)
    requires k <= 32
    ensures k <= d <= 32
    ensures d < 32 ==> ALPHABET[d] == c
    ensures d == 32 ==> forall j :: k <= j < 32 ==> ALPHABET[j] != c
    decreases 32 - k
  {
    if k == 32 || ALPHABET[k] == c then k else IndexFrom(c, k + 1)
  }

  /** The symbols of s read as digits in base 32. */
  function Decode(s: string): nat
  {
    if s == "" then 0 else Decode(s[..|s| - 1]) * 32 + ValueOf(s[|s| - 1])
  }

  /** The alphabet is in character order. */
  lemma AlphabetOrdered(i: nat, j: nat)
    requires i < 32 && j < 32
    ensures i < j <==> ALPHABET[i] < ALPHABET[j]
  {
    SymbolIs(i);
    SymbolIs(j);
  }

  lemma ValueOfSymbol(d: nat)
    requires d < 32
    ensures ValueOf(ALPHABET[d]) == d
  {
    var e := ValueOf(ALPHABET[d]);
    if e < 32 {
      AlphabetOrdered(d, e);
      AlphabetOrdered(e, d);
    }
  }

  lemma DecodeSnoc(s: string, n: nat)
    requires n < |s|
    ensures Decode(s[..n + 1]) == Decode(s[..n]) * 32 + ValueOf(s[n])
  {
    hide ValueOf;
    assert s[..n + 1][..n] == s[..n];
  }

  lemma SymbolIn(v: nat, n: nat)
    requires n < LENGTH
    ensures ValueOf(Encoding(v)[n]) == Drop(v, LENGTH - 1 - n) % 32
    ensures Drop(v, LENGTH - n) == Drop(v, LENGTH - 1 - n) / 32
  {
    hide ValueOf;
    ValueOfSymbol(Drop(v, LENGTH - 1 - n) % 32);
  }

  lemma {:induction false} DecodePrefix(v: nat, n: nat)
    requires n <= LENGTH && Drop(v, LENGTH) == 0
    ensures Decode(Encoding(v)[..n]) == Drop(v, LENGTH - n)
  {
    hide ValueOf, Encoding, Drop;
    if n == 0 {
      assert Decode(Encoding(v)[..0]) == 0;
    } else {
      hide Decode;
      DecodePrefix(v, n - 1);
      DecodeSnoc(Encoding(v), n - 1);
      SymbolIn(v, n - 1);
    }
  }

  lemma {:induction false} DropBound(v: nat, k: nat, n: nat)
    requires v < Pow32(k) && n <= k
    ensures Drop(v, n) < Pow32(k - n)
  {
    if n > 0 {
      DropBound(v, k, n - 1);
      assert Pow32(k - n + 1) == 32 * Pow32(k - n);
    }
  }

  lemma {:induction false} Pow32Add(j: nat, k: nat)
    ensures Pow32(j + k) == Pow32(j) * Pow32(k)
  {
    if j > 0 {
      Pow32Add(j - 1, k);
    }
  }

  lemma Pow32Of26()
    ensures Pow32(LENGTH) == 4 * TWO_TO_128
  {
    assert Pow32(13) == 2 * TWO_TO_64;
    Pow32Add(13, 13);
  }

  /** 128 bits fit 26 symbols. */
  lemma DropAll(v: nat)
    requires v < TWO_TO_128
    ensures Drop(v, LENGTH) == 0
  {
    Pow32Of26();
    DropBound(v, LENGTH, LENGTH);
  }

  lemma Pow256Of16()
    ensures Pow256(16) == TWO_TO_128
  {
    assert Pow256(8) == TWO_TO_64;
    Pow256Add(8, 8);
  }

  /** Reading the symbols back gives the 128-bit value, so different values have different encodings. */
  lemma DecodeEncoding(b: Bytes)
    requires |b| == 16
    ensures BigEndian(b) < TWO_TO_128
    ensures Decode(Encoding(BigEndian(b))) == BigEndian(b)
  {
    hide BigEndian, Decode, Encoding;
    BigEndianBound(b);
    Pow256Of16();
    DropAll(BigEndian(b));
    DecodePrefix(BigEndian(b), LENGTH);
    assert Encoding(BigEndian(b))[..LENGTH] == Encoding(BigEndian(b));
  }

  predicate OctetsBefore(a: Bytes, b: Bytes)
  {
    if a == [] then b != []
    else b != [] && (a[0] < b[0] || (a[0] == b[0] && OctetsBefore(a[1..], b[1..])))
  }

  lemma {:induction false} Pow256Add(j: nat, k: nat)
    ensures Pow256(j + k) == Pow256(j) * Pow256(k)
  {
    if j > 0 {
      Pow256Add(j - 1, k);
    }
  }

  /** The leading digit decides; the rest decides only between equal ones. */
  lemma LeadingDigit(x: nat, y: nat, p: nat, r: nat, q: nat)
    requires r < p && q < p
    ensures x < y ==> x * p + r < y * p + q
    ensures x == y ==> (x * p + r < y * p + q <==> r < q)
  {
    if x < y {
      var d := y - x - 1;
      assert y * p == (x + 1 + d) * p == x * p + p + d * p;
      assert d * p >= 0;
    }
  }

  lemma {:induction false} OctetOrder(a: Bytes, b: Bytes)
    requires |a| == |b|
    ensures OctetsBefore(a, b) <==> BigEndian(a) < BigEndian(b)
  {
    if a != [] {
      SplitAt(a, 1);
      SplitAt(b, 1);
      BigEndianBound(a[1..]);
      BigEndianBound(b[1..]);
      assert BigEndian(a[..1]) == a[0] && BigEndian(b[..1]) == b[0];
      OctetOrder(a[1..], b[1..]);
      LeadingDigit(a[0], b[0], Pow256(|a| - 1), BigEndian(a[1..]), BigEndian(b[1..]));
      LeadingDigit(b[0], a[0], Pow256(|a| - 1), BigEndian(b[1..]), BigEndian(a[1..]));
    }
  }

  ghost predicate Symbols(s: string)
  {
    forall c :: c in s ==> ValueOf(c) < 32
  }

  lemma {:induction false} DecodeFront(s: string)
    requires s != "" && Symbols(s)
    ensures Decode(s) == ValueOf(s[0]) * Pow32(|s| - 1) + Decode(s[1..])
    ensures Decode(s[1..]) < Pow32(|s| - 1)
  {
    hide ValueOf, Decode;
    var t := s[..|s| - 1];
    DecodeLast(s);
    if |s| > 1 {
      DecodeFront(t);
      Peel(s, 1);
      DecodeLast(s[1..]);
      assert Symbols(t) && s[|s| - 1] in s;
      AppendDigit(ValueOf(s[0]), Pow32(|t| - 1), Decode(t[1..]), ValueOf(s[|s| - 1]));
    }
  }

  lemma DecodeLast(s: string)
    requires s != ""
    ensures Decode("") == 0
    ensures Decode(s) == Decode(s[..|s| - 1]) * 32 + ValueOf(s[|s| - 1])
  {
    hide ValueOf;
  }

  lemma AppendDigit(x: nat, p: nat, r: nat, y: nat)
    requires r < p && y < 32
    ensures (x * p + r) * 32 + y == x * (32 * p) + (r * 32 + y)
    ensures r * 32 + y < 32 * p
  {
    Regroup32(x, p);
  }

  lemma Regroup32(x: int, p: int)
    ensures (x * p) * 32 == x * (32 * p)
  {
  }

  lemma {:induction false} SymbolOrder(s: string, t: string)
    requires |s| == |t| && Symbols(s) && Symbols(t)
    ensures Before(s, t) <==> Decode(s) < Decode(t)
  {
    if s != "" {
      DecodeFront(s);
      DecodeFront(t);
      SymbolOrder(s[1..], t[1..]);
      var x, y, p := ValueOf(s[0]), ValueOf(t[0]), Pow32(|s| - 1);
      AlphabetOrdered(x, y);
      AlphabetOrdered(y, x);
      LeadingDigit(x, y, p, Decode(s[1..]), Decode(t[1..]));
      LeadingDigit(y, x, p, Decode(t[1..]), Decode(s[1..]));
    }
  }

  lemma EncodingSymbols(v: nat)
    ensures Symbols(Encoding(v))
  {
    forall c | c in Encoding(v) ensures ValueOf(c) < 32 {
      var i :| 0 <= i < LENGTH && Encoding(v)[i] == c;
      ValueOfSymbol(Drop(v, LENGTH - 1 - i) % 32);
    }
  }

  /** The identifiers sort exactly as the octets they render. */
  lemma OrderEmbedding(a: Bytes, b: Bytes)
    requires |a| == 16 && |b| == 16
    ensures Before(Encoding(BigEndian(a)), Encoding(BigEndian(b))) <==> OctetsBefore(a, b)
    ensures Encoding(BigEndian(a)) == Encoding(BigEndian(b)) ==> a == b
  {
    DecodeEncoding(a);
    DecodeEncoding(b);
    EncodingSymbols(BigEndian(a));
    EncodingSymbols(BigEndian(b));
    SymbolOrder(Encoding(BigEndian(a)), Encoding(BigEndian(b)));
    OctetOrder(a, b);
    OctetOrder(b, a);
    Trichotomy(a, b);
  }

  lemma {:induction false} Trichotomy(a: Bytes, b: Bytes)
    requires |a| == |b|
    ensures a == b || OctetsBefore(a, b) || OctetsBefore(b, a)
  {
    if a != [] {
      Trichotomy(a[1..], b[1..]);
      if a[0] == b[0] && a[1..] == b[1..] {
        assert a == [a[0]] + a[1..] == b;
      }
    }
  }

  /** Symbol i by the runs of the alphabet: the digits, A to H, J and K, M and N, P to T, V to Z. */
  function Symbol(i: nat): char
    requires i < 32
  {
    (i + if i < 10 then 48 else if i < 18 then 55 else if i < 20 then 56 else if i < 22 then 57 else if i < 27 then 58 else 59) as char
  }

  lemma SymbolIs(i: nat)
    requires i < 32
    ensures ALPHABET[i] == Symbol(i)
  {
  }

  predicate IsCrockford(c: char)
  {
    ('0' <= c <= '9' || 'A' <= c <= 'Z') && c !in {'I', 'L', 'O', 'U'}
  }

  lemma SymbolIsCrockford(i: nat)
    requires i < 32
    ensures IsCrockford(Symbol(i))
  {
  }

  lemma CrockfordIsSymbol(c: char) returns (i: nat)
    requires IsCrockford(c)
    ensures i < 32 && Symbol(i) == c
  {
    var n := c as int;
    i := if c <= '9' then n - 48 else if c <= 'H' then n - 55 else if c <= 'K' then n - 56
         else if c <= 'N' then n - 57 else if c <= 'T' then n - 58 else n - 59;
  }

  /**
   * The symbols are the digits and capital letters in character order without the four that can be
   * mistaken for others: there is one such alphabet.
   */
  lemma AlphabetIsCrockfords(c: char)
    ensures |ALPHABET| == 32
    ensures c in ALPHABET <==> ('0' <= c <= '9' || 'A' <= c <= 'Z') && c !in {'I', 'L', 'O', 'U'}
  {
    hide Symbol;
    if c in ALPHABET {
      var i :| 0 <= i < 32 && ALPHABET[i] == c;
      SymbolIs(i);
      SymbolIsCrockford(i);
    }
    if IsCrockford(c) {
      var i := CrockfordIsSymbol(c);
      SymbolIs(i);
    }
  }

  // --- time ------------------------------------------------------------------

  /** The low 48 bits of a millisecond count, which Go first converts to an unsigned word. */
  function TimeOctets(ms: int): (b: Bytes)
    ensures |b| == 6
  {
    var u := ms % TWO_TO_64;
    [(u / 0x100_0000_0000) % 256, (u / 0x1_0000_0000) % 256, (u / 0x100_0000) % 256,
     (u / 0x1_0000) % 256, (u / 0x100) % 256, u % 256]
  }

  function Identifier(ms: int, entropy: Bytes): string
    requires |entropy| == 10
  {
    Encoding(BigEndian(TimeOctets(ms) + entropy))
  }

  method NewULID(ms: int, entropy: Bytes) returns (id: string)
    requires |entropy| == 10
    ensures id == Identifier(ms, entropy)
  {
    id := EncodeCrockford(TimeOctets(ms) + entropy);
  }

  lemma TimeValue(ms: int)
    ensures BigEndian(TimeOctets(ms)) == ms % TWO_TO_48
  {
    var u := ms % TWO_TO_64;
    SixOctets(u / 0x100_0000_0000, u / 0x1_0000_0000, u / 0x100_0000, u / 0x1_0000, u / 0x100, u);
    assert ms == (ms / TWO_TO_64) * TWO_TO_64 + u;
    assert ms - u == ((ms / TWO_TO_64) * 0x1_0000) * TWO_TO_48;
    SameRemainder(ms, u, (ms / TWO_TO_64) * 0x1_0000);
  }

  /** The time and the entropy can be read off an identifier: its upper 48 bits and its lower 80. */
  lemma IdentifierReads(ms: int, entropy: Bytes)
    requires |entropy| == 10
    ensures Decode(Identifier(ms, entropy)) == (ms % 0x1_0000_0000_0000) * 0x1_0000_0000_0000_0000_0000 + BigEndian(entropy)
    ensures BigEndian(entropy) < 0x1_0000_0000_0000_0000_0000
  {
    hide *;
    var b := TimeOctets(ms) + entropy;
    assert |TimeOctets(ms)| == 6;
    DecodeEncoding(b);
    TimeValue(ms);
    SplitAt(b, 6);
    BigEndianBound(entropy);
    assert b[..6] == TimeOctets(ms) && b[6..] == entropy;
    Pow256Of10();
    IdentifierIs(ms, entropy);
  }

  lemma IdentifierIs(ms: int, entropy: Bytes)
    requires |entropy| == 10
    ensures Identifier(ms, entropy) == Encoding(BigEndian(TimeOctets(ms) + entropy)) && TWO_TO_48 == 0x1_0000_0000_0000
  {
    hide Encoding, BigEndian, TimeOctets;
  }

  lemma Pow256Of10()
    ensures Pow256(10) == 0x1_0000_0000_0000_0000_0000
  {
    assert Pow256(5) == 0x100_0000_0000;
    Pow256Add(5, 5);
  }

  lemma SameRemainder(x: int, y: int, k: int)
    requires x == y + k * TWO_TO_48
    ensures x % TWO_TO_48 == y % TWO_TO_48
  {
    var q := y / TWO_TO_48;
    assert x == (q + k) * TWO_TO_48 + y % TWO_TO_48;
  }

  /** Six octets, each the low end of a number whose upper part is the one before. */
  lemma SixOctets(a: nat, b: nat, c: nat, d: nat, e: nat, f: nat)
    requires a == b / 256 && b == c / 256 && c == d / 256 && d == e / 256 && e == f / 256
    ensures BigEndian([a % 256, b % 256, c % 256, d % 256, e % 256, f % 256]) == f % TWO_TO_48
  {
    var s1: Bytes := [a % 256];
    var s2, s3 := s1 + [b % 256], s1 + [b % 256] + [c % 256];
    var s4, s5 := s3 + [d % 256], s3 + [d % 256] + [e % 256];
    assert s1[..0] == [] && BigEndian(s1) == a % 256;
    NextOctet(s1, a, b, 256);
    NextOctet(s2, b, c, 0x1_0000);
    NextOctet(s3, c, d, 0x100_0000);
    NextOctet(s4, d, e, 0x1_0000_0000);
    NextOctet(s5, e, f, 0x100_0000_0000);
    assert s5 + [f % 256] == [a % 256, b % 256, c % 256, d % 256, e % 256, f % 256];
  }

  lemma NextOctet(s: Bytes, x: nat, y: nat, m: nat)
    requires m > 0 && x == y / 256 && BigEndian(s) == x % m
    ensures BigEndian(s + [y % 256]) == y % (256 * m)
  {
    hide BigEndian;
    OneMoreOctet(s, y % 256);
    var q, t, r := x / m, x % m, y % 256;
    assert x == q * m + t && y == 256 * x + r;
    Regroup(q, m, t, r);
    assert 256 * t + r < 256 * m;
    Remainder(y, 256 * m, q, 256 * t + r);
  }

  lemma OneMoreOctet(s: Bytes, o: nat)
    requires o < 256
    ensures BigEndian(s + [o]) == 256 * BigEndian(s) + o
  {
    assert (s + [o])[..|s|] == s;
  }

  lemma Remainder(y: nat, n: nat, q: nat, r: nat)
    requires y == q * n + r && r < n
    ensures y % n == r
  {
    var q', r' := y / n, y % n;
    assert q' * n + r' == q * n + r;
    if q' < q {
      Stride(q', q, n);
    } else if q < q' {
      Stride(q, q', n);
    }
  }

  lemma Stride(x: nat, y: nat, n: nat)
    requires x < y
    ensures x * n + n <= y * n
  {
    var d := y - x - 1;
    assert y * n == (x + 1 + d) * n == x * n + n + d * n;
    assert d * n >= 0;
  }

  lemma ConcatOrder(t1: Bytes, e1: Bytes, t2: Bytes, e2: Bytes)
    requires |t1| == |t2| && |e1| == |e2|
    ensures BigEndian(t1) < BigEndian(t2) ==> BigEndian(t1 + e1) < BigEndian(t2 + e2)
    ensures BigEndian(t1) == BigEndian(t2) ==> (BigEndian(t1 + e1) < BigEndian(t2 + e2) <==> BigEndian(e1) < BigEndian(e2))
  {
    hide BigEndian, Pow256;
    var a, b := t1 + e1, t2 + e2;
    SplitAt(a, |t1|);
    SplitAt(b, |t2|);
    assert a[..|t1|] == t1 && a[|t1|..] == e1 && b[..|t2|] == t2 && b[|t2|..] == e2;
    BigEndianBound(e1);
    BigEndianBound(e2);
    LeadingDigit(BigEndian(t1), BigEndian(t2), Pow256(|e1|), BigEndian(e1), BigEndian(e2));
  }

  function Low48(ms: int): int
  {
    ms % TWO_TO_48
  }

  lemma IdentifierOrder(ms1: int, e1: Bytes, ms2: int, e2: Bytes)
    requires |e1| == 10 && |e2| == 10
    ensures Low48(ms1) < Low48(ms2) ==> Before(Identifier(ms1, e1), Identifier(ms2, e2))
    ensures Low48(ms1) == Low48(ms2) ==> (Before(Identifier(ms1, e1), Identifier(ms2, e2)) <==> BigEndian(e1) < BigEndian(e2))
  {
    var t1, t2 := TimeOctets(ms1), TimeOctets(ms2);
    TimeValue(ms1);
    TimeValue(ms2);
    ConcatOrder(t1, e1, t2, e2);
    OrderEmbedding(t1 + e1, t2 + e2);
    OctetOrder(t1 + e1, t2 + e2);
  }

  ghost predicate AlwaysBefore(ms1: int, ms2: int)
  {
    forall e1: Bytes, e2: Bytes :: |e1| == 10 && |e2| == 10 ==> Before(Identifier(ms1, e1), Identifier(ms2, e2))
  }

  lemma EarlierIsBefore(ms1: int, ms2: int)
    requires Low48(ms1) < Low48(ms2)
    ensures AlwaysBefore(ms1, ms2)
  {
    forall e1: Bytes, e2: Bytes | |e1| == 10 && |e2| == 10
      ensures Before(Identifier(ms1, e1), Identifier(ms2, e2))
    {
      IdentifierOrder(ms1, e1, ms2, e2);
    }
  }

  lemma NotBefore(ms1: int, ms2: int)
    requires Low48(ms1) >= Low48(ms2)
    ensures !AlwaysBefore(ms1, ms2)
  {
    var zero: Bytes := [0, 0, 0, 0, 0, 0, 0, 0, 0, 0];
    IdentifierOrder(ms1, zero, ms2, zero);
    IdentifierOrder(ms2, zero, ms1, zero);
    BeforeAsymmetric(Identifier(ms1, zero), Identifier(ms2, zero));
    assert !Before(Identifier(ms1, zero), Identifier(ms2, zero));
  }

  /**
   * The earlier identifier is the smaller one whatever the entropy, if and only if its time is
   * earlier in its low 48 bits; up to the year 10889 those are the whole time.
   */
  lemma TimeOrderIff(ms1: int, ms2: int)
    ensures AlwaysBefore(ms1, ms2) == (Low48(ms1) < Low48(ms2))
    ensures 0 <= ms1 < TWO_TO_48 ==> Low48(ms1) == ms1
  {
    assert 0 <= ms1 < TWO_TO_48 ==> Low48(ms1) == ms1;
    hide *;
    if Low48(ms1) < Low48(ms2) {
      EarlierIsBefore(ms1, ms2);
    } else {
      NotBefore(ms1, ms2);
    }
  }
}
