/** Octets and big-endian integers, and the Option type the other modules share. */
module Wire {

  datatype Option<+T> = None | Some(value: T)

  function ToSeq<T>(o: Option<T>): seq<T>
  {
    match o
    case None => []
    case Some(x) => [x]
  }

  type Byte = x: int | 0 <= x < 256
  type Bytes = seq<Byte>

  const TWO_TO_63: int := 0x8000_0000_0000_0000
  const TWO_TO_64: int := 0x1_0000_0000_0000_0000

  function U16(b: Bytes, i: nat): (r: int)
    requires i + 2 <= |b|
    ensures 0 <= r < 0x1_0000
  {
    (b[i] as int) * 256 + b[i + 1]
  }

  function U32(b: Bytes, i: nat): (r: int)
    requires i + 4 <= |b|
    ensures 0 <= r < 0x1_0000_0000
  {
    U16(b, i) * 0x1_0000 + U16(b, i + 2)
  }

  function PutU16(x: nat): (r: Bytes)
    requires x < 0x1_0000
    ensures |r| == 2 && U16(r, 0) == x
  {
    [x / 256, x % 256]
  }

  function PutU32(x: nat): (r: Bytes)
    requires x < 0x1_0000_0000
    ensures |r| == 4 && U32(r, 0) == x
  {
    PutU16(x / 0x1_0000) + PutU16(x % 0x1_0000)
  }

  /** The unsigned integer whose big-endian octets are b. */
  function BigEndian(b: Bytes): (r: nat)
  {
    if b == [] then 0 else BigEndian(b[..|b| - 1]) * 256 + b[|b| - 1]
  }

  function Pow256(n: nat): (r: nat)
    ensures r > 0
  {
    if n == 0 then 1 else 256 * Pow256(n - 1)
  }

  lemma {:induction false} BigEndianBound(b: Bytes)
    ensures BigEndian(b) < Pow256(|b|)
  {
    if b != [] {
      BigEndianBound(b[..|b| - 1]);
    }
  }

  lemma {:induction false} Pow256Monotone(m: nat, n: nat)
    requires m <= n
    ensures Pow256(m) <= Pow256(n)
  {
    if m < n {
      Pow256Monotone(m, n - 1);
    }
  }

  /** The 64-bit pattern x read as a signed integer. */
  function ToInt64(x: int): (r: int)
    requires 0 <= x < TWO_TO_64
  {
    if x >= TWO_TO_63 then x - TWO_TO_64 else x
  }

  // --- slices ----------------------------------------------------------------

  lemma Cut<T>(a: seq<T>, b: seq<T>, c: seq<T>)
    ensures a + b + c == a + (b + c)
    ensures (a + b + c)[|a|..|a| + |b|] == b
    ensures (a + b + c)[|a| + |b|..] == c
  {
  }

  lemma SliceOfSlice<T>(s: seq<T>, i: nat, j: nat, k: nat, l: nat)
    requires i <= j <= |s| && k <= l <= j - i
    ensures s[i..j][k..l] == s[i + k..i + l]
  {
    assert forall n :: 0 <= n < l - k ==> s[i..j][k..l][n] == s[i..j][k + n] == s[i + k..i + l][n];
  }

  lemma SliceOfRest<T>(s: seq<T>, i: nat, k: nat, l: nat)
    requires i <= |s| && k <= l <= |s| - i
    ensures s[i..][k..l] == s[i + k..i + l]
    ensures s[i..][l..] == s[i + l..]
  {
  }

  /** What is left of a slice when its first and last elements are dropped, in either order. */
  lemma Peel<T>(s: seq<T>, n: nat)
    requires n < |s|
    ensures s[..|s| - 1][..n] == s[..n]
    ensures s[..|s| - 1][n..] == s[n..][..|s| - n - 1]
    ensures s[n..][|s| - n - 1] == s[|s| - 1]
  {
  }
}
