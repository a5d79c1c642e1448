/** The bucket function: djb2 over the block index and the file name. */
module Hash {
  import opened CacheTypes

  function Pow2(n: nat): (r: nat)
    ensures r >= 1
  {
    if n == 0 then 1 else 2 * Pow2(n - 1)
  }

  /** Floor of the base-2 logarithm, 0 for 0. */
  function Log2(n: nat): nat {
    if n > 1 then 1 + Log2(n / 2) else 0
  }

  lemma {:induction false} Log2Bounds(n: nat)
    requires n >= 1
    ensures Pow2(Log2(n)) <= n < 2 * Pow2(Log2(n))
  {
    if n > 1 {
      Log2Bounds(n / 2);
    }
  }

  lemma {:induction false} Log2OfPow2(k: nat)
    ensures Log2(Pow2(k)) == k
  {
    if k > 0 {
      Log2OfPow2(k - 1);
    }
  }

  lemma {:induction false} Pow2Adds(a: nat, b: nat)
    ensures Pow2(a + b) == Pow2(a) * Pow2(b)
  {
    if a > 0 {
      Pow2Adds(a - 1, b);
    }
  }

  lemma Pow2Monotone(a: nat, b: nat)
    requires a <= b
    ensures Pow2(a) <= Pow2(b)
  {
    Pow2Adds(a, b - a);
    assert Pow2(a) * Pow2(b - a) >= Pow2(a);
  }

  /** The djb2 value of a key over the unbounded integers. */
  function Djb2(path: seq<CChar>, index: Word): int {
    if path == [] then 5381 * 33 + index
    else Djb2(path[..|path| - 1], index) * 33 + path[|path| - 1]
  }

  function Power33(n: nat): int {
    if n == 0 then 1 else 33 * Power33(n - 1)
  }

  /** The characters of a name as the digits of a number to base 33, first one highest. */
  function Digits(path: seq<CChar>): int {
    if path == [] then 0 else path[0] * Power33(|path| - 1) + Digits(path[1..])
  }

  lemma {:induction false} DigitsAtEnd(path: seq<CChar>, c: CChar)
    ensures Digits(path + [c]) == 33 * Digits(path) + c
  {
    if path == [] {
      assert path + [c] == [c];
    } else {
      assert (path + [c])[1..] == path[1..] + [c];
      DigitsAtEnd(path[1..], c);
      assert Power33(|path|) == 33 * Power33(|path| - 1);
      assert path[0] * Power33(|path|) == 33 * (path[0] * Power33(|path| - 1));
    }
  }

  /** In closed form: the start value, the index and the characters are digits to base 33. */
  lemma {:induction false} Djb2IsPolynomial(path: seq<CChar>, index: Word)
    ensures Djb2(path, index) == 5381 * Power33(|path| + 1) + index * Power33(|path|) + Digits(path)
  {
    if path != [] {
      var n := |path| - 1;
      Djb2IsPolynomial(path[..n], index);
      DigitsAtEnd(path[..n], path[n]);
      assert path == path[..n] + [path[n]];
      assert Power33(n + 2) == 33 * Power33(n + 1) && Power33(n + 1) == 33 * Power33(n);
      Scale33(5381, Power33(n + 1), index, Power33(n), Digits(path[..n]));
    }
  }

  lemma Scale33(a: int, x: int, b: int, y: int, z: int)
    ensures (a * x + b * y + z) * 33 == a * (33 * x) + b * (33 * y) + 33 * z
  {
  }

  /** The bucket of a key in a table of `buckets` chains. */
  function Bucket(k: Key, buckets: nat): (h: nat)
    requires 2 <= buckets
    ensures h < buckets
  {
    Log2Bounds(buckets);
    Djb2(k.path, k.index) % Pow2(Log2(buckets))
  }

  /** With a power of two as bucket count, the bucket is the djb2 value modulo that count. */
  lemma BucketIsDjb2Modulo(k: Key, bits: nat)
    requires 1 <= bits
    ensures 2 <= Pow2(bits)
    ensures Bucket(k, Pow2(bits)) == Djb2(k.path, k.index) % Pow2(bits)
  {
    Pow2Monotone(1, bits);
    Log2OfPow2(bits);
  }

  lemma WrapStep(hash: int, c: int, value: int)
    requires hash == value % U32
    ensures (hash * 33 + c) % U32 == (value * 33 + c) % U32
  {
    var q := value / U32;
    assert value * 33 + c == hash * 33 + c + U32 * (33 * q);
  }

  lemma WordSize()
    ensures Pow2(32) == U32
  {
    assert Pow2(8) == 256;
    Pow2Adds(8, 8);
    Pow2Adds(16, 16);
  }

  lemma MultipleIsFar(m: int, d: int)
    requires m > 0
    ensures d >= 1 ==> m * d >= m
    ensures d <= -1 ==> m * d <= -m
  {
  }

  lemma QuotientAndRest(x: int, q: int, r: int, m: int)
    requires 0 <= r < m && x == m * q + r
    ensures x / m == q && x % m == r
  {
    var d := x / m - q;
    assert m * d == r - x % m;
    MultipleIsFar(m, d);
  }

  /** Reducing to a word first does not change the value modulo a smaller power of two. */
  lemma ReduceTwice(x: int, a: nat, b: nat)
    requires a >= 1 && b >= 1
    ensures (x % (a * b)) % b == x % b
  {
    var q, r := x / (a * b), x % (a * b);
    var q2, r2 := r / b, r % b;
    assert x == b * (a * q + q2) + r2 by {
      assert x == (a * b) * q + r;
      assert r == b * q2 + r2;
      assert (a * b) * q == b * (a * q);
      assert b * (a * q + q2) == b * (a * q) + b * q2;
    }
    QuotientAndRest(x, a * q + q2, r2, b);
  }

  lemma ScaleModDivide(v: int, s: int, b: int)
    requires s >= 1 && b >= 1
    ensures b * s >= 1
    ensures ((v * s) % (b * s)) / s == v % b
  {
    var q, r := v / b, v % b;
    assert v * s == (b * s) * q + r * s by {
      assert v == b * q + r;
      assert (b * q) * s == (b * s) * q;
    }
    assert 0 <= r * s < b * s by {
      assert r * s <= (b - 1) * s;
    }
    QuotientAndRest(v * s, q, r * s, b * s);
    QuotientAndRest(r * s, r, 0, s);
  }

  /** Shifting left then right by `32 - bits` in a word keeps the low `bits` bits. */
  lemma ShiftPairKeepsLowBits(v: Word, bits: nat)
    requires 1 <= bits <= 32
    ensures ((v * Pow2(32 - bits)) % U32) / Pow2(32 - bits) == v % Pow2(bits)
  {
    WordSize();
    Pow2Adds(bits, 32 - bits);
    ScaleModDivide(v, Pow2(32 - bits), Pow2(bits));
  }

  lemma ReduceWordTwice(x: int, bits: nat)
    requires 1 <= bits <= 32
    ensures (x % U32) % Pow2(bits) == x % Pow2(bits)
  {
    WordSize();
    Pow2Adds(32 - bits, bits);
    ReduceTwice(x, Pow2(32 - bits), Pow2(bits));
  }

  function MixByte(hash: Word, c: int): (r: Word)
    ensures r == (hash * 33 + c) % U32
  {
    (((hash * 32) % U32 + hash) % U32 + c) % U32
  }

  /**
   * The hash loop in 32-bit arithmetic; `hash << 5` plus `hash` is 33 times `hash`
   * modulo the word size.
   */
  method Hash32(path: Path, cachePageIndex: Word, hashBits: nat) returns (h: nat)
    requires 1 <= hashBits <= 32
    ensures h == Djb2(path, cachePageIndex) % Pow2(hashBits)
  {
    var hash: Word := MixByte(5381, cachePageIndex);
    var i := 0;
    while i < |path|
      invariant 0 <= i <= |path|
      invariant hash == Djb2(path[..i], cachePageIndex) % U32
    {
      WrapStep(hash, path[i], Djb2(path[..i], cachePageIndex));
      assert path[..i + 1][..i] == path[..i];
      hash := MixByte(hash, path[i]);
      i := i + 1;
    }
    assert path[..i] == path;
    ShiftPairKeepsLowBits(hash, hashBits);
    ReduceWordTwice(Djb2(path, cachePageIndex), hashBits);
    h := ((hash * Pow2(32 - hashBits)) % U32) / Pow2(32 - hashBits);
  }
}
