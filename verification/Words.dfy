/** Machine words of any width, as the integers below a power of two. */
module Words {

  function Pow2(n: nat): (p: nat)
    ensures p > 0
  {
    if n == 0 then 1 else 2 * Pow2(n - 1)
  }

  lemma {:induction false} Pow2Monotone(m: nat, n: nat)
    requires m <= n
    ensures Pow2(m) <= Pow2(n)
    decreases n - m
  {
    if m < n { Pow2Monotone(m, n - 1); }
  }

  lemma {:induction false} Pow2Sum(m: nat, n: nat)
    ensures Pow2(m + n) == Pow2(m) * Pow2(n)
    decreases m
  {
    if m > 0 {
      Pow2Sum(m - 1, n);
      assert Pow2(m + n) == 2 * Pow2(m - 1 + n);
    }
  }

  lemma MulMonotone(a: int, b: int, m: int)
    requires a <= b && m >= 0
    ensures a * m <= b * m
  {
    assert b * m - a * m == (b - a) * m;
  }

  // ------------------------------------------------------------- residues

  /** The residue of `v` modulo `m`, never negative: by linear steps, which keeps
    * proofs about it free of multiplication. */
  function Mod(v: int, m: nat): (r: nat)
    requires m > 0
    ensures r < m
    decreases if v < 0 then m - v else v
  {
    if v < 0 then Mod(v + m, m) else if v < m then v else Mod(v - m, m)
  }

  lemma {:induction false} ModShift(v: int, k: nat, m: nat)
    requires m > 0
    ensures Mod(v + k * m, m) == Mod(v, m)
    decreases k
  {
    if k > 0 {
      ModShift(v, k - 1, m);
      var u := v + (k - 1) * m;
      assert v + k * m == u + m;
      ModOnce(u, m);
    }
  }

  lemma {:induction false} ModOnce(v: int, m: nat)
    requires m > 0
    ensures Mod(v + m, m) == Mod(v, m)
  {
  }

  /** Residues of numbers at most one modulus away. */
  lemma ModNear(v: int, m: nat)
    requires m > 0
    ensures 0 <= v < m ==> Mod(v, m) == v
    ensures m <= v < 2 * m ==> Mod(v, m) == v - m
    ensures 0 - m <= v < 0 ==> Mod(v, m) == v + m
  {
  }

  lemma ModUnique(v: int, q: int, r: nat, m: nat)
    requires r < m && v == q * m + r
    ensures Mod(v, m) == r
  {
    if q >= 0 {
      ModShift(r, q, m);
    } else {
      var n := 0 - q;
      assert n * m + q * m == (n + q) * m == 0;
      ModShift(v, n, m);
    }
  }

  /** It is the remainder of Euclidean division. */
  lemma ModIsRemainder(v: int, m: nat)
    requires m > 0
    ensures Mod(v, m) == v % m
  {
    ModUnique(v, v / m, v % m, m);
  }

  /** Taking the residue modulo a multiple first changes nothing. */
  lemma {:induction false} ModOfMod(v: int, a: nat, b: nat, m: nat)
    requires a > 0 && b > 0 && m == a * b
    ensures Mod(Mod(v, m), b) == Mod(v, b)
    decreases if v < 0 then m - v else v
  {
    if v < 0 {
      ModOfMod(v + m, a, b, m);
      ModShift(v, a, b);
    } else if v >= m {
      ModOfMod(v - m, a, b, m);
      ModShift(v - m, a, b);
    }
  }

  /** The quotient of two natural numbers, also by linear steps. */
  function Quot(a: nat, b: nat): (q: nat)
    requires b > 0
    ensures q <= a
    decreases a
  {
    if a < b then 0 else 1 + Quot(a - b, b)
  }

  lemma {:induction false} QuotMod(a: nat, b: nat)
    requires b > 0
    ensures a == Quot(a, b) * b + Mod(a, b)
    decreases a
  {
    if a >= b {
      QuotMod(a - b, b);
      assert Quot(a, b) * b == Quot(a - b, b) * b + b;
    }
  }

  lemma QuotientOf(a: nat, p: nat, q: nat, r: nat)
    requires p > 0 && a == q * p + r && r < p
    ensures a / p == q
  {
    var d, e := a / p, a % p;
    assert a == d * p + e;
    if d < q { MulMonotone(d + 1, q, p); } else if d > q { MulMonotone(q + 1, d, p); }
  }

  lemma QuotIsDivision(a: nat, b: nat)
    requires b > 0
    ensures Quot(a, b) == a / b
  {
    QuotMod(a, b);
    QuotientOf(a, b, Quot(a, b), Mod(a, b));
  }

  // -------------------------------------------- words as signed or unsigned

  function First(w: nat, unsigned: bool): int { if unsigned || w == 0 then 0 else 0 - Pow2(w - 1) }
  function Last(w: nat, unsigned: bool): int { if w == 0 then 0 else if unsigned then Pow2(w) - 1 else Pow2(w - 1) - 1 }

  predicate Fits(v: int, w: nat, unsigned: bool) { First(w, unsigned) <= v <= Last(w, unsigned) }

  /** The word of `w` bits that stands for `v`. */
  function Encode(v: int, w: nat): (word: nat)
    ensures word < Pow2(w)
  {
    Mod(v, Pow2(w))
  }

  /** The integer that a word stands for. */
  function Decode(word: nat, w: nat, unsigned: bool): int {
    if unsigned || w == 0 || word < Pow2(w - 1) then word else word - Pow2(w)
  }

  lemma DecodeEncode(v: int, w: nat, unsigned: bool)
    requires w > 0 && Fits(v, w, unsigned)
    ensures Decode(Encode(v, w), w, unsigned) == v
  {
    ModNear(v, Pow2(w));
  }

  lemma EncodeDecode(word: nat, w: nat, unsigned: bool)
    requires w > 0 && word < Pow2(w)
    ensures Fits(Decode(word, w, unsigned), w, unsigned) && Encode(Decode(word, w, unsigned), w) == word
  {
    ModNear(Decode(word, w, unsigned), Pow2(w));
  }

  /** Truncation keeps the word of the same integer. */
  lemma TruncateEncode(v: int, w: nat, n: nat)
    requires n <= w
    ensures Encode(Encode(v, w), n) == Encode(v, n)
  {
    Pow2Sum(w - n, n);
    ModOfMod(v, Pow2(w - n), Pow2(n), Pow2(w));
  }

  /** A range of a narrower word is within one of a wider word, except negatives into unsigned. */
  lemma FitsWider(v: int, w: nat, unsigned: bool, w': nat, unsigned': bool)
    requires 0 < w < w' && Fits(v, w, unsigned) && (unsigned || !unsigned')
    ensures Fits(v, w', unsigned')
  {
    Pow2Monotone(w, w' - 1);
    Pow2Monotone(w - 1, w' - 1);
  }
}
