/** The machine width and the signedness of comparisons chosen for a type make the
  * machine order that of its values (sections 3.5.1, 3.5.4, 4.5.2 and 13.4 of the
  * Ada Reference Manual).
  */
module Ordering {
  import opened Options
  import opened Words

  /** A scalar type, by what its representation is chosen from. The values of an
    * enumeration are its representation codes; of a character type, the code
    * points of the literals met. */
  datatype Scalar =
    | SignedRange(lo: int, hi: int)
    | ModularType(modulus: nat)
    | Enumeration(codes: seq<int>)
    | Characters(codes: seq<int>)

  predicate IsValue(t: Scalar, v: int) {
    match t
    case SignedRange(lo, hi) => lo <= v <= hi
    case ModularType(m) => 0 <= v < m
    case Enumeration(codes) => v in codes
    case Characters(codes) => v in codes
  }

  /** Ordering is unsigned for a modular type, and for codes none of which is negative. */
  predicate UnsignedOrder(t: Scalar) {
    match t
    case SignedRange(_, _) => false
    case ModularType(_) => true
    case Enumeration(codes) => forall k :: 0 <= k < |codes| ==> codes[k] >= 0
    case Characters(codes) => forall k :: 0 <= k < |codes| ==> codes[k] >= 0
  }

  // ------------------------------------------------------------------ widths

  /** The least width in which `v` fits as a signed word. */
  function SignificantBits(v: int): (n: nat)
    ensures n > 0 && Fits(v, n, false)
    ensures n > 1 ==> !Fits(v, n - 1, false)
    decreases if v < 0 then 0 - v else v
  {
    if -1 <= v <= 0 then 1 else 1 + SignificantBits(if v < 0 then 0 - ((1 - v) / 2) else v / 2)
  }

  lemma SignificantFits(v: int, n: nat)
    requires SignificantBits(v) <= n
    ensures Fits(v, n, false)
  {
    Pow2Monotone(SignificantBits(v) - 1, n - 1);
  }

  /** `n` rounded up to a power of two: 8, 16, 32, 64 or 128 for the widths in use. */
  function RoundUp(n: nat, power: nat): (r: nat)
    requires 0 < power
    ensures r >= n && r >= power
    decreases if power < n then n - power else 0
  {
    if power >= n then power else RoundUp(n, 2 * power)
  }

  /** The widths of integer types. */
  predicate InUse(w: nat) { w == 8 || w == 16 || w == 32 || w == 64 || w == 128 }

  ghost predicate LeastForRange(lo: int, hi: int, w: nat) {
    && InUse(w) && Fits(lo, w, false) && Fits(hi, w, false)
    && forall v: nat :: InUse(v) && v < w ==> !(Fits(lo, v, false) && Fits(hi, v, false))
  }

  ghost predicate LeastForModulus(m: nat, w: nat) {
    InUse(w) && m <= Pow2(w) && forall v: nat :: InUse(v) && v < w ==> m > Pow2(v)
  }

  /** Signed integers: from the base range, at least 8 bits, at most 128. */
  function IntegerWidth(lo: int, hi: int): Option<nat> {
    var bits := if SignificantBits(lo) > SignificantBits(hi) then SignificantBits(lo) else SignificantBits(hi);
    if bits > 128 then None else Some(RoundUp(if bits < 8 then 8 else bits, 1))
  }

  /** The least `k` with `m <= 2**k`. */
  function CeilLog2(m: nat): (k: nat)
    requires m > 0
    ensures m <= Pow2(k)
  {
    if m == 1 then 0 else 1 + CeilLog2((m + 1) / 2)
  }

  function ModularWidth(modulus: nat): nat
    requires modulus > 0
  {
    var need := CeilLog2(modulus);
    if need <= 8 then 8 else if need <= 16 then 16 else if need <= 32 then 32 else if need <= 64 then 64 else 128
  }

  /** Enumerations: from the least and the greatest code, both starting from zero. */
  method EnumWidth(codes: seq<int>, isChar: bool) returns (w: nat)
    requires isChar ==> forall k :: 0 <= k < |codes| ==> 0 <= codes[k] < Pow2(32)
    ensures w > 0
    ensures var unsigned := forall k :: 0 <= k < |codes| ==> codes[k] >= 0;
            forall k :: 0 <= k < |codes| ==> Fits(codes[k], w, unsigned)
    ensures Suits(if isChar then Characters(codes) else Enumeration(codes), Some(w))
  {
    var minRep, maxRep := 0, 0;
    for i := 0 to |codes|
      invariant minRep <= 0 <= maxRep && forall k :: 0 <= k < i ==> minRep <= codes[k] <= maxRep
      invariant (minRep == 0 || minRep in codes) && (maxRep == 0 || maxRep in codes)
    {
      if codes[i] < minRep { minRep := codes[i]; }
      if codes[i] > maxRep { maxRep := codes[i]; }
    }
    if isChar {
      assert Pow2(8) == 256 && Pow2(16) == 65536 by { PowersInUse(); }
      w := if maxRep <= 255 then 8 else if maxRep <= 65535 then 16 else 32;
      return;
    }
    if minRep >= 0 && maxRep <= 1 { return 1; }
    w := if SignificantBits(minRep) > SignificantBits(maxRep) then SignificantBits(minRep) else SignificantBits(maxRep);
    SignificantFits(minRep, w);
    SignificantFits(maxRep, w);
    EnumLeast(codes, minRep, maxRep, w);
  }

  /** All codes fit `w` bits as signed words, and in one bit less some do not. */
  ghost predicate LeastSigned(codes: seq<int>, w: nat) {
    && w > 0 && (forall k :: 0 <= k < |codes| ==> Fits(codes[k], w, false))
    && (w > 1 ==> exists v :: v in codes && !Fits(v, w - 1, false))
  }

  lemma EnumLeast(codes: seq<int>, minRep: int, maxRep: int, w: nat)
    requires minRep <= 0 <= maxRep && forall k :: 0 <= k < |codes| ==> minRep <= codes[k] <= maxRep
    requires (minRep == 0 || minRep in codes) && (maxRep == 0 || maxRep in codes)
    requires w == SignificantBits(minRep) || w == SignificantBits(maxRep)
    requires w >= SignificantBits(minRep) && w >= SignificantBits(maxRep)
    ensures LeastSigned(codes, w)
  {
    SignificantFits(minRep, w);
    SignificantFits(maxRep, w);
    if w > 1 {
      var v := if w == SignificantBits(minRep) then minRep else maxRep;
      assert v in codes && !Fits(v, w - 1, false);
    }
  }

  /** The least of 8, 16 and 32 bits that holds all code points. */
  ghost predicate LeastChar(codes: seq<int>, w: nat) {
    && (w == 8 || w == 16 || w == 32) && (forall k :: 0 <= k < |codes| ==> codes[k] < Pow2(w))
    && (w > 8 ==> exists v :: v in codes && v >= Pow2(w / 2))
  }

  lemma SignificantLeast(v: int, n: nat)
    ensures Fits(v, n, false) && n > 0 ==> SignificantBits(v) <= n
  {
    var b := SignificantBits(v);
    if 0 < n < b { Pow2Monotone(n - 1, b - 2); }
  }

  lemma PowersInUse()
    ensures Pow2(8) == 256 && Pow2(16) == 65536
  {
    assert Pow2(4) == 16 && Pow2(8) == 256;
    Pow2Sum(8, 8);
  }

  /** Every value of the type fits the width chosen for it, read as its order reads it. */
  ghost predicate Holds(t: Scalar, w: nat) {
    w > 0 && forall v :: IsValue(t, v) ==> Fits(v, w, UnsignedOrder(t))
  }

  /** A width, or the rejection of a range wider than 128 bits: for an integer type the
    * least of the widths in use, for an enumeration the least signed one, or one bit for
    * codes that are zero or one. */
  ghost predicate Suits(t: Scalar, w: Option<nat>) {
    match t
    case SignedRange(lo, hi) =>
      if w.None? then !(Fits(lo, 128, false) && Fits(hi, 128, false)) else LeastForRange(lo, hi, w.value)
    case ModularType(m) => w.Some? && LeastForModulus(m, w.value)
    case Enumeration(codes) =>
      w.Some? && if forall v :: v in codes ==> 0 <= v <= 1 then w.value == 1 else LeastSigned(codes, w.value)
    case Characters(codes) => w.Some? && LeastChar(codes, w.value)
  }

  /** The width of a type. A range wider than 128 bits is rejected. */
  method ChooseWidth(t: Scalar) returns (w: Option<nat>)
    requires t.ModularType? ==> 0 < t.modulus <= Pow2(128)
    requires t.Characters? ==> forall k :: 0 <= k < |t.codes| ==> 0 <= t.codes[k] < Pow2(32)
    ensures Suits(t, w) && (w.Some? ==> Holds(t, w.value))
  {
    match t
    case SignedRange(lo, hi) =>
      w := IntegerWidth(lo, hi);
      RangeSuited(lo, hi);
    case ModularType(m) =>
      ModularLeast(m);
      w := Some(ModularWidth(m));
    case Enumeration(codes) =>
      var n := EnumWidth(codes, false);
      w := Some(n);
    case Characters(codes) =>
      var n := EnumWidth(codes, true);
      w := Some(n);
  }

  lemma RangeSuited(lo: int, hi: int)
    ensures Suits(SignedRange(lo, hi), IntegerWidth(lo, hi))
    ensures IntegerWidth(lo, hi).Some? ==> Holds(SignedRange(lo, hi), IntegerWidth(lo, hi).value)
  {
    if IntegerWidth(lo, hi).Some? {
      IntegerWidthLeast(lo, hi);
    } else {
      TooWide(if SignificantBits(lo) > 128 then lo else hi);
    }
  }

  lemma TooWide(v: int)
    requires SignificantBits(v) > 128
    ensures !Fits(v, 128, false)
  {
    Pow2Monotone(127, SignificantBits(v) - 2);
  }

  /** Rounding up a number of bits takes the next width in use. */
  lemma RoundsToWidth(n: nat)
    requires 8 <= n <= 128
    ensures RoundUp(n, 1) ==
      if n == 8 then 8 else if n <= 16 then 16 else if n <= 32 then 32 else if n <= 64 then 64 else 128
  {
    assert RoundUp(n, 1) == RoundUp(n, 2) == RoundUp(n, 4) == RoundUp(n, 8);
    assert RoundUp(n, 8) == if n <= 8 then 8 else RoundUp(n, 16);
    assert n > 16 ==> RoundUp(n, 16) == RoundUp(n, 32);
    assert n > 32 ==> RoundUp(n, 32) == RoundUp(n, 64);
    assert n > 64 ==> RoundUp(n, 64) == RoundUp(n, 128) == 128;
  }

  lemma IntegerWidthLeast(lo: int, hi: int)
    requires IntegerWidth(lo, hi).Some?
    ensures LeastForRange(lo, hi, IntegerWidth(lo, hi).value)
  {
    var bits := if SignificantBits(lo) > SignificantBits(hi) then SignificantBits(lo) else SignificantBits(hi);
    var n := if bits < 8 then 8 else bits;
    var w := IntegerWidth(lo, hi).value;
    RoundsToWidth(n);
    SignificantFits(lo, w);
    SignificantFits(hi, w);
    forall v: nat | InUse(v) && v < w ensures !(Fits(lo, v, false) && Fits(hi, v, false)) {
      SignificantLeast(lo, v);
      SignificantLeast(hi, v);
    }
  }

  lemma {:induction false} CeilLeast(m: nat, n: nat)
    requires 0 < m <= Pow2(n)
    ensures CeilLog2(m) <= n
  {
    if m > 1 { CeilLeast((m + 1) / 2, n - 1); }
  }

  lemma ModularLeast(m: nat)
    requires 0 < m <= Pow2(128)
    ensures LeastForModulus(m, ModularWidth(m))
  {
    ModularFits(m);
    CeilLeast(m, 128);
    forall v: nat | InUse(v) && v < ModularWidth(m) ensures m > Pow2(v) {
      if m <= Pow2(v) { CeilLeast(m, v); }
    }
  }

  lemma ModularFits(m: nat)
    requires 0 < m <= Pow2(128)
    ensures m <= Pow2(ModularWidth(m)) && ModularWidth(m) > 0
  {
    var k := CeilLog2(m);
    if k <= 128 { Pow2Monotone(k, ModularWidth(m)); }
  }

  // ------------------------------------------------------------- comparisons

  datatype Relation = Eq | Neq | Lt | Lte | Gt | Gte

  datatype Predicate = PEq | PNe | Slt | Sle | Sgt | Sge | Ult | Ule | Ugt | Uge

  function PredicateFor(r: Relation, unsigned: bool): Predicate {
    match r
    case Eq => PEq
    case Neq => PNe
    case Lt => if unsigned then Ult else Slt
    case Lte => if unsigned then Ule else Sle
    case Gt => if unsigned then Ugt else Sgt
    case Gte => if unsigned then Uge else Sge
  }

  predicate Compare(p: Predicate, a: nat, b: nat, w: nat) {
    var x, y := Decode(a, w, false), Decode(b, w, false);
    match p
    case PEq => a == b
    case PNe => a != b
    case Slt => x < y
    case Sle => x <= y
    case Sgt => x > y
    case Sge => x >= y
    case Ult => a < b
    case Ule => a <= b
    case Ugt => a > b
    case Uge => a >= b
  }

  /** The machine predicate on the words of two values is the relation between the
    * values, for every type, width chosen and relation, also in one bit. */
  lemma OrderAgrees(t: Scalar, w: nat, r: Relation, x: int, y: int)
    requires Holds(t, w) && (t.SignedRange? ==> t.lo <= x <= t.hi && t.lo <= y <= t.hi)
    requires (t.ModularType? ==> 0 <= x < t.modulus && 0 <= y < t.modulus)
    requires (t.Enumeration? || t.Characters? ==> x in t.codes && y in t.codes)
    ensures var p := PredicateFor(r, UnsignedOrder(t));
            Compare(p, Encode(x, w), Encode(y, w), w) <==>
              && (r.Eq? ==> p.PEq? && x == y) && (r.Neq? ==> p.PNe? && x != y)
              && (r.Lt? ==> p == (if UnsignedOrder(t) then Ult else Slt) && x < y)
              && (r.Lte? ==> p == (if UnsignedOrder(t) then Ule else Sle) && x <= y)
              && (r.Gt? ==> p == (if UnsignedOrder(t) then Ugt else Sgt) && x > y)
              && (r.Gte? ==> p == (if UnsignedOrder(t) then Uge else Sge) && x >= y)
  {
    assert IsValue(t, x) && IsValue(t, y);
    DecodeEncode(x, w, UnsignedOrder(t));
    DecodeEncode(y, w, UnsignedOrder(t));
  }
}
