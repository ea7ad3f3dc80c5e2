/** Modular operators on machine words of any width: what is emitted for each of
  * them yields the result of sections 3.5.4 and 4.5 of the Ada Reference Manual.
  */
module Modular {
  import opened Options
  import opened Words

  // --------------------------------------------------------- emitted code

  datatype BitOp = AndOp | OrOp | XorOp

  /** Machine code for one operator. Every node computes in the width of its
    * context; `Extend` and `Shorten` change it. */
  datatype Insn =
    | Lhs | Rhs
    | Const(k: nat)
    | Add(x: Insn, y: Insn) | Sub(x: Insn, y: Insn) | Mul(x: Insn, y: Insn)
    | Div(x: Insn, y: Insn) | Rem(x: Insn, y: Insn)  // unsigned
    | Bit(op: BitOp, x: Insn, y: Insn)
    | Extend(from: nat, x: Insn) | Shorten(from: nat, x: Insn)
    | IfAtLeast(x: Insn, k: nat, yes: Insn, no: Insn)  // unsigned comparison
    | IfZero(x: Insn, yes: Insn, no: Insn)

  function BitOf(op: BitOp, x: nat, y: nat): (b: nat)
    ensures b <= 1
  {
    match op
    case AndOp => if x == 1 && y == 1 then 1 else 0
    case OrOp => if x == 1 || y == 1 then 1 else 0
    case XorOp => if x == y then 0 else 1
  }

  /** The bitwise operators, bit by bit. */
  function Bits(op: BitOp, x: nat, y: nat): nat
    decreases x + y
  {
    if x == 0 && y == 0 then 0 else BitOf(op, x % 2, y % 2) + 2 * Bits(op, x / 2, y / 2)
  }

  /** The value of `i` in `w` bits. A division by zero is given the value 0 here: the
    * theorem below excludes it. */
  function Value(i: Insn, w: nat, a: nat, b: nat): nat
    decreases i
  {
    match i
    case Lhs => a
    case Rhs => b
    case Const(k) => k
    case Add(x, y) => Encode(Value(x, w, a, b) + Value(y, w, a, b), w)
    case Sub(x, y) => Encode(Value(x, w, a, b) - Value(y, w, a, b), w)
    case Mul(x, y) => Encode(Product(Value(x, w, a, b), Value(y, w, a, b)), w)
    case Div(x, y) => if Value(y, w, a, b) == 0 then 0 else Quot(Value(x, w, a, b), Value(y, w, a, b))
    case Rem(x, y) => if Value(y, w, a, b) == 0 then 0 else Mod(Value(x, w, a, b), Value(y, w, a, b))
    case Bit(op, x, y) => Bits(op, Value(x, w, a, b), Value(y, w, a, b))
    case Extend(from, x) => Value(x, from, a, b)
    case Shorten(from, x) => Encode(Value(x, from, a, b), w)
    case IfAtLeast(x, k, yes, no) => if Value(x, w, a, b) >= k then Value(yes, w, a, b) else Value(no, w, a, b)
    case IfZero(x, yes, no) => if Value(x, w, a, b) == 0 then Value(yes, w, a, b) else Value(no, w, a, b)
  }

  function Product(x: nat, y: nat): nat { x * y }

  // ------------------------------------------------------------ the lowering

  datatype BinOp = Plus | Minus | Times | Divide | Logical(op: BitOp)
  datatype UnOp = Not | Negate | Identity | Abs

  /** `k` when `m` is `2**k`. */
  function Log2(m: nat): (k: Option<nat>)
    requires m > 0
    ensures k.Some? ==> m == Pow2(k.value)
  {
    if m == 1 then Some(0)
    else if m % 2 == 1 then None
    else match Log2(m / 2) case Some(k) => Some(k + 1) case None => None
  }

  predicate FullWidth(m: nat, w: nat)
    requires m > 0
  {
    Log2(m) == Some(w)
  }

  function Plain(op: BinOp): Insn {
    match op
    case Plus => Add(Lhs, Rhs)
    case Minus => Sub(Lhs, Rhs)
    case Times => Mul(Lhs, Rhs)
    case Divide => Div(Lhs, Rhs)
    case Logical(bit) => Bit(bit, Lhs, Rhs)
  }

  /** Reduce a value below `2m` with one conditional subtraction. */
  function ReduceOnce(s: Insn, m: nat): Insn {
    IfAtLeast(s, m, Sub(s, Const(m)), s)
  }

  function LowerBinary(op: BinOp, m: nat, w: nat): Insn
    requires m > 0
  {
    if op.Divide? || FullWidth(m, w) then Plain(op)
    else if Log2(m).Some? then
      if op.Logical? then Plain(op) else Bit(AndOp, Plain(op), Const(Pow2(Log2(m).value) - 1))
    else
      var a, b := Extend(w, Lhs), Extend(w, Rhs);
      match op
      case Times => Shorten(2 * w, Rem(Mul(a, b), Const(m)))
      case Plus => Shorten(2 * w, ReduceOnce(Add(a, b), m))
      case Minus => Shorten(2 * w, ReduceOnce(Sub(Add(a, Const(m)), b), m))
      case Divide => Plain(op)
      case Logical(AndOp) => Plain(op)
      case Logical(_) => ReduceOnce(Plain(op), m)
  }

  function LowerUnary(op: UnOp, m: nat, w: nat): Insn
    requires m > 0
  {
    match op
    case Not => Sub(Const(Mod(Mod(m, Pow2(w)) - 1, Pow2(w))), Lhs)
    case Negate =>
      if FullWidth(m, w) then Sub(Const(0), Lhs) else IfZero(Lhs, Const(0), Sub(Const(Mod(m, Pow2(w))), Lhs))
    case Identity => Lhs
    case Abs => Lhs
  }

  // -------------------------------------------------------- the Ada operators

  function AdaBinary(op: BinOp, m: nat, a: nat, b: nat): int
    requires m > 0 && (op.Divide? ==> b > 0)
  {
    match op
    case Plus => Mod(a + b, m)
    case Minus => Mod(a - b, m)
    case Times => Mod(a * b, m)
    case Divide => Quot(a, b)
    case Logical(bit) => Mod(Bits(bit, a, b), m)
  }

  function AdaUnary(op: UnOp, m: nat, a: nat): int
    requires m > 0
  {
    match op
    case Not => m - 1 - a
    case Negate => Mod(0 - a, m)
    case Identity => a
    case Abs => a
  }

  // ------------------------------------------------------------ bits of words

  lemma {:induction false} Log2Found(k: nat)
    ensures Log2(Pow2(k)) == Some(k)
  {
    if k > 0 { Log2Found(k - 1); }
  }

  lemma {:induction false} BitsBelow(op: BitOp, x: nat, y: nat, k: nat)
    requires x < Pow2(k) && y < Pow2(k)
    ensures Bits(op, x, y) < Pow2(k)
    decreases k
  {
    if k > 0 { BitsBelow(op, x / 2, y / 2, k - 1); }
  }

  lemma {:induction false} AndAtMost(x: nat, y: nat)
    ensures Bits(AndOp, x, y) <= x
    decreases x + y
  {
    if !(x == 0 && y == 0) { AndAtMost(x / 2, y / 2); }
  }

  /** Masking with `2**k - 1` keeps the low `k` bits. */
  lemma {:induction false} MaskKeepsLow(x: nat, k: nat)
    ensures Bits(AndOp, x, Pow2(k) - 1) == Mod(x, Pow2(k))
    decreases k
  {
    if k == 0 {
      AndZero(x);
    } else {
      var mask := Pow2(k) - 1;
      assert mask % 2 == 1 && mask / 2 == Pow2(k - 1) - 1;
      MaskKeepsLow(x / 2, k - 1);
      HalvesMod(x, Pow2(k - 1));
    }
  }

  lemma {:induction false} AndZero(x: nat)
    ensures Bits(AndOp, x, 0) == 0
  {
    if x > 0 { AndZero(x / 2); }
  }

  lemma {:induction false} HalvesMod(x: nat, p: nat)
    requires p > 0
    ensures Mod(x, 2 * p) == x % 2 + 2 * Mod(x / 2, p)
    decreases x
  {
    if x >= 2 * p { HalvesMod(x - 2 * p, p); }
  }

  /** A number that is not a power of two is above half of the power that bounds it. */
  lemma {:induction false} PowerAbove(m: nat) returns (k: nat)
    requires m > 0
    ensures m <= Pow2(k) < 2 * m
  {
    if m == 1 {
      k := 0;
    } else {
      k := PowerAbove((m + 1) / 2);
      k := k + 1;
      if m % 2 == 1 && Pow2(k) >= 2 * m {
        assert Pow2(k - 1) == m;
        OddPower(k - 1);
      }
    }
  }

  lemma OddPower(k: nat)
    requires Pow2(k) % 2 == 1
    ensures k == 0
  {
  }

  /** `or` and `xor` of values below `m` stay below `2m`. */
  lemma BitsBelowTwice(op: BitOp, a: nat, b: nat, m: nat)
    requires a < m && b < m
    ensures Bits(op, a, b) < 2 * m
  {
    var k := PowerAbove(m);
    BitsBelow(op, a, b, k);
  }

  // ------------------------------------------------------------ the theorems

  lemma BelowWidth(m: nat, w: nat)
    requires 0 < m <= Pow2(w) && !FullWidth(m, w)
    ensures m < Pow2(w)
  {
    Log2Found(w);
  }

  lemma SquareFits(a: nat, b: nat, m: nat, w: nat)
    requires w > 0 && a < m && b < m && m <= Pow2(w)
    ensures a * b < Pow2(2 * w) && 2 * Pow2(w) <= Pow2(2 * w)
  {
    Pow2Sum(w, w);
    MulMonotone(a, Pow2(w) - 1, b);
    MulMonotone(b, Pow2(w) - 1, Pow2(w) - 1);
    Pow2Monotone(w + 1, 2 * w);
  }

  /** The power-of-two case: `2**w` is a multiple of `2**k`. */
  lemma MaskedExact(v: int, k: nat, w: nat)
    requires k <= w
    ensures Bits(AndOp, Mod(v, Pow2(w)), Pow2(k) - 1) == Mod(v, Pow2(k))
  {
    MaskKeepsLow(Mod(v, Pow2(w)), k);
    TruncateEncode(v, w, k);
  }

  /** Every binary operator is exact, and its result is a value of the type. */
  lemma BinaryExact(op: BinOp, m: nat, w: nat, a: nat, b: nat)
    requires w > 0 && 1 <= m <= Pow2(w) && a < m && b < m && (op.Divide? ==> b > 0)
    ensures Value(LowerBinary(op, m, w), w, a, b) == AdaBinary(op, m, a, b) && 0 <= AdaBinary(op, m, a, b) < m
  {
    AdaInRange(op, m, a, b);
    match op
    case Plus => PlusExact(m, w, a, b);
    case Minus => MinusExact(m, w, a, b);
    case Times => TimesExact(m, w, a, b);
    case Divide => assert Value(Lhs, w, a, b) == a && Value(Rhs, w, a, b) == b;
    case Logical(bit) => LogicalExact(bit, m, w, a, b);
  }

  lemma AdaInRange(op: BinOp, m: nat, a: nat, b: nat)
    requires a < m && (op.Divide? ==> b > 0)
    ensures 0 <= AdaBinary(op, m, a, b) < m
  {
  }

  /** Both operands, in twice the width. */
  lemma WideOperands(w: nat, a: nat, b: nat)
    ensures Value(Extend(w, Lhs), 2 * w, a, b) == a && Value(Extend(w, Rhs), 2 * w, a, b) == b
  {
    assert Value(Lhs, w, a, b) == a && Value(Rhs, w, a, b) == b;
  }

  /** One conditional subtraction reduces a value below `2m`. */
  lemma ReducesOnce(s: Insn, m: nat, w: nat, a: nat, b: nat, v: nat)
    requires m > 0 && Value(s, w, a, b) == v < 2 * m && v < Pow2(w)
    ensures Value(ReduceOnce(s, m), w, a, b) == Mod(v, m)
  {
    ModNear(v, m);
    assert Value(Const(m), w, a, b) == m;
    if v >= m {
      assert Value(Sub(s, Const(m)), w, a, b) == Mod(v - m, Pow2(w));
    }
  }

  lemma Shortens(x: Insn, m: nat, w: nat, a: nat, b: nat, v: nat)
    requires Value(x, 2 * w, a, b) == v < Pow2(w)
    ensures Value(Shorten(2 * w, x), w, a, b) == v
  {
  }

  /** With a power of two below the width, the low bits are kept. */
  lemma MaskExact(op: BinOp, v: int, m: nat, w: nat, a: nat, b: nat)
    requires op.Plus? || op.Minus? || op.Times?
    requires 1 <= m <= Pow2(w) && Log2(m).Some? && !FullWidth(m, w)
    requires Value(Plain(op), w, a, b) == Mod(v, Pow2(w))
    ensures Value(LowerBinary(op, m, w), w, a, b) == Mod(v, m)
  {
    var k := Log2(m).value;
    LowerMasked(op, m, w, k);
    ExponentBelow(m, w);
    MaskValue(Plain(op), v, k, m, w, a, b);
  }

  lemma LowerMasked(op: BinOp, m: nat, w: nat, k: nat)
    requires (op.Plus? || op.Minus? || op.Times?) && m > 0 && Log2(m) == Some(k) && k != w
    ensures LowerBinary(op, m, w) == Bit(AndOp, Plain(op), Const(m - 1))
  {
  }

  lemma MaskValue(i: Insn, v: int, k: nat, m: nat, w: nat, a: nat, b: nat)
    requires k <= w && Value(i, w, a, b) == Mod(v, Pow2(w)) && m == Pow2(k)
    ensures Value(Bit(AndOp, i, Const(m - 1)), w, a, b) == Mod(v, m)
  {
    MaskedExact(v, k, w);
  }

  lemma PlusExact(m: nat, w: nat, a: nat, b: nat)
    requires w > 0 && 1 <= m <= Pow2(w) && a < m && b < m
    ensures Value(LowerBinary(Plus, m, w), w, a, b) == Mod(a + b, m)
  {
    assert Value(Plain(Plus), w, a, b) == Mod(a + b, Pow2(w));
    if FullWidth(m, w) {
    } else if Log2(m).Some? {
      MaskExact(Plus, a + b, m, w, a, b);
    } else {
      var s := Add(Extend(w, Lhs), Extend(w, Rhs));
      SquareFits(a, b, m, w);
      WideOperands(w, a, b);
      assert Value(s, 2 * w, a, b) == a + b;
      ReducesOnce(s, m, 2 * w, a, b, a + b);
      Shortens(ReduceOnce(s, m), m, w, a, b, Mod(a + b, m));
    }
  }

  lemma MinusExact(m: nat, w: nat, a: nat, b: nat)
    requires w > 0 && 1 <= m <= Pow2(w) && a < m && b < m
    ensures Value(LowerBinary(Minus, m, w), w, a, b) == Mod(a - b, m)
  {
    assert Value(Plain(Minus), w, a, b) == Mod(a - b, Pow2(w));
    if FullWidth(m, w) {
    } else if Log2(m).Some? {
      MaskExact(Minus, a - b, m, w, a, b);
    } else {
      MinusWide(m, w, a, b);
    }
  }

  /** `a + m - b` cannot go below zero. */
  lemma MinusWide(m: nat, w: nat, a: nat, b: nat)
    requires w > 0 && 1 <= m <= Pow2(w) && a < m && b < m
    ensures Value(Shorten(2 * w, ReduceOnce(Sub(Add(Extend(w, Lhs), Const(m)), Extend(w, Rhs)), m)), w, a, b)
      == Mod(a - b, m)
  {
    var sum := Add(Extend(w, Lhs), Const(m));
    var s := Sub(sum, Extend(w, Rhs));
    SquareFits(a, b, m, w);
    WideOperands(w, a, b);
    assert Value(Const(m), 2 * w, a, b) == m;
    assert Value(sum, 2 * w, a, b) == a + m;
    assert Value(s, 2 * w, a, b) == a + m - b;
    ReducesOnce(s, m, 2 * w, a, b, a + m - b);
    ModOnce(a - b, m);
    Shortens(ReduceOnce(s, m), m, w, a, b, Mod(a - b, m));
  }

  lemma TimesExact(m: nat, w: nat, a: nat, b: nat)
    requires w > 0 && 1 <= m <= Pow2(w) && a < m && b < m
    ensures Value(LowerBinary(Times, m, w), w, a, b) == Mod(a * b, m)
  {
    assert Value(Plain(Times), w, a, b) == Mod(a * b, Pow2(w));
    if FullWidth(m, w) {
    } else if Log2(m).Some? {
      MaskExact(Times, a * b, m, w, a, b);
    } else {
      TimesWide(m, w, a, b);
    }
  }

  /** The product of two values below `2**w` fits twice the width. */
  lemma TimesWide(m: nat, w: nat, a: nat, b: nat)
    requires w > 0 && 1 <= m <= Pow2(w) && a < m && b < m
    ensures Value(Shorten(2 * w, Rem(Mul(Extend(w, Lhs), Extend(w, Rhs)), Const(m))), w, a, b) == Mod(a * b, m)
  {
    var t := Mul(Extend(w, Lhs), Extend(w, Rhs));
    SquareFits(a, b, m, w);
    WideOperands(w, a, b);
    assert Value(t, 2 * w, a, b) == a * b;
    assert Value(Const(m), 2 * w, a, b) == m;
    assert Value(Rem(t, Const(m)), 2 * w, a, b) == Mod(a * b, m);
    Shortens(Rem(t, Const(m)), m, w, a, b, Mod(a * b, m));
  }

  lemma ExponentBelow(m: nat, w: nat)
    requires 1 <= m <= Pow2(w) && Log2(m).Some?
    ensures Log2(m).value <= w
  {
    if Log2(m).value > w { Pow2Monotone(w + 1, Log2(m).value); }
  }

  lemma LogicalExact(bit: BitOp, m: nat, w: nat, a: nat, b: nat)
    requires w > 0 && 1 <= m <= Pow2(w) && a < m && b < m
    ensures Value(LowerBinary(Logical(bit), m, w), w, a, b) == Mod(Bits(bit, a, b), m)
  {
    var r, plain := Bits(bit, a, b), Plain(Logical(bit));
    assert Value(plain, w, a, b) == r;
    if Log2(m).Some? {
      BitsBelow(bit, a, b, Log2(m).value);
    } else if bit.AndOp? {
      AndAtMost(a, b);
    } else {
      Log2Found(w);
      BitsBelowTwice(bit, a, b, m);
      BitsBelow(bit, a, b, w);
      ReducesOnce(plain, m, w, a, b, r);
    }
  }

  // --------------------------------------------------- the bitwise operators

  /** Bit `k` of `x`. */
  function BitAt(x: nat, k: nat): (b: nat)
    ensures b <= 1
  {
    if k == 0 then x % 2 else BitAt(x / 2, k - 1)
  }

  lemma {:induction false} BitAtIs(x: nat, k: nat)
    ensures BitAt(x, k) == x / Pow2(k) % 2
    decreases k
  {
    if k > 0 {
      BitAtIs(x / 2, k - 1);
      HalfQuotient(x, Pow2(k - 1));
    }
  }

  lemma HalfQuotient(x: nat, p: nat)
    requires p > 0
    ensures x / 2 / p == x / (2 * p)
  {
    var q, r := x / (2 * p), x % (2 * p);
    assert x == q * (2 * p) + r == 2 * (q * p) + r;
    assert x / 2 == q * p + r / 2;
    QuotientOf(x / 2, p, q, r / 2);
  }

  /** Section 4.5.1, for one bit of each operand and of the result. */
  predicate BitRelation(op: BitOp, x: nat, y: nat, r: nat) {
    match op
    case AndOp => r == 1 <==> x == 1 && y == 1
    case OrOp => r == 1 <==> x == 1 || y == 1
    case XorOp => r == 1 <==> x != y
  }

  /** `r` is the bitwise result: every bit of it is that of the operands' bits. */
  ghost predicate Bitwise(op: BitOp, x: nat, y: nat, r: nat) {
    forall k: nat :: BitRelation(op, BitAt(x, k), BitAt(y, k), BitAt(r, k))
  }

  lemma {:induction false} BitsBitwise(op: BitOp, x: nat, y: nat)
    ensures Bitwise(op, x, y, Bits(op, x, y))
    decreases x + y
  {
    var r := Bits(op, x, y);
    if x == 0 && y == 0 {
      forall k: nat ensures BitRelation(op, BitAt(x, k), BitAt(y, k), BitAt(r, k)) { ZeroBits(k); }
    } else {
      BitsBitwise(op, x / 2, y / 2);
      assert r % 2 == BitOf(op, x % 2, y % 2) && r / 2 == Bits(op, x / 2, y / 2);
      forall k: nat ensures BitRelation(op, BitAt(x, k), BitAt(y, k), BitAt(r, k)) {
        if k > 0 { assert BitRelation(op, BitAt(x / 2, k - 1), BitAt(y / 2, k - 1), BitAt(r / 2, k - 1)); }
      }
    }
  }

  lemma {:induction false} ZeroBits(k: nat)
    ensures BitAt(0, k) == 0
  {
    if k > 0 { ZeroBits(k - 1); }
  }

  /** A number is its bits. */
  lemma {:induction false} SameBits(x: nat, y: nat)
    requires forall k: nat :: BitAt(x, k) == BitAt(y, k)
    ensures x == y
    decreases x + y
  {
    if x > 0 || y > 0 {
      assert BitAt(x, 0) == BitAt(y, 0);
      forall k: nat ensures BitAt(x / 2, k) == BitAt(y / 2, k) { assert BitAt(x, k + 1) == BitAt(y, k + 1); }
      SameBits(x / 2, y / 2);
    }
  }

  /** There is one bitwise result, and the emitted code for a logical operator reduces it
    * modulo the modulus. */
  lemma LogicalMeans(op: BitOp, m: nat, w: nat, a: nat, b: nat, r: nat)
    requires w > 0 && 1 <= m <= Pow2(w) && a < m && b < m && Bitwise(op, a, b, r)
    ensures Value(LowerBinary(Logical(op), m, w), w, a, b) == r % m
  {
    BitsBitwise(op, a, b);
    forall k: nat ensures BitAt(r, k) == BitAt(Bits(op, a, b), k) {
      assert BitRelation(op, BitAt(a, k), BitAt(b, k), BitAt(r, k));
      assert BitRelation(op, BitAt(a, k), BitAt(b, k), BitAt(Bits(op, a, b), k));
    }
    SameBits(r, Bits(op, a, b));
    LogicalExact(op, m, w, a, b);
    ModIsRemainder(r, m);
  }

  lemma UnaryExact(op: UnOp, m: nat, w: nat, a: nat)
    requires w > 0 && 1 <= m <= Pow2(w) && a < m
    ensures Value(LowerUnary(op, m, w), w, a, 0) == AdaUnary(op, m, a) && 0 <= AdaUnary(op, m, a) < m
  {
    match op
    case Not => NotExact(m, w, a);
    case Negate => NegateExact(m, w, a);
    case _ =>
  }

  /** Full-width `not` subtracts from all ones: the modulus itself truncates to zero. */
  lemma NotExact(m: nat, w: nat, a: nat)
    requires w > 0 && 1 <= m <= Pow2(w) && a < m
    ensures Value(LowerUnary(Not, m, w), w, a, 0) == m - 1 - a
  {
    var hi := Mod(Mod(m, Pow2(w)) - 1, Pow2(w));
    ModNear(m, Pow2(w));
    ModNear(Mod(m, Pow2(w)) - 1, Pow2(w));
    assert hi == m - 1;
    assert Value(Const(hi), w, a, 0) == hi;
  }

  lemma NegateExact(m: nat, w: nat, a: nat)
    requires w > 0 && 1 <= m <= Pow2(w) && a < m
    ensures Value(LowerUnary(Negate, m, w), w, a, 0) == Mod(0 - a, m)
  {
    if FullWidth(m, w) {
      assert Value(Const(0), w, a, 0) == 0;
    } else {
      BelowWidth(m, w);
      NegateReduced(m, w, a);
    }
  }

  lemma NegateReduced(m: nat, w: nat, a: nat)
    requires w > 0 && a < m < Pow2(w)
    ensures Value(IfZero(Lhs, Const(0), Sub(Const(Mod(m, Pow2(w))), Lhs)), w, a, 0) == Mod(0 - a, m)
  {
    assert Value(Const(m), w, a, 0) == m && Value(Const(0), w, a, 0) == 0;
    if a > 0 {
      assert Value(Sub(Const(m), Lhs), w, a, 0) == m - a;
    }
  }
}
