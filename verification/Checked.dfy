/** Signed arithmetic with overflow checks, and division: which checks are
  * emitted, and why those that are not could never fail (sections 4.5 and 11.5
  * of the Ada Reference Manual).
  */
module Checked {
  import opened Options
  import opened Words

  datatype BinOp = Plus | Minus | Times
  datatype UnOp = Negate | Abs | Identity

  /** An expression of a signed type. An operator with its overflow check suppressed
    * wraps around. Constants and variables are machine words. */
  datatype Expr =
    | Var(x: nat)
    | Const(word: nat)
    | Binary(op: BinOp, checked: bool, l: Expr, r: Expr)
    | Unary(uop: UnOp, checked: bool, x1: Expr)

  type Env = nat -> nat

  predicate Valid(e: Expr, w: nat) {
    match e
    case Var(_) => true
    case Const(k) => k < Pow2(w)
    case Binary(_, _, l, r) => Valid(l, w) && Valid(r, w)
    case Unary(_, _, x) => Valid(x, w)
  }

  function Signed(word: nat, w: nat): int { Decode(word, w, false) }

  function Product(x: int, y: int): int { x * y }

  /** The mathematical results of the operators. */
  function BinaryOf(op: BinOp, x: int, y: int): int {
    match op
    case Plus => x + y
    case Minus => x - y
    case Times => Product(x, y)
  }

  function UnaryOf(op: UnOp, x: int): int {
    match op
    case Negate => 0 - x
    case Abs => if x < 0 then 0 - x else x
    case Identity => x
  }

  /** Section 4.5: the value, or none when a checked result is not in the base range. */
  function Meaning(e: Expr, w: nat, env: Env): Option<nat> {
    match e
    case Var(x) => Some(env(x))
    case Const(k) => Some(k)
    case Binary(op, checked, l, r) =>
      var x :- Meaning(l, w, env);
      var y :- Meaning(r, w, env);
      Result(BinaryOf(op, Signed(x, w), Signed(y, w)), checked, w)
    case Unary(op, checked, e1) =>
      var x :- Meaning(e1, w, env);
      if op.Identity? then Some(x) else Result(UnaryOf(op, Signed(x, w)), checked, w)
  }

  function Result(v: int, checked: bool, w: nat): Option<nat> {
    if checked && !Fits(v, w, false) then None else Some(Encode(v, w))
  }

  // ------------------------------------------------------- constant folding

  /** The word of a checked constant expression that does not overflow. */
  function EvalConst(e: Expr, w: nat): Option<nat> {
    match e
    case Var(_) => None
    case Const(k) => Some(k)
    case Unary(Identity, _, x) => EvalConst(x, w)
    case Unary(op, checked, e1) =>
      if !checked then None else
      var x :- EvalConst(e1, w);
      if op.Abs? && Signed(x, w) >= 0 then Some(x) else Overflowing(0 - Signed(x, w), w)
    case Binary(op, checked, l, r) =>
      if !checked then None else
      var x :- EvalConst(l, w);
      var y :- EvalConst(r, w);
      Overflowing(BinaryOf(op, Signed(x, w), Signed(y, w)), w)
  }

  /** A machine result with its overflow flag: none when it is set. */
  function Overflowing(v: int, w: nat): Option<nat> {
    if Fits(v, w, false) then Some(Encode(v, w)) else None
  }

  // ------------------------------------------------------------ the lowering

  /** The operations that are emitted, with or without an overflow test. */
  datatype Insn =
    | Load(x: nat)
    | Word(k: nat)
    | Arith(op: BinOp, tested: bool, l: Insn, r: Insn)
    | FromZero(tested: bool, x1: Insn)    // 0 - x
    | AbsSelect(tested: bool, x2: Insn)   // x < 0 ? 0 - x : x

  function Lower(e: Expr, w: nat): Insn {
    match e
    case Var(x) => Load(x)
    case Const(k) => Word(k)
    case Binary(op, checked, l, r) => Arith(op, checked && EvalConst(e, w).None?, Lower(l, w), Lower(r, w))
    case Unary(Negate, checked, x) => FromZero(checked && EvalConst(e, w).None?, Lower(x, w))
    case Unary(Abs, checked, x) => AbsSelect(checked && EvalConst(e, w).None?, Lower(x, w))
    case Unary(Identity, _, x) => Lower(x, w)
  }

  /** Executing the emitted operations: a tested overflow raises. The negation under
    * `AbsSelect` is computed, and tested, even when it is not selected. */
  function Run(i: Insn, w: nat, env: Env): Option<nat> {
    match i
    case Load(x) => Some(env(x))
    case Word(k) => Some(k)
    case Arith(op, tested, l, r) =>
      var x :- Run(l, w, env);
      var y :- Run(r, w, env);
      Result(BinaryOf(op, Signed(x, w), Signed(y, w)), tested, w)
    case FromZero(tested, i1) =>
      var x :- Run(i1, w, env);
      Result(0 - Signed(x, w), tested, w)
    case AbsSelect(tested, i1) =>
      var x :- Run(i1, w, env);
      var neg :- Result(0 - Signed(x, w), tested, w);
      Some(if Signed(x, w) < 0 then neg else x)
  }

  // ------------------------------------------------------------ the theorems

  ghost predicate InWords(env: Env, w: nat) { forall x :: env(x) < Pow2(w) }

  lemma {:induction false} MeaningIsWord(e: Expr, w: nat, env: Env)
    requires w > 0 && Valid(e, w) && InWords(env, w)
    ensures Meaning(e, w, env).Some? ==> Meaning(e, w, env).value < Pow2(w)
  {
    if e.Unary? { MeaningIsWord(e.x1, w, env); }
  }

  /** What constant folding finds is what the expression means: it cannot raise. */
  lemma {:induction false} EvalConstMeans(e: Expr, w: nat, env: Env)
    requires w > 0 && Valid(e, w) && InWords(env, w) && EvalConst(e, w).Some?
    ensures Meaning(e, w, env) == EvalConst(e, w)
  {
    match e
    case Const(_) =>
    case Binary(_, _, l, r) =>
      EvalConstMeans(l, w, env);
      EvalConstMeans(r, w, env);
    case Unary(op, _, x) =>
      EvalConstMeans(x, w, env);
      MeaningIsWord(x, w, env);
      if op.Abs? { EncodeDecode(EvalConst(x, w).value, w, false); }
  }

  /** Every tree: the emitted operations raise exactly when some checked result
    * does not fit, and otherwise compute the value. A test left out because the
    * operands are constants could never have failed. */
  lemma {:induction false} LowerMeans(e: Expr, w: nat, env: Env)
    requires w > 0 && Valid(e, w) && InWords(env, w)
    ensures Run(Lower(e, w), w, env) == Meaning(e, w, env)
  {
    if EvalConst(e, w).Some? { EvalConstMeans(e, w, env); }
    match e
    case Var(_) =>
    case Const(_) =>
    case Binary(_, _, l, r) =>
      LowerMeans(l, w, env);
      LowerMeans(r, w, env);
    case Unary(op, _, x) =>
      LowerMeans(x, w, env);
      MeaningIsWord(x, w, env);
      if op.Abs? && Meaning(x, w, env).Some? { AbsNegates(Meaning(x, w, env).value, w); }
  }

  /** Negating a value that is not negative never overflows. */
  lemma AbsNegates(x: nat, w: nat)
    requires w > 0 && x < Pow2(w)
    ensures Signed(x, w) >= 0 ==> Fits(0 - Signed(x, w), w, false) && Encode(Signed(x, w), w) == x
  {
    EncodeDecode(x, w, false);
  }

  // ----------------------------------------- whole trees of checked operators

  predicate AllChecked(e: Expr) {
    match e
    case Binary(_, checked, l, r) => checked && AllChecked(l) && AllChecked(r)
    case Unary(_, checked, x) => checked && AllChecked(x)
    case _ => true
  }

  /** The mathematical value of an expression. */
  function Exact(e: Expr, w: nat, env: Env): int {
    match e
    case Var(x) => Signed(env(x), w)
    case Const(k) => Signed(k, w)
    case Binary(Plus, _, l, r) => Exact(l, w, env) + Exact(r, w, env)
    case Binary(Minus, _, l, r) => Exact(l, w, env) - Exact(r, w, env)
    case Binary(Times, _, l, r) => Exact(l, w, env) * Exact(r, w, env)
    case Unary(Negate, _, x) => 0 - Exact(x, w, env)
    case Unary(Identity, _, x) => Exact(x, w, env)
    case Unary(Abs, _, x) => if Exact(x, w, env) < 0 then 0 - Exact(x, w, env) else Exact(x, w, env)
  }

  /** No operator's mathematical result is outside the base range. */
  predicate AllFit(e: Expr, w: nat, env: Env) {
    && Fits(Exact(e, w, env), w, false)
    && match e
       case Binary(_, _, l, r) => AllFit(l, w, env) && AllFit(r, w, env)
       case Unary(_, _, x) => AllFit(x, w, env)
       case _ => true
  }

  /** A checked tree raises exactly when the mathematical result of some node does not
    * fit, and otherwise yields the word of the mathematical value. */
  lemma {:induction false} CheckedExact(e: Expr, w: nat, env: Env)
    requires w > 0 && Valid(e, w) && InWords(env, w) && AllChecked(e)
    ensures Meaning(e, w, env).Some? <==> AllFit(e, w, env)
    ensures AllFit(e, w, env) ==> Meaning(e, w, env) == Some(Encode(Exact(e, w, env), w))
  {
    match e
    case Var(x) => EncodeDecode(env(x), w, false);
    case Const(k) => EncodeDecode(k, w, false);
    case Binary(op, _, l, r) =>
      CheckedExact(l, w, env);
      CheckedExact(r, w, env);
      if AllFit(l, w, env) && AllFit(r, w, env) {
        DecodeEncode(Exact(l, w, env), w, false);
        DecodeEncode(Exact(r, w, env), w, false);
        assert Exact(e, w, env) == BinaryOf(op, Exact(l, w, env), Exact(r, w, env));
      }
    case Unary(_, _, x) =>
      CheckedExact(x, w, env);
      if AllFit(x, w, env) { DecodeEncode(Exact(x, w, env), w, false); }
  }

  lemma LoweredExact(e: Expr, w: nat, env: Env)
    requires w > 0 && Valid(e, w) && InWords(env, w) && AllChecked(e)
    ensures Run(Lower(e, w), w, env) == if AllFit(e, w, env) then Some(Encode(Exact(e, w, env), w)) else None
  {
    LowerMeans(e, w, env);
    CheckedExact(e, w, env);
  }

  // -------------------------------------------------- trees without any check

  /** Nothing is checked, and nothing depends on a sign. */
  predicate Unchecked(e: Expr) {
    match e
    case Binary(_, checked, l, r) => !checked && Unchecked(l) && Unchecked(r)
    case Unary(op, checked, x) => (op.Identity? || (op.Negate? && !checked)) && Unchecked(x)
    case _ => true
  }

  /** Words that stand for the same residue. */
  lemma ResidueOf(v: int, w: nat)
    requires w > 0
    ensures exists k: int :: v == Signed(Encode(v, w), w) + k * Pow2(w)
  {
    var m, x := Pow2(w), Encode(v, w);
    ModIsRemainder(v, m);
    var q := v / m;
    assert v == x + q * m;
    assert (q + 1) * m == q * m + m;
    assert v == Signed(x, w) + (if Signed(x, w) == x then q else q + 1) * m;
  }

  lemma ProductOfSums(a: int, b: int, j: int, k: int, m: int)
    ensures (a + j * m) * (b + k * m) == a * b + (a * k + b * j + j * k * m) * m
  {
    assert (a + j * m) * (b + k * m) == a * b + a * (k * m) + (j * m) * b + (j * m) * (k * m);
    assert a * (k * m) == a * k * m && (j * m) * b == b * j * m && (j * m) * (k * m) == (j * k * m) * m;
  }

  /** Wrapping each operand first does not change what the result wraps to. */
  lemma WrapsOperands(op: BinOp, x: int, y: int, w: nat)
    requires w > 0
    ensures Encode(BinaryOf(op, Signed(Encode(x, w), w), Signed(Encode(y, w), w)), w)
         == Encode(if op.Plus? then x + y else if op.Minus? then x - y else x * y, w)
  {
    ResidueOf(x, w);
    ResidueOf(y, w);
    var a, b := Signed(Encode(x, w), w), Signed(Encode(y, w), w);
    var j: int :| x == a + j * Pow2(w);
    var k: int :| y == b + k * Pow2(w);
    OperandsApart(op, a, b, j, k, w);
  }

  lemma OperandsApart(op: BinOp, a: int, b: int, j: int, k: int, w: nat)
    ensures var x, y := a + j * Pow2(w), b + k * Pow2(w);
            Encode(BinaryOf(op, a, b), w) == Encode(if op.Plus? then x + y else if op.Minus? then x - y else x * y, w)
  {
    var m := Pow2(w);
    match op
    case Plus =>
      assert (a + j * m) + (b + k * m) == (a + b) + (j + k) * m;
      SameResidue(a + b, j + k, w);
    case Minus =>
      assert (a + j * m) - (b + k * m) == (a - b) + (j - k) * m;
      SameResidue(a - b, j - k, w);
    case Times =>
      ProductOfSums(a, b, j, k, m);
      SameResidue(a * b, a * k + b * j + j * k * m, w);
  }

  lemma SameResidue(v: int, k: int, w: nat)
    ensures Encode(v + k * Pow2(w), w) == Encode(v, w)
  {
    if k >= 0 {
      ModShift(v, k, Pow2(w));
    } else {
      var n := 0 - k;
      assert (v + k * Pow2(w)) + n * Pow2(w) == v;
      ModShift(v + k * Pow2(w), n, Pow2(w));
    }
  }

  /** With its checks suppressed a tree computes the mathematical value modulo `2**w`,
    * however often it overflows on the way. */
  lemma {:induction false} UncheckedExact(e: Expr, w: nat, env: Env)
    requires w > 0 && Valid(e, w) && InWords(env, w) && Unchecked(e)
    ensures Run(Lower(e, w), w, env) == Some(Encode(Exact(e, w, env), w))
  {
    match e
    case Var(x) => EncodeDecode(env(x), w, false);
    case Const(k) => EncodeDecode(k, w, false);
    case Binary(op, _, l, r) =>
      UncheckedExact(l, w, env);
      UncheckedExact(r, w, env);
      WrapsOperands(op, Exact(l, w, env), Exact(r, w, env), w);
    case Unary(op, _, x) =>
      UncheckedExact(x, w, env);
      if op.Negate? {
        WrapsOperands(Minus, 0, Exact(x, w, env), w);
        DecodeEncode(0, w, false);
      }
  }

  /** A checked increment raises for the greatest value only. */
  lemma IncrementRaises(a: nat, w: nat)
    requires w > 1 && a < Pow2(w)
    ensures var e, env := Binary(Plus, true, Var(0), Const(1)), (x: nat) => a;
            Run(Lower(e, w), w, env) ==
              if Decode(a, w, false) == Last(w, false) then None else Some(Encode(Decode(a, w, false) + 1, w))
  {
    var e, env := Binary(Plus, true, Var(0), Const(1)), (x: nat) => a;
    assert Pow2(w - 1) >= 2 by { assert Pow2(w - 2) >= 1; }
    EncodeDecode(a, w, false);
    assert Signed(1, w) == 1;
    assert Exact(e, w, env) == Signed(a, w) + 1;
    LoweredExact(e, w, env);
  }

  // ------------------------------------------------ which tests are left out

  /** A checked expression without variables. */
  predicate Closed(e: Expr) {
    match e
    case Var(_) => false
    case Const(_) => true
    case Binary(_, checked, l, r) => checked && Closed(l) && Closed(r)
    case Unary(op, checked, x) => (op.Identity? || checked) && Closed(x)
  }

  /** Constant folding finds the value of exactly the checked expressions without
    * variables none of whose results overflows. */
  lemma {:induction false} FoldsExactly(e: Expr, w: nat, env: Env)
    requires w > 0 && Valid(e, w)
    ensures EvalConst(e, w).Some? <==> Closed(e) && AllFit(e, w, env)
    ensures EvalConst(e, w).Some? ==> EvalConst(e, w).value == Encode(Exact(e, w, env), w)
  {
    match e
    case Var(_) =>
    case Const(k) => EncodeDecode(k, w, false);
    case Binary(_, _, l, r) =>
      FoldsExactly(l, w, env);
      FoldsExactly(r, w, env);
      if EvalConst(l, w).Some? { DecodeEncode(Exact(l, w, env), w, false); }
      if EvalConst(r, w).Some? { DecodeEncode(Exact(r, w, env), w, false); }
    case Unary(_, _, x) =>
      FoldsExactly(x, w, env);
      if EvalConst(x, w).Some? { DecodeEncode(Exact(x, w, env), w, false); }
  }

  /** Whether the operation emitted for an operator tests for overflow. */
  predicate Tested(i: Insn) {
    match i
    case Arith(_, tested, _, _) => tested
    case FromZero(tested, _) => tested
    case AbsSelect(tested, _) => tested
    case _ => false
  }

  /** A checked operator is tested unless it is a constant that does not overflow; an
    * operator whose check is suppressed is not tested. */
  lemma TestedExactly(e: Expr, w: nat, env: Env)
    requires w > 0 && Valid(e, w)
    ensures e.Binary? ==> (Tested(Lower(e, w)) <==> e.checked && !(Closed(e) && AllFit(e, w, env)))
    ensures e.Unary? && !e.uop.Identity? ==>
              (Tested(Lower(e, w)) <==> e.checked && !(Closed(e) && AllFit(e, w, env)))
  {
    FoldsExactly(e, w, env);
  }

  // ---------------------------------------------------------------- division

  /** A quotient, rounded toward zero (section 4.5.5). */
  function Truncated(a: int, b: int): int
    requires b != 0
  {
    var q := Quot(Magnitude(a), Magnitude(b));
    if (a < 0) == (b < 0) then q else 0 - q
  }

  function Magnitude(x: int): (r: nat)
    ensures x != 0 ==> r > 0
  {
    if x < 0 then 0 - x else x
  }

  /** The quotient is rounded toward zero: the remainder is smaller than the divisor, and
    * has the sign of the dividend. */
  lemma TruncatedIs(a: int, b: int)
    requires b != 0
    ensures var r := a - Truncated(a, b) * b;
            Magnitude(r) < Magnitude(b) && (r != 0 ==> (r < 0 <==> a < 0))
    ensures Magnitude(a) == (if a < 0 then 0 - a else a) && Magnitude(b) == if b < 0 then 0 - b else b
  {
    var x, y := Magnitude(a), Magnitude(b);
    var q := Quot(x, y);
    QuotMod(x, y);
    assert x == q * y + Mod(x, y);
    if a < 0 {
      if b < 0 { assert q * b == 0 - q * y; } else { assert (0 - q) * b == 0 - q * y; }
    } else if b < 0 {
      assert (0 - q) * b == q * y;
    }
  }

  datatype Divided = Quotient(word: nat) | Raises | Undefined

  /** The divide instruction: undefined for a zero divisor, and for the signed
    * quotient that no word holds. */
  function Divide(a: nat, b: nat, w: nat, unsigned: bool): Divided
    requires w > 0 && b < Pow2(w)
  {
    if b == 0 then Undefined
    else if !unsigned && Signed(a, w) == First(w, false) && Signed(b, w) == -1 then Undefined
    else Quotient(Encode(Truncated(Decode(a, w, unsigned), Decode(b, w, unsigned)), w))
  }

  /** The zero test, the overflow test of a signed division, then the divide. */
  function LowerDivide(a: nat, b: nat, w: nat, unsigned: bool, guarded: bool): Divided
    requires w > 0 && b < Pow2(w)
  {
    if guarded && b == 0 then Raises
    else if guarded && !unsigned && a == Encode(First(w, false), w) && b == Encode(-1, w) then Raises
    else Divide(a, b, w, unsigned)
  }

  /** The constant divisor behind a conversion, as a word of its own type: none when
    * the program is rejected. */
  function NeedsGuard(divisor: nat, width: nat, unsigned: bool): Option<bool> {
    if divisor == 0 then None else Some(!(unsigned || divisor != Pow2(width) - 1))
  }

  /** Dividing by one changes nothing, and by more at least halves. */
  lemma {:induction false} QuotientSmaller(a: nat, b: nat)
    requires b > 0
    ensures if b == 1 then Quot(a, b) == a else 2 * Quot(a, b) <= a
    decreases a
  {
    if a >= b { QuotientSmaller(a - b, b); }
  }

  /** In a range of `p` values below zero and `p` from zero on, only the quotient of the
    * least value by -1 is outside. */
  lemma TruncatedFits(x: int, y: int, p: nat)
    requires y != 0 && 0 - p <= x < p
    ensures 0 - p <= Truncated(x, y) < p <==> !(x == 0 - p && y == -1)
  {
    QuotientSmaller(Magnitude(x), Magnitude(y));
  }

  /** Zero divisors, and the minimum by -1, are the only undefined cases: every other
    * quotient is a value of the type. */
  lemma QuotientFits(a: nat, b: nat, w: nat, unsigned: bool)
    requires w > 0 && a < Pow2(w) && 0 < b < Pow2(w)
    ensures Decode(b, w, unsigned) != 0
    ensures Fits(Truncated(Decode(a, w, unsigned), Decode(b, w, unsigned)), w, unsigned)
       <==> !(!unsigned && Signed(a, w) == First(w, false) && Signed(b, w) == -1)
  {
    if unsigned {
      QuotientSmaller(a, b);
    } else {
      TruncatedFits(Signed(a, w), Signed(b, w), Pow2(w - 1));
    }
  }

  /** Guarded division raises exactly for a zero divisor and for the quotient that
    * does not fit, which is where unguarded division is undefined, is never undefined
    * itself, and otherwise yields the quotient. */
  lemma DivisionExact(a: nat, b: nat, w: nat, unsigned: bool)
    requires w > 0 && a < Pow2(w) && b < Pow2(w)
    ensures var x, y := Decode(a, w, unsigned), Decode(b, w, unsigned);
            LowerDivide(a, b, w, unsigned, true) ==
              if y == 0 || !Fits(Truncated(x, y), w, unsigned) then Raises else Quotient(Encode(Truncated(x, y), w))
    ensures LowerDivide(a, b, w, unsigned, false).Undefined? <==> LowerDivide(a, b, w, unsigned, true).Raises?
  {
    EncodeDecode(a, w, unsigned);
    EncodeDecode(b, w, unsigned);
    DecodeEncode(-1, w, false);
    DecodeEncode(First(w, false), w, false);
    if b > 0 { QuotientFits(a, b, w, unsigned); }
  }

  /** Leaving out the guard for a constant divisor changes nothing: `c` is the divisor's
    * value, a word of its own type, and what the conversion makes of it. */
  lemma GuardElided(a: nat, b: nat, w: nat, unsigned: bool, c: nat, width: nat, cUnsigned: bool)
    requires w > 0 && a < Pow2(w) && b < Pow2(w) && width > 0 && c < Pow2(width)
    requires Decode(c, width, cUnsigned) == Decode(b, w, unsigned)
    ensures NeedsGuard(c, width, unsigned).None? <==> b == 0
    ensures NeedsGuard(c, width, unsigned) == Some(true) <==> !unsigned && Signed(c, width) == -1
    ensures NeedsGuard(c, width, unsigned) == Some(false) ==>
      LowerDivide(a, b, w, unsigned, false) == LowerDivide(a, b, w, unsigned, true)
  {
    EncodeDecode(b, w, unsigned);
    EncodeDecode(c, width, cUnsigned);
    DecodeEncode(-1, w, false);
  }
}
