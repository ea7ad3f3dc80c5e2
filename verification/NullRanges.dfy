/** For loops with null ranges. The emitted code converts both bounds to the subtype of
  * the parameter before it tests for a null range; section 5.5 of the Ada Reference
  * Manual gives such a loop no iteration, whatever its bounds. Here is exactly when
  * the two agree, for one loop and for whole bodies.
  */
module NullRanges {
  import opened Options
  import opened Statements
  import opened Outcomes
  import opened Cfg
  import opened CfgSimulation
  import opened CfgBody

  /** The rules of section 5.5, with the given evaluation of expressions. */
  function Standard(eval: Eval): Rules { Rules(eval.value, Skipped) }

  /** No outcome for a run that meets a null range with a bound outside its subtype. */
  function Cautious(eval: Eval): Rules { Rules(eval.value, Undecided) }

  /** Evaluating the bounds yields `lo` and `hi`, and leaves the objects in `store`. */
  ghost predicate BoundsAre(eval: Eval, stmt: Stmt, s: State, lo: int, hi: int, store: Store)
    requires stmt.For?
  {
    var low := eval.value(stmt.low, s);
    low.Value? && low.v == lo && eval.value(stmt.high, s.(store := low.store)) == Value(hi, store)
  }

  /** The body of the loop means the same under both rules: it has no such loop itself. */
  ghost predicate SameBody(eval: Eval, body: Stmts) {
    forall s, fuel: nat :: RunStmts(Standard(eval), body, body, s, fuel) == RunStmts(eval, body, body, s, fuel)
  }

  lemma {:induction false} SameIterations(eval: Eval, stmt: Stmt, i: int, lo: int, hi: int, s: State, fuel: nat)
    requires stmt.For? && SameBody(eval, stmt.body)
    ensures RunFor(Standard(eval), stmt.name, stmt.param, i, lo, hi, stmt.reverse, stmt.body, s, fuel)
         == RunFor(eval, stmt.name, stmt.param, i, lo, hi, stmt.reverse, stmt.body, s, fuel)
    decreases fuel
  {
    if lo <= i <= hi && fuel > 0 {
      var s1 := s.(params := s.params[stmt.param := i]);
      var o := RunStmts(eval, stmt.body, stmt.body, s1, fuel);
      assert RunStmts(Standard(eval), stmt.body, stmt.body, s1, fuel) == o;
      if o.Normal? { SameIterations(eval, stmt, if stmt.reverse then i - 1 else i + 1, lo, hi, o.s, fuel - 1); }
    }
  }

  /** The code gives a for loop the outcome of section 5.5 exactly when the range is not
    * null or both bounds are values of the subtype; the cautious rules leave the outcome of
    * any other open. */
  lemma LoopStandard(eval: Eval, stmt: Stmt, s: State, lo: int, hi: int, store: Store, fuel: nat)
    requires stmt.For? && BoundsAre(eval, stmt, s, lo, hi, store)
    ensures var inside := stmt.ty.first <= lo <= stmt.ty.last && stmt.ty.first <= hi <= stmt.ty.last;
            && (RunStmt(Standard(eval), stmt, s, fuel) == RunStmt(eval, stmt, s, fuel) ==> lo <= hi || inside)
            && ((lo <= hi || inside) && (lo > hi || SameBody(eval, stmt.body)) ==>
                  RunStmt(Standard(eval), stmt, s, fuel) == RunStmt(eval, stmt, s, fuel))
            && (lo > hi ==>
                  RunStmt(Cautious(eval), stmt, s, fuel) == if inside then Normal(s.(store := store)) else OutOfFuel)
  {
    if SameBody(eval, stmt.body) {
      SameIterations(eval, stmt, if stmt.reverse then hi else lo, lo, hi, s.(store := store), fuel);
    }
  }

  /** For I in 1 .. 0, with a parameter of the subtype 1 .. 10: section 5.5 skips the
    * loop, and the code raises. */
  lemma NullRangeRaises(machine: Machine, s: State, fuel: nat)
    ensures var eval: Eval := Rules((e: Expr, s: State) => Value(e, s.store), Converted);
            var stmt := For(None, 0, ParamType(machine, 1, 10), 1, 0, false, Nil);
            RunStmt(Standard(eval), stmt, s, fuel) == Normal(s) && RunStmt(eval, stmt, s, fuel) == Raised(s)
  {
  }

  // ------------------------------------------------------------ whole bodies

  /** Running the body under the rules of section 5.5 ends with `f`. */
  ghost predicate StandardEnds(eval: Eval, body: Stmts, isProc: bool, s: State, f: Final) {
    exists fuel: nat :: EndsWith(RunStmts(Standard(eval), body, body, s, fuel), isProc, f)
  }

  /** A body whose run meets no null range with a bound outside its subtype: its graph
    * ends exactly as section 5.5 says. */
  lemma BodyStandard(eval: Eval, body: Stmts, isProc: bool, g: Region, s: State, f: Final, fuel: nat)
    requires LegalAll(body) && GotosObeyAll(body, OwnLabels(body))
    requires GenBody(body, isProc).Some? && g == GenBody(body, isProc).value.region
    requires RunStmts(Cautious(eval), body, body, s, fuel) != OutOfFuel
    ensures StandardEnds(eval, body, isProc, s, f) <==> Reaches(eval, g, s, f)
  {
    var o := RunStmts(Cautious(eval), body, body, s, fuel);
    StmtsStay(Cautious(eval), Standard(eval), body, body, s, fuel, fuel);
    StmtsStay(Cautious(eval), eval, body, body, s, fuel, fuel);
    assert RunStmts(Standard(eval), body, body, s, fuel) == o == RunStmts(eval, body, body, s, fuel);
    BodyMeans(eval, body, isProc, g, s, f);
    if StandardEnds(eval, body, isProc, s, f) {
      var n: nat :| EndsWith(RunStmts(Standard(eval), body, body, s, n), isProc, f);
      OutcomeOnce(Standard(eval), body, s, fuel, n);
    }
    if BodyEnds(eval, body, isProc, s, f) {
      var n: nat :| EndsWith(RunStmts(eval, body, body, s, n), isProc, f);
      OutcomeOnce(eval, body, s, fuel, n);
    }
  }
}
