/** An outcome is final: more fuel does not change it, nor do rules for a loop that
  * the run did not meet.
  */
module Outcomes {
  import opened Statements

  /** `b` is `a`, or decides what `a` leaves undecided. */
  ghost predicate Extends(a: Rules, b: Rules) { a.value == b.value && (a == b || a.nullRange.Undecided?) }

  lemma {:induction false} StmtStays(a: Rules, b: Rules, stmt: Stmt, s: State, fuel: nat, more: nat)
    requires Extends(a, b) && fuel <= more && RunStmt(a, stmt, s, fuel) != OutOfFuel
    ensures RunStmt(b, stmt, s, more) == RunStmt(a, stmt, s, fuel)
    decreases fuel, stmt, 0
  {
    match stmt
    case If(guards) => GuardsStay(a, b, guards, s, fuel, more);
    case While(name, cond, body) => WhileStays(a, b, name, cond, body, s, fuel, more);
    case Loop(name, body) => LoopStays(a, b, name, body, s, fuel, more);
    case For(name, x, ty, low, high, rev, body) =>
      var l := a.value(low, s);
      if l.Value? {
        var h := a.value(high, s.(store := l.store));
        if h.Value? && ty.Has(l.v) && ty.Has(h.v) {
          ForStays(a, b, name, x, if rev then h.v else l.v, l.v, h.v, rev, body, s.(store := h.store), fuel, more);
        }
      }
    case Block(body) => StmtsStay(a, b, body, body, s, fuel, more);
    case _ =>
  }

  lemma {:induction false} StmtsStay(a: Rules, b: Rules, all: Stmts, list: Stmts, s: State, fuel: nat, more: nat)
    requires Extends(a, b) && fuel <= more && RunStmts(a, all, list, s, fuel) != OutOfFuel
    ensures RunStmts(b, all, list, s, more) == RunStmts(a, all, list, s, fuel)
    decreases fuel, list, 1
  {
    if list.Cons? {
      StmtStays(a, b, list.head, s, fuel, more);
      var o := RunStmt(a, list.head, s, fuel);
      if o.Normal? {
        StmtsStay(a, b, all, list.tail, o.s, fuel, more);
      } else if o.Jumped? && After(all, o.at).Some? {
        StmtsStay(a, b, all, After(all, o.at).value, o.s, fuel - 1, more - 1);
      }
    }
  }

  lemma {:induction false} GuardsStay(a: Rules, b: Rules, guards: Guards, s: State, fuel: nat, more: nat)
    requires Extends(a, b) && fuel <= more && RunGuards(a, guards, s, fuel) != OutOfFuel
    ensures RunGuards(b, guards, s, more) == RunGuards(a, guards, s, fuel)
    decreases fuel, guards, 0
  {
    match guards
    case NoElse =>
    case Else(body) => StmtsStay(a, b, body, body, s, fuel, more);
    case Guard(cond, body, rest) =>
      var r := a.value(cond, s);
      if r.Value? {
        if r.v != 0 { StmtsStay(a, b, body, body, s.(store := r.store), fuel, more); }
        else { GuardsStay(a, b, rest, s.(store := r.store), fuel, more); }
      }
  }

  lemma {:induction false} WhileStays(a: Rules, b: Rules, name: LoopName, cond: Expr, body: Stmts, s: State, fuel: nat,
                                      more: nat)
    requires Extends(a, b) && fuel <= more && RunWhile(a, name, cond, body, s, fuel) != OutOfFuel
    ensures RunWhile(b, name, cond, body, s, more) == RunWhile(a, name, cond, body, s, fuel)
    decreases fuel, body, 2
  {
    var r := a.value(cond, s);
    if r.Value? && r.v != 0 {
      StmtsStay(a, b, body, body, s.(store := r.store), fuel, more);
      var o := RunStmts(a, body, body, s.(store := r.store), fuel);
      if o.Normal? { WhileStays(a, b, name, cond, body, o.s, fuel - 1, more - 1); }
    }
  }

  lemma {:induction false} LoopStays(a: Rules, b: Rules, name: LoopName, body: Stmts, s: State, fuel: nat, more: nat)
    requires Extends(a, b) && fuel <= more && RunLoop(a, name, body, s, fuel) != OutOfFuel
    ensures RunLoop(b, name, body, s, more) == RunLoop(a, name, body, s, fuel)
    decreases fuel, body, 2
  {
    StmtsStay(a, b, body, body, s, fuel, more);
    var o := RunStmts(a, body, body, s, fuel);
    if o.Normal? { LoopStays(a, b, name, body, o.s, fuel - 1, more - 1); }
  }

  lemma {:induction false} ForStays(a: Rules, b: Rules, name: LoopName, x: Param, i: int, lo: int, hi: int, rev: bool,
                                     body: Stmts, s: State, fuel: nat, more: nat)
    requires Extends(a, b) && fuel <= more && RunFor(a, name, x, i, lo, hi, rev, body, s, fuel) != OutOfFuel
    ensures RunFor(b, name, x, i, lo, hi, rev, body, s, more)
         == RunFor(a, name, x, i, lo, hi, rev, body, s, fuel)
    decreases fuel, body, 2
  {
    if lo <= i <= hi {
      var s1 := s.(params := s.params[x := i]);
      StmtsStay(a, b, body, body, s1, fuel, more);
      var o := RunStmts(a, body, body, s1, fuel);
      if o.Normal? {
        ForStays(a, b, name, x, if rev then i - 1 else i + 1, lo, hi, rev, body, o.s, fuel - 1, more - 1);
      }
    }
  }

  /** A sequence that has an outcome has one only. */
  lemma OutcomeOnce(rules: Rules, all: Stmts, s: State, m: nat, n: nat)
    requires RunStmts(rules, all, all, s, m) != OutOfFuel && RunStmts(rules, all, all, s, n) != OutOfFuel
    ensures RunStmts(rules, all, all, s, m) == RunStmts(rules, all, all, s, n)
  {
    if m <= n { StmtsStay(rules, rules, all, all, s, m, n); } else { StmtsStay(rules, rules, all, all, s, n, m); }
  }
}
