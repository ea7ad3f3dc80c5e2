/** The graph of a subprogram body means what its statements mean: `BodyMeans` and
  * `BodyDiverges`, for every body, including loops that do not end, exits by name
  * and jumps in both directions.
  */
module CfgBody {
  import opened Options
  import opened Statements
  import opened Cfg
  import opened CfgGrowth
  import opened CfgSimulation
  import opened CfgMeaning

  // ------------------------------------------------- gotos obey section 5.8

  /** The labels of a sequence itself, not of what its statements contain. */
  function OwnLabels(list: Stmts): set<Label> {
    if list.Nil? then {} else (if list.head.Labelled? then {list.head.at} else {}) + OwnLabels(list.tail)
  }

  /** Every goto names a label of a sequence that encloses it. */
  predicate GotosObey(stmt: Stmt, scope: set<Label>) {
    match stmt
    case If(guards) => GotosObeyGuards(guards, scope)
    case While(_, _, body) => GotosObeyAll(body, scope + OwnLabels(body))
    case Loop(_, body) => GotosObeyAll(body, scope + OwnLabels(body))
    case For(_, _, _, _, _, _, body) => GotosObeyAll(body, scope + OwnLabels(body))
    case Goto(l) => l in scope
    case Block(body) => GotosObeyAll(body, scope + OwnLabels(body))
    case _ => true
  }

  predicate GotosObeyAll(list: Stmts, scope: set<Label>) {
    list.Cons? ==> GotosObey(list.head, scope) && GotosObeyAll(list.tail, scope)
  }

  predicate GotosObeyGuards(guards: Guards, scope: set<Label>) {
    match guards
    case NoElse => true
    case Else(body) => GotosObeyAll(body, scope + OwnLabels(body))
    case Guard(_, body, rest) => GotosObeyAll(body, scope + OwnLabels(body)) && GotosObeyGuards(rest, scope)
  }

  lemma {:induction false} OwnLabelAfter(list: Stmts, l: Label)
    requires l in OwnLabels(list)
    ensures After(list, l).Some?
  {
    if list.head != Labelled(l) { OwnLabelAfter(list.tail, l); }
  }

  lemma {:induction false} AfterObeys(list: Stmts, l: Label, scope: set<Label>)
    requires After(list, l).Some? && GotosObeyAll(list, scope)
    ensures GotosObeyAll(After(list, l).value, scope)
  {
    if list.head != Labelled(l) { AfterObeys(list.tail, l, scope); }
  }

  /** A jump out of a statement names a label outside it. */
  ghost predicate Outward(o: Out, scope: set<Label>) { o.Jumped? ==> o.at in scope }

  lemma {:induction false} JumpsOutward(eval: Eval, stmt: Stmt, s: State, fuel: nat, scope: set<Label>)
    requires GotosObey(stmt, scope)
    ensures Outward(RunStmt(eval, stmt, s, fuel), scope)
    decreases fuel, stmt, 0
  {
    match stmt
    case If(guards) => GuardJumps(eval, guards, s, fuel, scope);
    case While(name, cond, body) => WhileJumps(eval, name, cond, body, s, fuel, scope);
    case Loop(name, body) => LoopJumps(eval, name, body, s, fuel, scope);
    case For(name, x, ty, low, high, rev, body) => ForStmtJumps(eval, stmt, s, fuel, scope);
    case Block(body) => SequenceJumps(eval, body, body, s, fuel, scope);
    case _ =>
  }

  lemma {:induction false} SequenceJumps(eval: Eval, all: Stmts, list: Stmts, s: State, fuel: nat, scope: set<Label>)
    requires GotosObeyAll(all, scope + OwnLabels(all)) && GotosObeyAll(list, scope + OwnLabels(all))
    ensures Outward(RunStmts(eval, all, list, s, fuel), scope)
    decreases fuel, list, 1
  {
    if list.Cons? {
      JumpsOutward(eval, list.head, s, fuel, scope + OwnLabels(all));
      var o := RunStmt(eval, list.head, s, fuel);
      if o.Normal? {
        SequenceJumps(eval, all, list.tail, o.s, fuel, scope);
      } else if o.Jumped? {
        if o.at in OwnLabels(all) {
          OwnLabelAfter(all, o.at);
          AfterObeys(all, o.at, scope + OwnLabels(all));
        }
        if After(all, o.at).Some? && fuel > 0 {
          AfterObeys(all, o.at, scope + OwnLabels(all));
          SequenceJumps(eval, all, After(all, o.at).value, o.s, fuel - 1, scope);
        }
      }
    }
  }

  lemma {:induction false} GuardJumps(eval: Eval, guards: Guards, s: State, fuel: nat, scope: set<Label>)
    requires GotosObeyGuards(guards, scope)
    ensures Outward(RunGuards(eval, guards, s, fuel), scope)
    decreases fuel, guards, 0
  {
    match guards
    case NoElse =>
    case Else(body) => SequenceJumps(eval, body, body, s, fuel, scope);
    case Guard(cond, body, rest) =>
      var r := eval.value(cond, s);
      if r.Value? {
        if r.v != 0 { SequenceJumps(eval, body, body, s.(store := r.store), fuel, scope); }
        else { GuardJumps(eval, rest, s.(store := r.store), fuel, scope); }
      }
  }

  lemma {:induction false} WhileJumps(eval: Eval, name: LoopName, cond: Expr, body: Stmts, s: State, fuel: nat,
                                      scope: set<Label>)
    requires GotosObeyAll(body, scope + OwnLabels(body))
    ensures Outward(RunWhile(eval, name, cond, body, s, fuel), scope)
    decreases fuel, body, 2
  {
    var r := eval.value(cond, s);
    if fuel > 0 && r.Value? && r.v != 0 {
      SequenceJumps(eval, body, body, s.(store := r.store), fuel, scope);
      var o := RunStmts(eval, body, body, s.(store := r.store), fuel);
      if o.Normal? { WhileJumps(eval, name, cond, body, o.s, fuel - 1, scope); }
    }
  }

  lemma {:induction false} LoopJumps(eval: Eval, name: LoopName, body: Stmts, s: State, fuel: nat, scope: set<Label>)
    requires GotosObeyAll(body, scope + OwnLabels(body))
    ensures Outward(RunLoop(eval, name, body, s, fuel), scope)
    decreases fuel, body, 2
  {
    if fuel > 0 {
      SequenceJumps(eval, body, body, s, fuel, scope);
      var o := RunStmts(eval, body, body, s, fuel);
      if o.Normal? { LoopJumps(eval, name, body, o.s, fuel - 1, scope); }
    }
  }

  lemma {:induction false} ForStmtJumps(eval: Eval, stmt: Stmt, s: State, fuel: nat, scope: set<Label>)
    requires stmt.For? && GotosObey(stmt, scope)
    ensures Outward(RunStmt(eval, stmt, s, fuel), scope)
    decreases fuel, stmt.body, 3
  {
    EntryMeans(eval, stmt, s, map[], fuel);
    var e := EntryOf(eval, stmt, s, map[]);
    if e.Enters? { ForJumps(eval, stmt, e.i, e.lo, e.hi, e.s, fuel, scope); }
  }

  lemma {:induction false} ForJumps(eval: Eval, stmt: Stmt, i: int, lo: int, hi: int, s: State, fuel: nat,
                                    scope: set<Label>)
    requires stmt.For? && GotosObey(stmt, scope)
    ensures Outward(RunFor(eval, stmt.name, stmt.param, i, lo, hi, stmt.reverse, stmt.body, s, fuel), scope)
    decreases fuel, stmt.body, 2
  {
    if lo <= i <= hi && fuel > 0 {
      var s1 := s.(params := s.params[stmt.param := i]);
      SequenceJumps(eval, stmt.body, stmt.body, s1, fuel, scope);
      var o := RunStmts(eval, stmt.body, stmt.body, s1, fuel);
      if o.Normal? { ForJumps(eval, stmt, if stmt.reverse then i - 1 else i + 1, lo, hi, o.s, fuel - 1, scope); }
    }
  }

  // ------------------------------------------------------------ whole bodies

  /** How a body that does not run out of fuel ends. */
  ghost predicate EndsWith(o: Out, isProc: bool, f: Final) {
    match o
    case Normal(s) => f == if isProc then FReturned(None, s.store) else FStuck
    case Returned(v, s) => f == FReturned(v, s.store)
    case Raised(s) => f == FRaised(s.store)
    case _ => false
  }

  ghost predicate BodyEnds(eval: Eval, body: Stmts, isProc: bool, s: State, f: Final) {
    exists fuel: nat :: EndsWith(RunStmts(eval, body, body, s, fuel), isProc, f)
  }

  ghost predicate Reaches(eval: Eval, g: Region, s: State, f: Final) {
    exists n: nat :: Steps(eval, g, At(0, 0, s, map[]), n) == Ended(f)
  }

  ghost predicate RunsForever(eval: Eval, body: Stmts, s: State) {
    forall fuel: nat :: RunStmts(eval, body, body, s, fuel) == OutOfFuel
  }

  ghost predicate GraphRunsForever(eval: Eval, g: Region, s: State) {
    forall n: nat :: Steps(eval, g, At(0, 0, s, map[]), n).At?
  }

  /** With enough fuel the two ends agree; without, the graph is still running. */
  lemma {:induction false} BodyRuns(eval: Eval, body: Stmts, isProc: bool, g: Region, s: State, fuel: nat)
    returns (n: nat, f: Final)
    requires LegalAll(body) && GotosObeyAll(body, OwnLabels(body))
    requires GenBody(body, isProc).Some? && g == GenBody(body, isProc).value.region
    ensures var o, c' := RunStmts(eval, body, body, s, fuel), Steps(eval, g, At(0, 0, s, map[]), n);
            if o.OutOfFuel? then n >= fuel && c'.At? else EndsWith(o, isProc, f) && c' == Ended(f)
  {
    var o := RunStmts(eval, body, body, s, fuel);
    assert {} + OwnLabels(body) == OwnLabels(body);
    SequenceJumps(eval, body, body, s, fuel, {});
    var b := GenStmts(body, [], START).value;
    n, f := BodySteps(eval, body, isProc, g, b, GenBody(body, isProc).value, s, fuel);
    if o.Normal? {
      if isProc { f := FReturned(None, o.s.store); } else { f := FStuck; }
      StepNext(eval, g, At(0, 0, s, map[]), n);
      n := n + 1;
    }
  }

  /** Where the run of the blocks is after `n` steps: at the end of the last one, when the
    * statements fall through, or ended with `f`. */
  ghost predicate RunsTo(eval: Eval, body: Stmts, isProc: bool, g: Region, b: BuildState, s: State, fuel: nat, n: nat,
                         f: Final)
  {
    var o, c' := RunStmts(eval, body, body, s, fuel), Steps(eval, g, At(0, 0, s, map[]), n);
    && !o.Exited? && (o.OutOfFuel? ==> n >= fuel && c'.At?)
    && (o.Returned? || o.Raised? ==> EndsWith(o, isProc, f) && c' == Ended(f))
    && (o.Normal? ==> c'.At? && c' == At(b.cur, |b.Code()|, o.s, c'.temps) && !b.Terminated())
  }

  lemma BodySteps(eval: Eval, body: Stmts, isProc: bool, g: Region, b: BuildState, b': BuildState, s: State, fuel: nat)
    returns (n: nat, f: Final)
    requires LegalAll(body) && GenStmts(body, [], START) == Some(b) && GenBody(body, isProc) == Some(b')
    requires g == b'.region
    ensures RunsTo(eval, body, isProc, g, b, s, fuel, n, f)
    ensures b.cur in g && g[b.cur].code == if isProc && !b.Terminated() then b.Code() + [IReturn(None)] else b.Code()
  {
    var o := RunStmts(eval, body, body, s, fuel);
    GenStmtsEvolves(body, [], START, b);
    BodyWithin(b, b', g);
    var temps;
    n, temps := SimStmts(eval, g, body, START, body, [], START, b, s, map[], fuel);
    f := match o case Returned(v, s') => FReturned(v, s'.store) case Raised(s') => FRaised(s'.store) case _ => FStuck;
  }

  /** The implicit return is the instruction after the last one emitted. */
  lemma BodyWithin(b: BuildState, b': BuildState, g: Region)
    requires Good(b) && g == b'.region && (b' == b || b' == b.Emit(IReturn(None)))
    ensures Agrees(b, g) && b.cur in g
    ensures b' == b ==> g[b.cur].code == b.Code()
    ensures b' != b ==> g[b.cur].code == b.Code() + [IReturn(None)]
  {
    forall i ensures BlockAgrees(b, g, i) {}
  }

  lemma {:induction false} EndedStays(eval: Eval, g: Region, c: Config, n: nat)
    requires c.Ended?
    ensures Steps(eval, g, c, n) == c
    decreases n
  {
    if n > 0 { EndedStays(eval, g, c, n - 1); }
  }

  /** A run ends in one way only, and stays there. */
  lemma EndedOnce(eval: Eval, g: Region, c: Config, m: nat, n: nat)
    requires Steps(eval, g, c, m).Ended? && (n >= m || Steps(eval, g, c, n).Ended?)
    ensures Steps(eval, g, c, n) == Steps(eval, g, c, m)
  {
    if n >= m {
      StepsAdd(eval, g, c, m, n - m);
      EndedStays(eval, g, Steps(eval, g, c, m), n - m);
    } else {
      StepsAdd(eval, g, c, n, m - n);
      EndedStays(eval, g, Steps(eval, g, c, n), m - n);
    }
  }

  /** The graph of a body ends exactly as its statements do: the same writes, and
    * the same return, exception or fall through. */
  lemma BodyMeans(eval: Eval, body: Stmts, isProc: bool, g: Region, s: State, f: Final)
    requires LegalAll(body) && GotosObeyAll(body, OwnLabels(body))
    requires GenBody(body, isProc).Some? && g == GenBody(body, isProc).value.region
    ensures BodyEnds(eval, body, isProc, s, f) <==> Reaches(eval, g, s, f)
  {
    var c := At(0, 0, s, map[]);
    if BodyEnds(eval, body, isProc, s, f) {
      var fuel: nat :| EndsWith(RunStmts(eval, body, body, s, fuel), isProc, f);
      var n, f' := BodyRuns(eval, body, isProc, g, s, fuel);
    }
    if Reaches(eval, g, s, f) {
      var m: nat :| Steps(eval, g, c, m) == Ended(f);
      var n, f' := BodyRuns(eval, body, isProc, g, s, m);
      EndedOnce(eval, g, c, m, n);
    }
  }

  /** A body runs forever exactly when its graph does. */
  lemma BodyDiverges(eval: Eval, body: Stmts, isProc: bool, g: Region, s: State)
    requires LegalAll(body) && GotosObeyAll(body, OwnLabels(body))
    requires GenBody(body, isProc).Some? && g == GenBody(body, isProc).value.region
    ensures RunsForever(eval, body, s) <==> GraphRunsForever(eval, g, s)
  {
    var c := At(0, 0, s, map[]);
    if fuel: nat :| RunStmts(eval, body, body, s, fuel) != OutOfFuel {
      var n, f := BodyRuns(eval, body, isProc, g, s, fuel);
    } else {
      forall n: nat ensures Steps(eval, g, c, n).At? {
        var m, f := BodyRuns(eval, body, isProc, g, s, n);
        if Steps(eval, g, c, n).Ended? { EndedOnce(eval, g, c, n, m); }
      }
    }
  }
}
