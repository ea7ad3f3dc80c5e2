/** Emitting statements simulates the structured semantics: `SimStmt`, for every
  * statement, with its builder state before and after.
  */
module CfgMeaning {
  import opened Options
  import opened Statements
  import opened Cfg
  import opened CfgGrowth
  import opened CfgSimulation

  /** Emission simulates the structured semantics, statement by statement. */
  lemma {:induction false} SimStmt(eval: Eval, g: Region, stmt: Stmt, loops: Loops, b0: BuildState, b': BuildState,
                                   s: State, temps: Temps, fuel: nat) returns (n: nat, temps': Temps)
    requires Good(b0) && Gen(stmt, loops, b0) == Some(b') && Agrees(b', g) && !b0.Terminated()
    requires Legal(stmt) && AllWaiting(b0, PlacedIn(stmt))
    ensures Matches(RunStmt(eval, stmt, s, fuel), eval, g, At(b0.cur, |b0.Code()|, s, temps), n, loops, b', temps',
                    fuel)
    ensures Keeps(temps, temps', BoundIn(stmt)) && KeepsParams(s, RunStmt(eval, stmt, s, fuel), BoundIn(stmt))
    decreases fuel, stmt, 3
  {
    temps' := temps;
    match stmt
    case If(_) => n, temps' := SimIf(eval, g, stmt, loops, b0, b', s, temps, fuel);
    case While(_, _, _) => n, temps' := SimWhile(eval, g, stmt, loops, b0, b', s, temps, fuel);
    case Loop(_, _) => n, temps' := SimLoop(eval, g, stmt, loops, b0, b', s, temps, fuel);
    case For(_, _, _, _, _, _, _) => n, temps' := SimFor(eval, g, stmt, loops, b0, b', s, temps, fuel);
    case Block(body) => n, temps' := SimStmts(eval, g, body, b0, body, loops, b0, b', s, temps, fuel);
    case Goto(l) => n := SimGoto(eval, g, l, loops, b0, b', s, temps, fuel);
    case Labelled(l) =>
      assert Waiting(b0, l);
      n := SimLabel(eval, g, l, loops, b0, b', s, temps, fuel);
    case Exit(_, Some(_)) => n := SimExitWhen(eval, g, stmt, loops, b0, b', s, temps, fuel);
    case _ => n := SimSimple(eval, g, stmt, loops, b0, b', s, temps, fuel);
  }

  /** `list` is the end of sequence `all`, which started to be emitted in state `ball`. */
  lemma {:induction false} SimStmts(eval: Eval, g: Region, all: Stmts, ball: BuildState, list: Stmts, loops: Loops,
                                    b0: BuildState, b': BuildState, s: State, temps: Temps, fuel: nat)
    returns (n: nat, temps': Temps)
    requires Good(ball) && GenStmts(all, loops, ball) == Some(b') && LegalAll(all) && AllWaiting(ball, PlacedInAll(all))
    requires Good(b0) && GenStmts(list, loops, b0) == Some(b') && Agrees(b', g) && !b0.Terminated()
    requires LegalAll(list) && AllWaiting(b0, PlacedInAll(list))
    requires BoundInAll(list) <= BoundInAll(all)
    ensures Matches(RunStmts(eval, all, list, s, fuel), eval, g, At(b0.cur, |b0.Code()|, s, temps), n, loops, b',
                    temps', fuel)
    ensures Keeps(temps, temps', BoundInAll(all)) && KeepsParams(s, RunStmts(eval, all, list, s, fuel), BoundInAll(all))
    decreases fuel, list, 4
  {
    var c := At(b0.cur, |b0.Code()|, s, temps);
    if list.Nil? {
      n, temps' := 0, temps;
    } else {
      var head, tail := list.head, list.tail;
      var b1 := AfterHead(list, loops, b0, b', g);
      n, temps' := SimStmt(eval, g, head, loops, b0, b1, s, temps, fuel);
      var o := RunStmt(eval, head, s, fuel);
      if o.Normal? {
        var n1, t1 := n, temps';
        var n2;
        n2, temps' := SimStmts(eval, g, all, ball, tail, loops, b1, b', o.s, t1, fuel);
        Prepend(RunStmts(eval, all, tail, o.s, fuel), eval, g, c, n1, n2, loops, b', temps', fuel);
        n := n1 + n2;
      } else {
        Carries(o, eval, g, c, n, loops, b1, b', temps', fuel);
        if o.Jumped? && After(all, o.at).Some? && fuel > 0 {
          var n2;
          n2, temps' := SimResume(eval, g, all, ball, o.at, loops, b', o.s, temps', fuel - 1);
          Prepend(RunStmts(eval, all, After(all, o.at).value, o.s, fuel - 1), eval, g, c, n, n2, loops, b', temps',
                  fuel - 1);
          n := n + n2;
        }
      }
    }
  }

  /** The state after the first statement of `list`, where the rest is emitted. */
  lemma AfterHead(list: Stmts, loops: Loops, b0: BuildState, b': BuildState, g: Region) returns (b1: BuildState)
    requires list.Cons? && Good(b0) && GenStmts(list, loops, b0) == Some(b') && Agrees(b', g) && !b0.Terminated()
    requires LegalAll(list) && AllWaiting(b0, PlacedInAll(list))
    ensures Gen(list.head, loops, b0) == Some(b1) && GenStmts(list.tail, loops, b1) == Some(b')
    ensures Good(b1) && Within(b1, b') && Agrees(b1, g) && AllWaiting(b0, PlacedIn(list.head))
    ensures AllWaiting(b1, PlacedInAll(list.tail))
  {
    b1 := Gen(list.head, loops, b0).value;
    GenEvolves(list.head, loops, b0, b1);
    GenStmtsEvolves(list.tail, loops, b1, b');
    EvolvesWithin(b1, b', PlacedInAll(list.tail));
    AgreesBefore(b1, b', g);
    StillWaiting(b0, b1, PlacedIn(list.head), PlacedInAll(list.tail));
  }

  /** A jump arrives in the block of its label, and what follows the label runs from there. */
  lemma {:induction false} SimResume(eval: Eval, g: Region, all: Stmts, ball: BuildState, l: Label, loops: Loops,
                                     b': BuildState, s: State, temps: Temps, fuel: nat)
    returns (n: nat, temps': Temps)
    requires Good(ball) && GenStmts(all, loops, ball) == Some(b') && LegalAll(all) && AllWaiting(ball, PlacedInAll(all))
    requires Agrees(b', g) && After(all, l).Some? && l in b'.labels
    ensures Matches(RunStmts(eval, all, After(all, l).value, s, fuel), eval, g, At(b'.labels[l], 0, s, temps), n, loops,
                    b', temps', fuel)
    ensures Keeps(temps, temps', BoundInAll(all))
    ensures KeepsParams(s, RunStmts(eval, all, After(all, l).value, s, fuel), BoundInAll(all))
    decreases fuel, After(all, l).value, 5
  {
    AfterBinds(all, l);
    var bl := AtLabel(all, loops, ball, b', l);
    n, temps' := SimStmts(eval, g, all, ball, After(all, l).value, loops, bl, b', s, temps, fuel);
  }

  /** A branch of an if statement or a loop body: what it leaves open leads to `dest`. */
  lemma {:induction false} SimBranch(eval: Eval, g: Region, body: Stmts, loops: Loops, b0: BuildState, b1: BuildState,
                                     dest: BlockId, s: State, temps: Temps, fuel: nat)
    returns (n: nat, temps': Temps)
    requires Good(b0) && GenStmts(body, loops, b0) == Some(b1) && !b0.Terminated()
    requires Agrees(b1.BranchIfOpen(dest), g)
    requires LegalAll(body) && AllWaiting(b0, PlacedInAll(body))
    ensures Leaves(RunStmts(eval, body, body, s, fuel), eval, g, At(b0.cur, |b0.Code()|, s, temps), n, loops,
                   b1.BranchIfOpen(dest), dest, temps', fuel)
    ensures RunStmts(eval, body, body, s, fuel).Normal? ==> n > 0
    ensures Keeps(temps, temps', BoundInAll(body))
    ensures KeepsParams(s, RunStmts(eval, body, body, s, fuel), BoundInAll(body))
    decreases fuel, body, 5
  {
    var b2 := b1.BranchIfOpen(dest);
    GenStmtsEvolves(body, loops, b0, b1);
    BranchWithin(b1, dest);
    AgreesBefore(b1, b2, g);
    n, temps' := SimStmts(eval, g, body, b0, body, loops, b0, b1, s, temps, fuel);
    var o := RunStmts(eval, body, body, s, fuel);
    var c := At(b0.cur, |b0.Code()|, s, temps);
    if o.Normal? {
      var i := IBr(dest, None);
      Emitted(b1, g, [i]);
      assert g[b1.cur].code[|b1.Code()|] == i;
      StepsAdd(eval, g, c, n, 1);
      assert Steps(eval, g, Steps(eval, g, c, n), 1) == Step(eval, g, Steps(eval, g, c, n));
      n := n + 1;
      assert b2.region[b1.cur].code[|b1.Code()|] == i;
    } else {
      Carries(o, eval, g, c, n, loops, b1, b2, temps', fuel);
    }
  }

  lemma {:induction false} SimIf(eval: Eval, g: Region, stmt: Stmt, loops: Loops, b0: BuildState, b': BuildState,
                                 s: State, temps: Temps, fuel: nat) returns (n: nat, temps': Temps)
    requires Good(b0) && stmt.If? && Gen(stmt, loops, b0) == Some(b') && Agrees(b', g) && !b0.Terminated()
    requires Legal(stmt) && AllWaiting(b0, PlacedIn(stmt))
    ensures Matches(RunStmt(eval, stmt, s, fuel), eval, g, At(b0.cur, |b0.Code()|, s, temps), n, loops, b', temps',
                    fuel)
    ensures Keeps(temps, temps', BoundIn(stmt)) && KeepsParams(s, RunStmt(eval, stmt, s, fuel), BoundIn(stmt))
    decreases fuel, stmt, 2
  {
    var merge, b := b0.free, b0.Create(None);
    var b1 := GenGuards(stmt.guards, merge, loops, b).value;
    assert Evolves(b0, b, {}) by { Same(b0, {}); Creates(b0, b0, {}, None); }
    NotALabelYet(b0, merge);
    StillWaiting(b0, b, {}, PlacedIn(stmt));
    GenGuardsEvolves(stmt.guards, merge, loops, b, b1);
    assert b.Code() == b0.Code() && b.BlockAt(merge) == EMPTY by { assert BlockOk(b0, b0.cur); }
    assert b1.BlockAt(merge) == EMPTY by {
      assert Kept(b, b1.MoveTo(b.cur), PlacedInGuards(stmt.guards), merge) && BlockOk(b0, b0.cur);
    }
    JoinWithin(b1, merge, b0.cur);
    AgreesBefore(b1, b', g);
    n, temps' := SimGuards(eval, g, stmt.guards, merge, loops, b, b1, s, temps, fuel);
    JoinMatches(RunStmt(eval, stmt, s, fuel), eval, g, At(b0.cur, |b0.Code()|, s, temps), n, loops, b1, merge, b0.cur,
                temps', fuel);
  }

  /** The builder is where a chain of guards with the labels `ls` is to be emitted. */
  ghost predicate Ready(b: BuildState, merge: BlockId, ls: set<Label>) {
    && Good(b) && !b.Terminated() && merge in b.region && merge < b.free
    && (forall l :: l in b.labels ==> b.labels[l] != merge)
    && AllWaiting(b, ls)
  }

  lemma {:induction false} SimGuards(eval: Eval, g: Region, guards: Guards, merge: BlockId, loops: Loops,
                                     b0: BuildState, b': BuildState, s: State, temps: Temps, fuel: nat)
    returns (n: nat, temps': Temps)
    requires Ready(b0, merge, PlacedInGuards(guards)) && GenGuards(guards, merge, loops, b0) == Some(b')
    requires Agrees(b', g) && LegalGuards(guards) && !guards.NoElse?
    ensures Leaves(RunGuards(eval, guards, s, fuel), eval, g, At(b0.cur, |b0.Code()|, s, temps), n, loops, b', merge,
                   temps', fuel)
    ensures Keeps(temps, temps', BoundInGuards(guards))
    ensures KeepsParams(s, RunGuards(eval, guards, s, fuel), BoundInGuards(guards))
    decreases fuel, guards, 1
  {
    match guards
    case Else(body) =>
      n, temps' := SimBranch(eval, g, body, loops, b0, GenStmts(body, loops, b0).value, merge, s, temps, fuel);
    case Guard(cond, body, rest) =>
      var c, r := At(b0.cur, |b0.Code()|, s, temps), eval.value(cond, s);
      var b1, b2, b3 := GuardStarts(eval, g, guards, merge, loops, b0, b', s, temps);
      if r.Raise? {
        n, temps' := 1, temps;
      } else if r.v != 0 {
        n, temps' := SimGuardTrue(eval, g, body, merge, loops, b1, b2, b', c, s.(store := r.store), temps, fuel);
      } else if rest.NoElse? {
        n, temps' := 1, temps;
      } else {
        n, temps' := SimGuardFalse(eval, g, rest, merge, loops, b3, b', c, s.(store := r.store), temps, fuel);
      }
  }

  /** A guard that holds: its statements, from `b1`, where step one of `c` arrives. */
  lemma {:induction false} SimGuardTrue(eval: Eval, g: Region, body: Stmts, merge: BlockId, loops: Loops,
                                        b1: BuildState, b2: BuildState, b': BuildState, c: Config, s: State,
                                        temps: Temps, fuel: nat)
    returns (n: nat, temps': Temps)
    requires Good(b1) && GenStmts(body, loops, b1) == Some(b2) && !b1.Terminated()
    requires Agrees(b', g) && Within(b2.BranchIfOpen(merge), b')
    requires LegalAll(body) && AllWaiting(b1, PlacedInAll(body))
    requires Steps(eval, g, c, 1) == At(b1.cur, |b1.Code()|, s, temps)
    ensures Leaves(RunStmts(eval, body, body, s, fuel), eval, g, c, n, loops, b', merge, temps', fuel)
    ensures Keeps(temps, temps', BoundInAll(body))
    ensures KeepsParams(s, RunStmts(eval, body, body, s, fuel), BoundInAll(body))
    decreases fuel, body, 6
  {
    AgreesBefore(b2.BranchIfOpen(merge), b', g);
    var o := RunStmts(eval, body, body, s, fuel);
    n, temps' := SimBranch(eval, g, body, loops, b1, b2, merge, s, temps, fuel);
    CarriesLeaves(o, eval, g, At(b1.cur, |b1.Code()|, s, temps), n, loops, b2.BranchIfOpen(merge), b', merge, temps',
                  fuel);
    PrependLeaves(o, eval, g, c, 1, n, loops, b', merge, temps', fuel);
    n := 1 + n;
  }

  /** A guard that fails: the rest, from `b`, where step one of `c` arrives. */
  lemma {:induction false} SimGuardFalse(eval: Eval, g: Region, rest: Guards, merge: BlockId, loops: Loops,
                                         b: BuildState, b': BuildState, c: Config, s: State, temps: Temps, fuel: nat)
    returns (n: nat, temps': Temps)
    requires Ready(b, merge, PlacedInGuards(rest)) && GenGuards(rest, merge, loops, b) == Some(b')
    requires Agrees(b', g) && LegalGuards(rest) && !rest.NoElse?
    requires Steps(eval, g, c, 1) == At(b.cur, |b.Code()|, s, temps)
    ensures Leaves(RunGuards(eval, rest, s, fuel), eval, g, c, n, loops, b', merge, temps', fuel)
    ensures Keeps(temps, temps', BoundInGuards(rest))
    ensures KeepsParams(s, RunGuards(eval, rest, s, fuel), BoundInGuards(rest))
    decreases fuel, rest, 2
  {
    n, temps' := SimGuards(eval, g, rest, merge, loops, b, b', s, temps, fuel);
    PrependLeaves(RunGuards(eval, rest, s, fuel), eval, g, c, 1, n, loops, b', merge, temps', fuel);
    n := 1 + n;
  }

  /** Where a test leads, by the value of its condition. */
  function AfterTest(r: Value, s: State, temps: Temps, onTrue: BlockId, onFalse: BlockId): Config {
    match r
    case Raise(store) => Ended(FRaised(store))
    case Value(v, store) => At(if v != 0 then onTrue else onFalse, 0, s.(store := store), temps)
  }

  /** Testing a guard leads to its statements, to be emitted in state `b1`, or to
    * the rest, in state `b3`. */
  lemma GuardStarts(eval: Eval, g: Region, guards: Guards, merge: BlockId, loops: Loops, b0: BuildState, b': BuildState,
                    s: State, temps: Temps) returns (b1: BuildState, b2: BuildState, b3: BuildState)
    requires Ready(b0, merge, PlacedInGuards(guards)) && GenGuards(guards, merge, loops, b0) == Some(b')
    requires Agrees(b', g) && LegalGuards(guards) && guards.Guard?
    ensures Good(b1) && GenStmts(guards.body, loops, b1) == Some(b2) && !b1.Terminated()
    ensures AllWaiting(b1, PlacedInAll(guards.body)) && Within(b2.BranchIfOpen(merge), b')
    ensures if guards.rest.NoElse? then b'.HasPredecessor(merge)
            else Ready(b3, merge, PlacedInGuards(guards.rest)) && GenGuards(guards.rest, merge, loops, b3) == Some(b')
    ensures b1.Code() == [] && (!guards.rest.NoElse? ==> b3.Code() == [])
    ensures Steps(eval, g, At(b0.cur, |b0.Code()|, s, temps), 1)
         == AfterTest(eval.value(guards.cond, s), s, temps, b1.cur, if guards.rest.NoElse? then merge else b3.cur)
  {
    b1, b2, b3 := GuardBuilds(guards, merge, loops, b0, b');
    AgreesBefore(b1, b', g);
    GuardTest(eval, g, b0, guards.cond, guards.rest, merge, s, temps);
  }

  lemma GuardBuilds(guards: Guards, merge: BlockId, loops: Loops, b0: BuildState, b': BuildState)
    returns (b1: BuildState, b2: BuildState, b3: BuildState)
    requires Ready(b0, merge, PlacedInGuards(guards)) && GenGuards(guards, merge, loops, b0) == Some(b')
    requires LegalGuards(guards) && guards.Guard?
    ensures b1 == GuardEntry(b0, guards.cond, guards.rest, merge) && Within(b1, b')
    ensures Good(b1) && GenStmts(guards.body, loops, b1) == Some(b2) && !b1.Terminated() && b1.cur == b0.free
    ensures b1.Code() == []
    ensures AllWaiting(b1, PlacedInAll(guards.body)) && Within(b2.BranchIfOpen(merge), b')
    ensures if guards.rest.NoElse? then b'.HasPredecessor(merge)
            else b3.cur == b0.free + 1 && b3.Code() == [] && Ready(b3, merge, PlacedInGuards(guards.rest))
                 && GenGuards(guards.rest, merge, loops, b3) == Some(b')
  {
    b1 := GuardEntry(b0, guards.cond, guards.rest, merge);
    b2 := GuardSplits(guards, merge, loops, b0, b');
    b3 := b2.BranchIfOpen(merge).MoveTo(b0.free + 1);
    GuardBodyReady(b0, guards.cond, guards.rest, merge, PlacedInGuards(guards));
    GuardWaits(b1, guards);
    if guards.rest.NoElse? {
      GuardWithin(b1, b2, b2.BranchIfOpen(merge).MoveTo(merge), b', guards, merge, loops);
      GuardFalls(b0, b', guards.cond, merge);
    } else {
      GuardGoesOn(guards, merge, loops, b0, b1, b2, b3);
      GuardWithin(b1, b2, b3, b', guards, merge, loops);
    }
  }

  /** Where the rest is emitted, unless the guard is the last one. */
  lemma GuardGoesOn(guards: Guards, merge: BlockId, loops: Loops, b0: BuildState, b1: BuildState, b2: BuildState,
                    b3: BuildState)
    requires guards.Guard? && !guards.rest.NoElse? && LegalGuards(guards)
    requires Ready(b0, merge, PlacedInGuards(guards))
    requires b1 == GuardEntry(b0, guards.cond, guards.rest, merge) && Good(b1)
    requires GenStmts(guards.body, loops, b1) == Some(b2) && AllWaiting(b1, PlacedInGuards(guards.rest))
    requires b3 == b2.BranchIfOpen(merge).MoveTo(b0.free + 1)
    ensures b3.Code() == [] && Ready(b3, merge, PlacedInGuards(guards.rest))
  {
    GenStmtsEvolves(guards.body, loops, b1, b2);
    GuardRest(b0, b1, b2, guards.cond, guards.rest, PlacedInAll(guards.body), merge);
  }

  lemma GuardWaits(b: BuildState, guards: Guards)
    requires guards.Guard? && AllWaiting(b, PlacedInGuards(guards))
    ensures AllWaiting(b, PlacedInAll(guards.body)) && AllWaiting(b, PlacedInGuards(guards.rest))
  {
    forall l | l in PlacedInGuards(guards) ensures Waiting(b, l) {}
  }

  /** The last guard without an else leads to `merge` when it fails. */
  lemma GuardFalls(b0: BuildState, b': BuildState, cond: Expr, merge: BlockId)
    requires Good(b0) && Within(GuardEntry(b0, cond, NoElse, merge), b')
    ensures b'.HasPredecessor(merge)
  {
    var b1 := GuardEntry(b0, cond, NoElse, merge);
    assert BlockOk(b0, b0.cur);
    assert b1.region[b0.cur].code[|b0.Code()|] == ICondBr(Test(cond), b0.free, merge);
    PredecessorStays(b1, b', merge);
  }

  /** Executing the test of a guard. */
  lemma GuardTest(eval: Eval, g: Region, b0: BuildState, cond: Expr, rest: Guards, merge: BlockId, s: State,
                  temps: Temps)
    requires Good(b0) && Agrees(GuardEntry(b0, cond, rest, merge), g)
    ensures Steps(eval, g, At(b0.cur, |b0.Code()|, s, temps), 1)
         == AfterTest(eval.value(cond, s), s, temps, b0.free, if rest.NoElse? then merge else b0.free + 1)
  {
    var b := if rest.NoElse? then b0.Create(None) else b0.Create(None).Create(None);
    var i := ICondBr(Test(cond), b0.free, if rest.NoElse? then merge else b0.free + 1);
    assert b.Code() == b0.Code() && b.cur == b0.cur by { assert BlockOk(b0, b0.cur); }
    WithinMoved(b.Emit(i), b0.free);
    AgreesBefore(b.Emit(i), GuardEntry(b0, cond, rest, merge), g);
    Emitted(b, g, [i]);
    var c := At(b0.cur, |b0.Code()|, s, temps);
    assert g[b0.cur].code[|b0.Code()|] == i;
    assert Steps(eval, g, c, 1) == Step(eval, g, c);
  }

  /** The statements of a guard go to a new block. */
  lemma GuardBodyReady(b0: BuildState, cond: Expr, rest: Guards, merge: BlockId, ls: set<Label>)
    requires Ready(b0, merge, ls)
    ensures var b1 := GuardEntry(b0, cond, rest, merge);
            && b1.cur == b0.free && b1.Code() == [] && Good(b1) && AllWaiting(b1, ls)
            && merge in b1.region && merge < b1.free
  {
    GuardEntryEvolves(b0, cond, rest, merge, {});
    StillWaiting(b0, GuardEntry(b0, cond, rest, merge), {}, ls);
    assert BlockOk(b0, b0.cur);
    assert Kept(b0, GuardEntry(b0, cond, rest, merge), {}, merge);
  }

  /** The body of the first guard, then the others. */
  lemma GuardSplits(guards: Guards, merge: BlockId, loops: Loops, b0: BuildState, b': BuildState)
    returns (b2: BuildState)
    requires guards.Guard? && GenGuards(guards, merge, loops, b0) == Some(b')
    ensures GenStmts(guards.body, loops, GuardEntry(b0, guards.cond, guards.rest, merge)) == Some(b2)
    ensures var b3 := b2.BranchIfOpen(merge).MoveTo(if guards.rest.NoElse? then merge else b0.free + 1);
            GenGuards(guards.rest, merge, loops, b3) == Some(b')
  {
    b2 := GenStmts(guards.body, loops, GuardEntry(b0, guards.cond, guards.rest, merge)).value;
  }

  /** What a guard emits is still there after the rest, from the state `b2` after its statements. */
  lemma GuardWithin(b1: BuildState, b: BuildState, b3: BuildState, b': BuildState, guards: Guards, merge: BlockId,
                    loops: Loops)
    requires guards.Guard? && Good(b1) && GenStmts(guards.body, loops, b1) == Some(b)
    requires b3 == b.BranchIfOpen(merge).MoveTo(b3.cur) && GenGuards(guards.rest, merge, loops, b3) == Some(b')
    requires !guards.rest.NoElse? ==> Ready(b3, merge, PlacedInGuards(guards.rest))
    ensures Within(b1, b') && Within(b.BranchIfOpen(merge), b')
  {
    var b2 := b.BranchIfOpen(merge);
    GenStmtsEvolves(guards.body, loops, b1, b);
    EvolvesWithin(b1, b, PlacedInAll(guards.body));
    BranchWithin(b, merge);
    WithinTwice(b1, b, b2);
    WithinMoved(b2, b3.cur);
    if !guards.rest.NoElse? {
      GenGuardsEvolves(guards.rest, merge, loops, b3, b');
      EvolvesWithin(b3, b'.MoveTo(b3.cur), PlacedInGuards(guards.rest));
      WithinTwice(b2, b3, b'.MoveTo(b3.cur));
      WithinMoved(b'.MoveTo(b3.cur), b'.cur);
      assert b'.MoveTo(b3.cur).MoveTo(b'.cur) == b';
      WithinTwice(b2, b'.MoveTo(b3.cur), b');
    }
    WithinTwice(b1, b2, b');
  }

  /** The block for what follows a guard that fails is still empty after its statements. */
  lemma GuardRest(b0: BuildState, b1: BuildState, b: BuildState, cond: Expr, rest: Guards, inner: set<Label>,
                  merge: BlockId)
    requires Good(b0) && b1 == GuardEntry(b0, cond, rest, merge) && !rest.NoElse? && Evolves(b1, b, inner)
    requires merge in b0.region && merge < b0.free && forall l :: l in b0.labels ==> b0.labels[l] != merge
    requires AllWaiting(b1, PlacedInGuards(rest)) && inner !! PlacedInGuards(rest)
    ensures var b3 := b.BranchIfOpen(merge).MoveTo(b0.free + 1);
            b3.Code() == [] && Ready(b3, merge, PlacedInGuards(rest))
  {
    var else' := b0.free + 1;
    var b3 := b.BranchIfOpen(merge).MoveTo(else');
    GuardEntryEvolves(b0, cond, rest, merge, {});
    NotALabelYet(b0, else');
    assert b1.BlockAt(else').code == [] && b1.cur == b0.free by { assert BlockOk(b0, b0.cur); }
    BlockUntouched(b1, b, inner, else', merge);
    NeverALabel(b1, b, inner, else');
    NeverALabel(b1, b, inner, merge);
    BranchesIfOpen(b1, b, inner, merge);
    var bb := b.BranchIfOpen(merge);
    StillWaiting(b1, bb, inner, PlacedInGuards(rest));
    assert Kept(b1, bb, inner, merge) && Kept(b1, bb, inner, else') && Kept(b0, b1, {}, merge);
    GoodMoved(bb, else');
    forall l | l in PlacedInGuards(rest) ensures Waiting(b3, l) { assert Waiting(bb, l); }
  }

  // -------------------------------------------------------------- while loops

  lemma {:induction false} SimWhile(eval: Eval, g: Region, stmt: Stmt, loops: Loops, b0: BuildState, b': BuildState,
                                    s: State, temps: Temps, fuel: nat) returns (n: nat, temps': Temps)
    requires Good(b0) && stmt.While? && Gen(stmt, loops, b0) == Some(b') && Agrees(b', g) && !b0.Terminated()
    requires Legal(stmt) && AllWaiting(b0, PlacedIn(stmt))
    ensures Matches(RunStmt(eval, stmt, s, fuel), eval, g, At(b0.cur, |b0.Code()|, s, temps), n, loops, b', temps',
                    fuel)
    ensures Keeps(temps, temps', BoundIn(stmt)) && KeepsParams(s, RunStmt(eval, stmt, s, fuel), BoundIn(stmt))
    decreases fuel, stmt, 2
  {
    var c := At(b0.cur, |b0.Code()|, s, temps);
    var o := RunWhile(eval, stmt.name, stmt.cond, stmt.body, s, fuel);
    var b1, b2, merge, header := WhileStarts(eval, g, stmt, loops, b0, b', s, temps);
    n, temps' := SimWhileFrom(eval, g, stmt.name, stmt.cond, stmt.body, loops, b1, b2, merge, header, s, temps, fuel);
    EnterAndJoin(o, eval, g, c, n, loops, b2.BranchIfOpen(header), merge, b1.cur, temps', fuel);
    n := 1 + n;
  }

  /** The iterations of a while loop, from its header. */
  lemma {:induction false} SimWhileFrom(eval: Eval, g: Region, name: LoopName, cond: Expr, body: Stmts, loops: Loops,
                                        b1: BuildState, b2: BuildState, merge: BlockId, header: BlockId,
                                        s: State, temps: Temps, fuel: nat) returns (n: nat, temps': Temps)
    requires LoopReady(name, body, loops, b1, b2, merge) && Agrees(b2.BranchIfOpen(header), g)
    requires header in g && g[header].code != [] && g[header].code[0] == ICondBr(Test(cond), b1.cur, merge)
    requires b2.BranchIfOpen(header).HasPredecessor(merge)
    ensures Leaves(RunWhile(eval, name, cond, body, s, fuel), eval, g, At(header, 0, s, temps), n, loops,
                   b2.BranchIfOpen(header), merge, temps', fuel)
    ensures Keeps(temps, temps', BoundInAll(body))
    ensures KeepsParams(s, RunWhile(eval, name, cond, body, s, fuel), BoundInAll(body))
    decreases fuel, body, 8
  {
    var c, b, r := At(header, 0, s, temps), b2.BranchIfOpen(header), eval.value(cond, s);
    n, temps' := if fuel == 0 then 0 else 1, temps;
    if fuel > 0 {
      assert Steps(eval, g, c, 1) == Step(eval, g, c);
      if r.Value? && r.v != 0 {
        var s1 := s.(store := r.store);
        n, temps' := SimWhileBody(eval, g, name, cond, body, loops, b1, b2, merge, header, c, s1, temps, fuel);
        assert RunWhile(eval, name, cond, body, s, fuel)
          == WhileNext(eval, name, cond, body, RunStmts(eval, body, body, s1, fuel), fuel - 1);
      }
    }
  }

  /** The rest of a while loop after its body ends with `o`. */
  ghost function WhileNext(eval: Eval, name: LoopName, cond: Expr, body: Stmts, o: Out, fuel: nat): Out {
    if o.Normal? then RunWhile(eval, name, cond, body, o.s, fuel) else LoopOut(name, o)
  }

  /** An iteration of a while loop, its condition true after step one of `c`, and all that follow. */
  lemma {:induction false} SimWhileBody(eval: Eval, g: Region, name: LoopName, cond: Expr, body: Stmts, loops: Loops,
                                        b1: BuildState, b2: BuildState, merge: BlockId, header: BlockId, c: Config,
                                        s: State, temps: Temps, fuel: nat) returns (n: nat, temps': Temps)
    requires LoopReady(name, body, loops, b1, b2, merge) && Agrees(b2.BranchIfOpen(header), g)
    requires header in g && g[header].code != [] && g[header].code[0] == ICondBr(Test(cond), b1.cur, merge)
    requires b2.BranchIfOpen(header).HasPredecessor(merge) && fuel > 0
    requires Steps(eval, g, c, 1) == At(b1.cur, 0, s, temps)
    ensures var o := WhileNext(eval, name, cond, body, RunStmts(eval, body, body, s, fuel), fuel - 1);
            && Leaves(o, eval, g, c, n, loops, b2.BranchIfOpen(header), merge, temps', fuel)
            && Keeps(temps, temps', BoundInAll(body)) && KeepsParams(s, o, BoundInAll(body))
    decreases fuel, body, 7
  {
    var b, inner := b2.BranchIfOpen(header), loops + [LoopEntry(merge, name)];
    var o := RunStmts(eval, body, body, s, fuel);
    var m, t := SimBranch(eval, g, body, inner, b1, b2, header, s, temps, fuel);
    PrependLeaves(o, eval, g, c, 1, m, inner, b, header, t, fuel);
    n, temps' := SimWhileAfter(eval, g, name, cond, body, loops, b1, b2, merge, header, c, o, 1 + m, t, fuel);
  }

  /** What follows once the body has ended with `o`, `m` steps after `c`. */
  lemma {:induction false} SimWhileAfter(eval: Eval, g: Region, name: LoopName, cond: Expr, body: Stmts, loops: Loops,
                                         b1: BuildState, b2: BuildState, merge: BlockId, header: BlockId, c: Config,
                                         o: Out, m: nat, temps: Temps, fuel: nat) returns (n: nat, temps': Temps)
    requires LoopReady(name, body, loops, b1, b2, merge) && Agrees(b2.BranchIfOpen(header), g)
    requires header in g && g[header].code != [] && g[header].code[0] == ICondBr(Test(cond), b1.cur, merge)
    requires b2.BranchIfOpen(header).HasPredecessor(merge) && fuel > 0 && m > 0
    requires Leaves(o, eval, g, c, m, loops + [LoopEntry(merge, name)], b2.BranchIfOpen(header), header, temps, fuel)
    ensures var o' := WhileNext(eval, name, cond, body, o, fuel - 1);
            && Leaves(o', eval, g, c, n, loops, b2.BranchIfOpen(header), merge, temps', fuel)
            && Keeps(temps, temps', BoundInAll(body)) && (!o.OutOfFuel? ==> KeepsParams(o.s, o', BoundInAll(body)))
    decreases fuel, body, 6
  {
    var b := b2.BranchIfOpen(header);
    if o.Normal? {
      n, temps' := SimWhileFrom(eval, g, name, cond, body, loops, b1, b2, merge, header, o.s, temps, fuel - 1);
      PrependLeaves(RunWhile(eval, name, cond, body, o.s, fuel - 1), eval, g, c, m, n, loops, b, merge, temps',
                    fuel - 1);
      n := m + n;
    } else {
      n, temps' := m, temps;
      LoopOutcome(o, eval, g, c, n, loops, LoopEntry(merge, name), b, temps', fuel);
    }
  }

  /** What emitting a while loop gives, and the branch to its header. */
  lemma WhileStarts(eval: Eval, g: Region, stmt: Stmt, loops: Loops, b0: BuildState, b': BuildState, s: State,
                    temps: Temps)
    returns (b1: BuildState, b2: BuildState, merge: BlockId, header: BlockId)
    requires Good(b0) && stmt.While? && Gen(stmt, loops, b0) == Some(b') && Agrees(b', g) && !b0.Terminated()
    requires Legal(stmt) && AllWaiting(b0, PlacedIn(stmt))
    ensures LoopReady(stmt.name, stmt.body, loops, b1, b2, merge)
    ensures b' == b2.BranchIfOpen(header).Join(merge, b1.cur) && b2.BranchIfOpen(header).BlockAt(merge) == EMPTY
    ensures Agrees(b2.BranchIfOpen(header), g)
    ensures header in g && g[header].code != [] && g[header].code[0] == ICondBr(Test(stmt.cond), b1.cur, merge)
    ensures b2.BranchIfOpen(header).HasPredecessor(merge)
    ensures Steps(eval, g, At(b0.cur, |b0.Code()|, s, temps), 1) == At(header, 0, s, temps)
  {
    merge, header := b0.free, b0.free + 2;
    b1, b2 := WhileBuilds(g, stmt, loops, b0, b');
    WhileEnters(eval, g, b0, b1, b2.BranchIfOpen(header), stmt.cond, s, temps);
  }

  /** The blocks of a while loop, and its body. */
  lemma WhileBuilds(g: Region, stmt: Stmt, loops: Loops, b0: BuildState, b': BuildState)
    returns (b1: BuildState, b2: BuildState)
    requires Good(b0) && stmt.While? && Gen(stmt, loops, b0) == Some(b') && Agrees(b', g)
    requires Legal(stmt) && AllWaiting(b0, PlacedIn(stmt))
    ensures b1 == WhileEntry(b0, stmt.cond) && LoopReady(stmt.name, stmt.body, loops, b1, b2, b0.free)
    ensures var b := b2.BranchIfOpen(b0.free + 2);
            && b' == b.Join(b0.free, b1.cur) && b.BlockAt(b0.free) == EMPTY
            && Agrees(b, g) && Agrees(b1, g) && Within(b1, b)
  {
    b1 := WhileEntry(b0, stmt.cond);
    b2 := GenStmts(stmt.body, loops + [LoopEntry(b0.free, stmt.name)], b1).value;
    WhileBlocks(b0, stmt.cond);
    WhileEntryEvolves(b0, stmt.cond, {});
    LoopParts(stmt.name, stmt.body, loops, b0, b1, b2, b0.free, b0.free + 2, g);
  }

  lemma WhileEnters(eval: Eval, g: Region, b0: BuildState, b1: BuildState, b: BuildState, cond: Expr, s: State,
                    temps: Temps)
    requires Good(b0) && b1 == WhileEntry(b0, cond) && Within(b1, b) && Agrees(b1, g)
    ensures b0.free + 2 in g && g[b0.free + 2].code != []
    ensures g[b0.free + 2].code[0] == ICondBr(Test(cond), b1.cur, b0.free)
    ensures b.HasPredecessor(b0.free)
    ensures Steps(eval, g, At(b0.cur, |b0.Code()|, s, temps), 1) == At(b0.free + 2, 0, s, temps)
  {
    WhileBlocks(b0, cond);
    var header := b0.free + 2;
    assert BlockAgrees(b1, g, header) && BlockAgrees(b1, g, b0.cur);
    assert b1.region[header].code[0] == g[header].code[0] && Targets(b1.region[header].code[0], b0.free);
    PredecessorStays(b1, b, b0.free);
    var c := At(b0.cur, |b0.Code()|, s, temps);
    assert g[b0.cur].code[|b0.Code()|] == b1.region[b0.cur].code[|b0.Code()|] == IBr(header, None);
    assert Steps(eval, g, c, 1) == Step(eval, g, c);
  }

  lemma WhileBlocks(b0: BuildState, cond: Expr)
    requires Good(b0)
    ensures var b1 := WhileEntry(b0, cond);
            && b1.cur == b0.free + 1 && b1.BlockAt(b0.free) == EMPTY && b1.Code() == [] && !b1.Terminated()
            && b0.free + 2 in b1.region && b1.region[b0.free + 2].code == [ICondBr(Test(cond), b0.free + 1, b0.free)]
            && b0.cur in b1.region && b1.region[b0.cur].code == b0.Code() + [IBr(b0.free + 2, None)]
  {
    assert BlockOk(b0, b0.cur);
  }

  lemma LoopWithin(body: Stmts, loops: Loops, b1: BuildState, b2: BuildState, dest: BlockId)
    requires Good(b1) && GenStmts(body, loops, b1) == Some(b2)
    ensures Good(b2) && Within(b1, b2) && Within(b1, b2.BranchIfOpen(dest))
  {
    GenStmtsEvolves(body, loops, b1, b2);
    EvolvesWithin(b1, b2, PlacedInAll(body));
    BranchWithin(b2, dest);
    WithinTwice(b1, b2, b2.BranchIfOpen(dest));
  }

  /** From the entry `b1` of a loop to its end: the merge block stays empty until then. */
  lemma LoopParts(name: LoopName, body: Stmts, loops: Loops, b0: BuildState, b1: BuildState, b2: BuildState,
                  merge: BlockId, dest: BlockId, g: Region)
    requires Good(b0) && Evolves(b0, b1, {}) && b1.labels == b0.labels && b1.Code() == []
    requires merge >= b0.free && b1.cur != merge && merge in b1.region && b1.region[merge] == EMPTY
    requires GenStmts(body, loops + [LoopEntry(merge, name)], b1) == Some(b2)
    requires Agrees(b2.BranchIfOpen(dest).Join(merge, b1.cur), g)
    requires LegalAll(body) && AllWaiting(b0, PlacedInAll(body))
    ensures LoopReady(name, body, loops, b1, b2, merge) && b2.BranchIfOpen(dest).BlockAt(merge) == EMPTY
    ensures Agrees(b2.BranchIfOpen(dest), g) && Agrees(b1, g) && Within(b1, b2.BranchIfOpen(dest))
  {
    var inner, b := loops + [LoopEntry(merge, name)], b2.BranchIfOpen(dest);
    StillWaiting(b0, b1, {}, PlacedInAll(body));
    MergeStaysEmpty(body, inner, b0, b1, b2, merge, dest);
    LoopWithin(body, inner, b1, b2, dest);
    JoinWithin(b, merge, b1.cur);
    AgreesBefore(b, b.Join(merge, b1.cur), g);
    AgreesBefore(b1, b, g);
  }

  // --------------------------------------------------------------- bare loops

  lemma {:induction false} SimLoop(eval: Eval, g: Region, stmt: Stmt, loops: Loops, b0: BuildState, b': BuildState,
                                   s: State, temps: Temps, fuel: nat) returns (n: nat, temps': Temps)
    requires Good(b0) && stmt.Loop? && Gen(stmt, loops, b0) == Some(b') && Agrees(b', g) && !b0.Terminated()
    requires Legal(stmt) && AllWaiting(b0, PlacedIn(stmt))
    ensures Matches(RunStmt(eval, stmt, s, fuel), eval, g, At(b0.cur, |b0.Code()|, s, temps), n, loops, b', temps',
                    fuel)
    ensures Keeps(temps, temps', BoundIn(stmt)) && KeepsParams(s, RunStmt(eval, stmt, s, fuel), BoundIn(stmt))
    decreases fuel, stmt, 2
  {
    var c := At(b0.cur, |b0.Code()|, s, temps);
    var o := RunLoop(eval, stmt.name, stmt.body, s, fuel);
    var b1, b2, merge := LoopStarts(eval, g, stmt, loops, b0, b', s, temps);
    n, temps' := SimLoopFrom(eval, g, stmt.name, stmt.body, loops, b1, b2, merge, s, temps, fuel);
    EnterAndJoin(o, eval, g, c, n, loops, b2.BranchIfOpen(b1.cur), merge, b1.cur, temps', fuel);
    n := 1 + n;
  }

  lemma {:induction false} SimLoopFrom(eval: Eval, g: Region, name: LoopName, body: Stmts, loops: Loops,
                                       b1: BuildState, b2: BuildState, merge: BlockId,
                                       s: State, temps: Temps, fuel: nat) returns (n: nat, temps': Temps)
    requires LoopReady(name, body, loops, b1, b2, merge) && Agrees(b2.BranchIfOpen(b1.cur), g)
    ensures Leaves(RunLoop(eval, name, body, s, fuel), eval, g, At(b1.cur, 0, s, temps), n, loops,
                   b2.BranchIfOpen(b1.cur), merge, temps', fuel)
    ensures Keeps(temps, temps', BoundInAll(body))
    ensures KeepsParams(s, RunLoop(eval, name, body, s, fuel), BoundInAll(body))
    decreases fuel, body, 6
  {
    var c, b, inner := At(b1.cur, 0, s, temps), b2.BranchIfOpen(b1.cur), loops + [LoopEntry(merge, name)];
    n, temps' := 0, temps;
    if fuel > 0 {
      var o := RunStmts(eval, body, body, s, fuel);
      n, temps' := SimBranch(eval, g, body, inner, b1, b2, b1.cur, s, temps, fuel);
      if o.Normal? {
        var n2;
        n2, temps' := SimLoopFrom(eval, g, name, body, loops, b1, b2, merge, o.s, temps', fuel - 1);
        PrependLeaves(RunLoop(eval, name, body, o.s, fuel - 1), eval, g, c, n, n2, loops, b, merge, temps', fuel - 1);
        n := n + n2;
      } else {
        LoopOutcome(o, eval, g, c, n, loops, LoopEntry(merge, name), b, temps', fuel);
      }
    }
  }

  lemma LoopStarts(eval: Eval, g: Region, stmt: Stmt, loops: Loops, b0: BuildState, b': BuildState, s: State,
                   temps: Temps)
    returns (b1: BuildState, b2: BuildState, merge: BlockId)
    requires Good(b0) && stmt.Loop? && Gen(stmt, loops, b0) == Some(b') && Agrees(b', g) && !b0.Terminated()
    requires Legal(stmt) && AllWaiting(b0, PlacedIn(stmt))
    ensures LoopReady(stmt.name, stmt.body, loops, b1, b2, merge)
    ensures b' == b2.BranchIfOpen(b1.cur).Join(merge, b1.cur) && b2.BranchIfOpen(b1.cur).BlockAt(merge) == EMPTY
    ensures Agrees(b2.BranchIfOpen(b1.cur), g)
    ensures Steps(eval, g, At(b0.cur, |b0.Code()|, s, temps), 1) == At(b1.cur, 0, s, temps)
  {
    merge := b0.free;
    var inner := loops + [LoopEntry(merge, stmt.name)];
    b1 := LoopEntered(b0);
    b2 := GenStmts(stmt.body, inner, b1).value;
    LoopBlocks(b0);
    LoopEntryEvolves(b0, {});
    LoopParts(stmt.name, stmt.body, loops, b0, b1, b2, merge, b1.cur, g);
    var c := At(b0.cur, |b0.Code()|, s, temps);
    assert BlockAgrees(b1, g, b0.cur);
    assert g[b0.cur].code[|b0.Code()|] == b1.region[b0.cur].code[|b0.Code()|] == IBr(b1.cur, None);
    assert Steps(eval, g, c, 1) == Step(eval, g, c);
  }

  lemma LoopBlocks(b0: BuildState)
    requires Good(b0)
    ensures var b1 := LoopEntered(b0);
            && b1.cur == b0.free + 1 && b1.BlockAt(b0.free) == EMPTY && b1.Code() == [] && !b1.Terminated()
            && b0.cur in b1.region && b1.region[b0.cur].code == b0.Code() + [IBr(b0.free + 1, None)]
  {
    assert BlockOk(b0, b0.cur);
  }

  // ---------------------------------------------------------------- for loops

  /** What emitting a for loop gives: the test and the step after the body, if
    * anything gets there, and the blocks of the body and of what follows. */
  ghost predicate ForReady(stmt: Stmt, loops: Loops, b1: BuildState, b2: BuildState, b': BuildState, merge: BlockId,
                           step: BlockId, g: Region)
    requires stmt.For?
  {
    && LoopReady(stmt.name, stmt.body, loops, b1, b2, merge) && Agrees(b2, g) && Within(b2, b')
    && b'.cur == merge && b'.Code() == [] && b'.HasPredecessor(merge)
    && b1.cur in g && g[b1.cur].arg == Some(stmt.param) && Legal(stmt)
    && (!b2.Terminated() ==>
        && b2.cur in g && |b2.Code()| < |g[b2.cur].code|
        && g[b2.cur].code[|b2.Code()|] == ICondBr(AtLast(stmt.param, stmt.reverse), merge, step)
        && step in g && |g[step].code| >= 2
        && g[step].code[0] == IStep(stmt.param, stmt.ty, stmt.reverse)
        && g[step].code[1] == IBr(b1.cur, Some(Next(stmt.param))))
  }

  lemma {:induction false} SimFor(eval: Eval, g: Region, stmt: Stmt, loops: Loops, b0: BuildState, b': BuildState,
                                  s: State, temps: Temps, fuel: nat) returns (n: nat, temps': Temps)
    requires Good(b0) && stmt.For? && Gen(stmt, loops, b0) == Some(b') && Agrees(b', g) && !b0.Terminated()
    requires Legal(stmt) && AllWaiting(b0, PlacedIn(stmt))
    ensures Matches(RunStmt(eval, stmt, s, fuel), eval, g, At(b0.cur, |b0.Code()|, s, temps), n, loops, b', temps',
                    fuel)
    ensures Keeps(temps, temps', BoundIn(stmt)) && KeepsParams(s, RunStmt(eval, stmt, s, fuel), BoundIn(stmt))
    decreases fuel, stmt, 2
  {
    var c, o := At(b0.cur, |b0.Code()|, s, temps), RunStmt(eval, stmt, s, fuel);
    var b1, b2, merge, step := ForStarts(stmt, loops, b0, b', g);
    var e := EntryOf(eval, stmt, s, temps);
    n := ForEnters(eval, g, b0, b1, stmt, s, temps);
    EntryMeans(eval, stmt, s, temps, fuel);
    if e.Enters? {
      n, temps' := SimForEntered(eval, g, stmt, loops, b1, b2, b', merge, step, c, n, e, fuel);
    } else {
      temps' := if e.Skips? then e.temps else temps;
    }
  }

  /** How the entry of a for loop ends: with a first value, past an empty range, or raising. */
  datatype Entry =
    | Enters(i: int, lo: int, hi: int, s: State, temps: Temps)
    | Skips(s: State, temps: Temps)
    | Fails(store: Store)

  ghost function EntryOf(eval: Eval, stmt: Stmt, s: State, temps: Temps): Entry
    requires stmt.For?
  {
    match eval.value(stmt.low, s)
    case Raise(store) => Fails(store)
    case Value(lo, store) =>
      match eval.value(stmt.high, s.(store := store))
      case Raise(store) => Fails(store)
      case Value(hi, store) =>
        var temps' := temps[Low(stmt.param) := lo][High(stmt.param) := hi];
        if !stmt.ty.Has(lo) || !stmt.ty.Has(hi) then Fails(store)
        else if lo > hi then Skips(s.(store := store), temps')
        else Enters(if stmt.reverse then hi else lo, lo, hi, s.(store := store), temps')
  }

  lemma EntryMeans(eval: Eval, stmt: Stmt, s: State, temps: Temps, fuel: nat)
    requires stmt.For?
    ensures var o, e := RunStmt(eval, stmt, s, fuel), EntryOf(eval, stmt, s, temps);
            && (e.Fails? ==> o == Raised(s.(store := e.store)))
            && (!e.Fails? ==> e.s.params == s.params && Keeps(temps, e.temps, {stmt.param}))
            && (e.Skips? ==> o == Normal(e.s))
            && (e.Enters? ==>
                && o == RunFor(eval, stmt.name, stmt.param, e.i, e.lo, e.hi, stmt.reverse, stmt.body, e.s, fuel)
                && e.lo <= e.i <= e.hi && stmt.ty.Has(e.lo) && stmt.ty.Has(e.hi)
                && HoldsBounds(e.temps, stmt.param, e.lo, e.hi))
  {
  }

  ghost predicate HoldsBounds(temps: Temps, x: Param, lo: int, hi: int) {
    Low(x) in temps && temps[Low(x)] == lo && High(x) in temps && temps[High(x)] == hi
  }

  /** A for loop whose first iteration starts `k` steps after `c`. */
  lemma {:induction false} SimForEntered(eval: Eval, g: Region, stmt: Stmt, loops: Loops, b1: BuildState,
                                         b2: BuildState, b': BuildState, merge: BlockId, step: BlockId, c: Config,
                                         k: nat, e: Entry, fuel: nat)
    returns (n: nat, temps': Temps)
    requires stmt.For? && ForReady(stmt, loops, b1, b2, b', merge, step, g) && e.Enters?
    requires e.lo <= e.i <= e.hi && stmt.ty.Has(e.lo) && stmt.ty.Has(e.hi)
    requires HoldsBounds(e.temps, stmt.param, e.lo, e.hi)
    requires Steps(eval, g, c, k) == At(b1.cur, 0, e.s.(params := e.s.params[stmt.param := e.i]), e.temps)
    ensures var o := RunFor(eval, stmt.name, stmt.param, e.i, e.lo, e.hi, stmt.reverse, stmt.body, e.s, fuel);
            && Matches(o, eval, g, c, n, loops, b', temps', fuel)
            && Keeps(e.temps, temps', BoundIn(stmt)) && KeepsParams(e.s, o, BoundIn(stmt))
    decreases fuel, stmt.body, 10
  {
    var o := RunFor(eval, stmt.name, stmt.param, e.i, e.lo, e.hi, stmt.reverse, stmt.body, e.s, fuel);
    n, temps' := SimForFrom(eval, g, stmt, loops, b1, b2, b', merge, step, e.i, e.lo, e.hi, e.s, e.temps, fuel);
    EnterAndLand(o, eval, g, c, k, n, loops, b', temps', fuel);
    n := k + n;
  }

  /** The iterations of a for loop, from the one with the value `i`. */
  lemma {:induction false} SimForFrom(eval: Eval, g: Region, stmt: Stmt, loops: Loops, b1: BuildState, b2: BuildState,
                                      b': BuildState, merge: BlockId, step: BlockId, i: int, lo: int, hi: int, s: State,
                                      temps: Temps, fuel: nat)
    returns (n: nat, temps': Temps)
    requires stmt.For? && ForReady(stmt, loops, b1, b2, b', merge, step, g)
    requires lo <= i <= hi && stmt.ty.Has(lo) && stmt.ty.Has(hi) && HoldsBounds(temps, stmt.param, lo, hi)
    ensures var o := RunFor(eval, stmt.name, stmt.param, i, lo, hi, stmt.reverse, stmt.body, s, fuel);
            && Leaves(o, eval, g, At(b1.cur, 0, s.(params := s.params[stmt.param := i]), temps), n, loops, b', merge,
                      temps', fuel)
            && Keeps(temps, temps', BoundIn(stmt)) && KeepsParams(s, o, BoundIn(stmt))
    decreases fuel, stmt.body, 8
  {
    n, temps' := 0, temps;
    if fuel > 0 {
      var s1, body := s.(params := s.params[stmt.param := i]), stmt.body;
      var c, o := At(b1.cur, 0, s1, temps), RunStmts(eval, body, body, s1, fuel);
      var m, t := SimStmts(eval, g, body, b1, body, loops + [LoopEntry(merge, stmt.name)], b1, b2, s1, temps, fuel);
      assert RunFor(eval, stmt.name, stmt.param, i, lo, hi, stmt.reverse, body, s, fuel)
        == ForNext(eval, stmt, i, lo, hi, o, fuel - 1);
      n, temps' := SimForAfter(eval, g, stmt, loops, b1, b2, b', merge, step, c, o, m, i, lo, hi, t, fuel);
    }
  }

  /** What follows once the body has ended with `o`, `m` steps after `c`. */
  lemma {:induction false} SimForAfter(eval: Eval, g: Region, stmt: Stmt, loops: Loops, b1: BuildState, b2: BuildState,
                                       b': BuildState, merge: BlockId, step: BlockId, c: Config, o: Out, m: nat, i: int,
                                       lo: int, hi: int, temps: Temps, fuel: nat)
    returns (n: nat, temps': Temps)
    requires stmt.For? && ForReady(stmt, loops, b1, b2, b', merge, step, g) && fuel > 0
    requires lo <= i <= hi && stmt.ty.Has(lo) && stmt.ty.Has(hi) && HoldsBounds(temps, stmt.param, lo, hi)
    requires Matches(o, eval, g, c, m, loops + [LoopEntry(merge, stmt.name)], b2, temps, fuel)
    requires o.Normal? ==> stmt.param in o.s.params && o.s.params[stmt.param] == i
    ensures Leaves(ForNext(eval, stmt, i, lo, hi, o, fuel - 1), eval, g, c, n, loops, b', merge, temps', fuel)
    ensures Keeps(temps, temps', BoundIn(stmt))
    ensures !o.OutOfFuel? ==> KeepsParams(o.s, ForNext(eval, stmt, i, lo, hi, o, fuel - 1), BoundIn(stmt))
    decreases fuel, stmt.body, 7
  {
    if o.Normal? {
      n, temps' := SimForNext(eval, g, stmt, loops, b1, b2, b', merge, step, i, lo, hi, o.s, temps, fuel - 1);
      PrependLeaves(ForNext(eval, stmt, i, lo, hi, o, fuel - 1), eval, g, c, m, n, loops, b', merge, temps', fuel);
      n := m + n;
    } else {
      n, temps' := m, temps;
      LoopLeft(o, eval, g, c, n, loops, LoopEntry(merge, stmt.name), b2, b', temps', fuel);
    }
  }

  /** The rest of a for loop after its body ends with `o`. */
  ghost function ForNext(eval: Eval, stmt: Stmt, i: int, lo: int, hi: int, o: Out, fuel: nat): Out
    requires stmt.For?
  {
    if o.Normal? then
      RunFor(eval, stmt.name, stmt.param, if stmt.reverse then i - 1 else i + 1, lo, hi, stmt.reverse, stmt.body, o.s,
             fuel)
    else LoopOut(stmt.name, o)
  }

  /** After an iteration that falls through: the test for the last value, then the step. */
  lemma {:induction false} SimForNext(eval: Eval, g: Region, stmt: Stmt, loops: Loops, b1: BuildState, b2: BuildState,
                                      b': BuildState, merge: BlockId, step: BlockId, i: int, lo: int, hi: int, s: State,
                                      temps: Temps, fuel: nat)
    returns (n: nat, temps': Temps)
    requires stmt.For? && ForReady(stmt, loops, b1, b2, b', merge, step, g) && !b2.Terminated()
    requires lo <= i <= hi && stmt.ty.Has(lo) && stmt.ty.Has(hi) && HoldsBounds(temps, stmt.param, lo, hi)
    requires stmt.param in s.params && s.params[stmt.param] == i
    ensures var i' := if stmt.reverse then i - 1 else i + 1;
            var o := RunFor(eval, stmt.name, stmt.param, i', lo, hi, stmt.reverse, stmt.body, s, fuel);
            && Leaves(o, eval, g, At(b2.cur, |b2.Code()|, s, temps), n, loops, b', merge, temps', fuel + 1)
            && Keeps(temps, temps', BoundIn(stmt)) && KeepsParams(s, o, BoundIn(stmt))
    decreases fuel, stmt.body, 9
  {
    var c := At(b2.cur, |b2.Code()|, s, temps);
    ForTests(eval, g, stmt, loops, b1, b2, b', merge, step, i, lo, hi, s, temps);
    if i == (if stmt.reverse then lo else hi) {
      n, temps' := 1, temps;
      ForLast(eval, g, stmt, loops, b', merge, c, i, lo, hi, s, temps, fuel);
    } else {
      var x, i' := stmt.param, if stmt.reverse then i - 1 else i + 1;
      ForSteps(eval, g, stmt, b1.cur, merge, step, c, i');
      n, temps' := SimForFrom(eval, g, stmt, loops, b1, b2, b', merge, step, i', lo, hi, s, temps[Next(x) := i'], fuel);
      PrependLeaves(RunFor(eval, stmt.name, x, i', lo, hi, stmt.reverse, stmt.body, s, fuel), eval, g, c, 3, n, loops,
                    b', merge, temps', fuel);
      n := 3 + n;
    }
  }

  /** Past the last value, no iteration is left. */
  lemma ForLast(eval: Eval, g: Region, stmt: Stmt, loops: Loops, b': BuildState, merge: BlockId, c: Config, i: int,
                lo: int, hi: int, s: State, temps: Temps, fuel: nat)
    requires stmt.For? && b'.HasPredecessor(merge) && i == if stmt.reverse then lo else hi
    requires Steps(eval, g, c, 1) == At(merge, 0, s, temps)
    ensures var i' := if stmt.reverse then i - 1 else i + 1;
            var o := RunFor(eval, stmt.name, stmt.param, i', lo, hi, stmt.reverse, stmt.body, s, fuel);
            o == Normal(s) && Leaves(o, eval, g, c, 1, loops, b', merge, temps, fuel + 1)
  {
  }

  /** Testing for the last value: to the block after the loop, or to the step. */
  lemma ForTests(eval: Eval, g: Region, stmt: Stmt, loops: Loops, b1: BuildState, b2: BuildState, b': BuildState,
                 merge: BlockId, step: BlockId, i: int, lo: int, hi: int, s: State, temps: Temps)
    requires stmt.For? && ForReady(stmt, loops, b1, b2, b', merge, step, g) && !b2.Terminated()
    requires HoldsBounds(temps, stmt.param, lo, hi) && stmt.param in s.params && s.params[stmt.param] == i
    ensures Steps(eval, g, At(b2.cur, |b2.Code()|, s, temps), 1)
         == At(if i == (if stmt.reverse then lo else hi) then merge else step, 0, s, temps)
  {
    var c := At(b2.cur, |b2.Code()|, s, temps);
    assert Steps(eval, g, c, 1) == Step(eval, g, c);
  }

  lemma ForSteps(eval: Eval, g: Region, stmt: Stmt, bodyBlock: BlockId, merge: BlockId, step: BlockId, c: Config,
                 i': int)
    requires stmt.For? && stmt.ty.Valid() && stmt.ty.Has(i') && c.At?
    requires stmt.param in c.s.params && c.s.params[stmt.param] == (if stmt.reverse then i' + 1 else i' - 1)
    requires Steps(eval, g, c, 1) == At(step, 0, c.s, c.temps)
    requires step in g && |g[step].code| >= 2 && bodyBlock in g && g[bodyBlock].arg == Some(stmt.param)
    requires g[step].code[0] == IStep(stmt.param, stmt.ty, stmt.reverse)
    requires g[step].code[1] == IBr(bodyBlock, Some(Next(stmt.param)))
    ensures Steps(eval, g, c, 3) == At(bodyBlock, 0, c.s.(params := c.s.params[stmt.param := i']),
                                       c.temps[Next(stmt.param) := i'])
  {
    WrapExact(stmt.ty.machine, i');
    StepNext(eval, g, c, 1);
    StepNext(eval, g, c, 2);
  }

  lemma WrapExact(m: Machine, x: int)
    requires m.Valid() && m.First() <= x <= m.Last()
    ensures m.Wrap(x) == x
  {
  }

  // -------------------------------------------------- the blocks of a for loop

  lemma ForBlocks(b0: BuildState, x: Param, ty: ParamType, low: Expr, high: Expr, rev: bool)
    requires Good(b0)
    ensures var b1, merge, bodyBlock, init := ForEntry(b0, x, ty, low, high, rev), b0.free, b0.free + 2, b0.free + 3;
            && b1.cur == bodyBlock && b1.Code() == [] && !b1.Terminated()
            && b1.BlockAt(merge) == EMPTY && b1.BlockAt(b0.free + 1) == EMPTY
            && b1.BlockAt(bodyBlock) == CfgBlock(Some(x), [])
            && b1.BlockAt(init).code == [IBr(bodyBlock, Some(if rev then High(x) else Low(x)))]
            && b1.BlockAt(b0.cur).code == b0.Code() +
               [IBound(Low(x), low), IBound(High(x), high), IConvert(Low(x), ty), IConvert(High(x), ty),
                ICondBr(NonEmpty(x), init, merge)]
  {
    assert BlockOk(b0, b0.cur);
  }

  lemma ForStarts(stmt: Stmt, loops: Loops, b0: BuildState, b': BuildState, g: Region)
    returns (b1: BuildState, b2: BuildState, merge: BlockId, step: BlockId)
    requires Good(b0) && stmt.For? && Gen(stmt, loops, b0) == Some(b') && Agrees(b', g) && !b0.Terminated()
    requires Legal(stmt) && AllWaiting(b0, PlacedIn(stmt))
    ensures b1 == ForEntry(b0, stmt.param, stmt.ty, stmt.low, stmt.high, stmt.reverse) && Agrees(b1, g)
    ensures merge == b0.free
    ensures ForReady(stmt, loops, b1, b2, b', merge, step, g)
  {
    var For(name, x, ty, low, high, rev, body) := stmt;
    merge, step := b0.free, b0.free + 1;
    b1 := ForEntry(b0, x, ty, low, high, rev);
    b2 := GenStmts(body, loops + [LoopEntry(merge, name)], b1).value;
    ForBlocks(b0, x, ty, low, high, rev);
    ForEntryEvolves(b0, x, ty, low, high, rev, {});
    StillWaiting(b0, b1, {}, PlacedIn(stmt));
    ForBodyWithin(stmt, loops, b0, b1, b2, b', merge, step);
    AgreesBefore(b2, b', g);
    AgreesBefore(b1, b', g);
    assert BlockAgrees(b1, g, b1.cur);
    if !b2.Terminated() { assert BlockAgrees(b', g, b2.cur) && BlockAgrees(b', g, step); }
  }

  /** The blocks after the body are emitted past everything else. */
  lemma ForBodyWithin(stmt: Stmt, loops: Loops, b0: BuildState, b1: BuildState, b2: BuildState, b': BuildState,
                      merge: BlockId, step: BlockId)
    requires Good(b0) && stmt.For? && b1 == ForEntry(b0, stmt.param, stmt.ty, stmt.low, stmt.high, stmt.reverse)
    requires merge == b0.free && step == b0.free + 1
    requires GenStmts(stmt.body, loops + [LoopEntry(merge, stmt.name)], b1) == Some(b2)
    requires b' == ForEnd(b2, stmt.param, stmt.ty, stmt.reverse, merge, step, b1.cur)
    ensures Within(b2, b') && Within(b1, b') && b'.cur == merge && b'.Code() == [] && b'.HasPredecessor(merge)
    ensures !b2.Terminated() ==>
      && b2.cur in b'.region
      && b'.region[b2.cur].code == b2.Code() + [ICondBr(AtLast(stmt.param, stmt.reverse), merge, step)]
      && step in b'.region
      && b'.region[step].code == [IStep(stmt.param, stmt.ty, stmt.reverse), IBr(b1.cur, Some(Next(stmt.param)))]
  {
    var For(name, x, ty, low, high, rev, body) := stmt;
    var inner := loops + [LoopEntry(merge, name)];
    ForBlocks(b0, x, ty, low, high, rev);
    ForEntryEvolves(b0, x, ty, low, high, rev, {});
    MergeStaysEmpty(body, inner, b0, b1, b2, merge, merge);
    MergeStaysEmpty(body, inner, b0, b1, b2, step, step);
    LoopWithin(body, inner, b1, b2, merge);
    ForEndWithin(b2, x, ty, rev, merge, step, b1.cur);
    WithinTwice(b1, b2, b');
    ForPredecessor(b0, stmt, b1, b');
  }

  lemma ForEndWithin(b2: BuildState, x: Param, ty: ParamType, rev: bool, merge: BlockId, step: BlockId,
                     bodyBlock: BlockId)
    requires Good(b2) && merge != step && b2.cur != merge && b2.cur != step
    requires b2.BlockAt(merge) == EMPTY && b2.BlockAt(step) == EMPTY
    ensures var b' := ForEnd(b2, x, ty, rev, merge, step, bodyBlock);
            && Within(b2, b') && b'.cur == merge && b'.Code() == []
            && (!b2.Terminated() ==>
                && b2.cur in b'.region && b'.region[b2.cur].code == b2.Code() + [ICondBr(AtLast(x, rev), merge, step)]
                && step in b'.region && b'.region[step].code == [IStep(x, ty, rev), IBr(bodyBlock, Some(Next(x)))])
  {
    var b' := ForEnd(b2, x, ty, rev, merge, step, bodyBlock);
    forall i ensures BlockWithin(b2, b', i) {}
    forall l ensures LabelWithin(b2, b', l) {}
  }

  lemma ForPredecessor(b0: BuildState, stmt: Stmt, b1: BuildState, b': BuildState)
    requires Good(b0) && stmt.For? && b1 == ForEntry(b0, stmt.param, stmt.ty, stmt.low, stmt.high, stmt.reverse)
    requires Within(b1, b')
    ensures b'.HasPredecessor(b0.free)
  {
    ForBlocks(b0, stmt.param, stmt.ty, stmt.low, stmt.high, stmt.reverse);
    assert Targets(b1.region[b0.cur].code[|b0.Code()| + 4], b0.free);
    PredecessorStays(b1, b', b0.free);
  }

  /** Executing the entry of a for loop. */
  lemma ForEnters(eval: Eval, g: Region, b0: BuildState, b1: BuildState, stmt: Stmt, s: State, temps: Temps)
    returns (n: nat)
    requires Good(b0) && stmt.For? && Agrees(b1, g)
    requires b1 == ForEntry(b0, stmt.param, stmt.ty, stmt.low, stmt.high, stmt.reverse)
    ensures n > 0
    ensures var e, c' := EntryOf(eval, stmt, s, temps), Steps(eval, g, At(b0.cur, |b0.Code()|, s, temps), n);
            && (e.Fails? ==> c' == Ended(FRaised(e.store)))
            && (e.Skips? ==> c' == At(b0.free, 0, e.s, e.temps))
            && (e.Enters? ==> c' == At(b1.cur, 0, e.s.(params := e.s.params[stmt.param := e.i]), e.temps))
  {
    ForCode(g, b0, b1, stmt);
    var c := At(b0.cur, |b0.Code()|, s, temps);
    StepNext(eval, g, c, 0);
    n := 1;
    var low := eval.value(stmt.low, s);
    if low.Value? {
      StepNext(eval, g, c, 1);
      n := 2;
      var high := eval.value(stmt.high, s.(store := low.store));
      if high.Value? {
        n := ForConverts(eval, g, b0, b1, stmt, c, low.v, high.v, s.(store := high.store), temps);
      }
    }
  }

  /** Where the instructions of the entry are. */
  lemma ForCode(g: Region, b0: BuildState, b1: BuildState, stmt: Stmt)
    requires Good(b0) && stmt.For? && Agrees(b1, g)
    requires b1 == ForEntry(b0, stmt.param, stmt.ty, stmt.low, stmt.high, stmt.reverse)
    ensures EntryCode(g, b0, stmt) && b1.cur == b0.free + 2
  {
    var x, k := stmt.param, |b0.Code()|;
    ForBlocks(b0, x, stmt.ty, stmt.low, stmt.high, stmt.reverse);
    assert BlockAgrees(b1, g, b0.cur) && BlockAgrees(b1, g, b0.free + 2) && BlockAgrees(b1, g, b0.free + 3);
    var code := b1.region[b0.cur].code;
    assert code == g[b0.cur].code[..|code|];
    assert code[k] == IBound(Low(x), stmt.low) && code[k + 1] == IBound(High(x), stmt.high)
        && code[k + 2] == IConvert(Low(x), stmt.ty)
        && code[k + 3] == IConvert(High(x), stmt.ty) && code[k + 4] == ICondBr(NonEmpty(x), b0.free + 3, b0.free);
  }

  ghost predicate EntryCode(g: Region, b0: BuildState, stmt: Stmt)
    requires stmt.For?
  {
    var x, k, init := stmt.param, |b0.Code()|, b0.free + 3;
    && b0.cur in g && k + 5 <= |g[b0.cur].code|
    && g[b0.cur].code[k] == IBound(Low(x), stmt.low) && g[b0.cur].code[k + 1] == IBound(High(x), stmt.high)
    && g[b0.cur].code[k + 2] == IConvert(Low(x), stmt.ty) && g[b0.cur].code[k + 3] == IConvert(High(x), stmt.ty)
    && g[b0.cur].code[k + 4] == ICondBr(NonEmpty(x), init, b0.free)
    && init in g && g[init].code != []
    && g[init].code[0] == IBr(b0.free + 2, Some(if stmt.reverse then High(x) else Low(x)))
    && b0.free + 2 in g && g[b0.free + 2].arg == Some(x)
  }

  /** The last steps of the entry, from the third, once both bounds have their values. */
  lemma ForConverts(eval: Eval, g: Region, b0: BuildState, b1: BuildState, stmt: Stmt, c: Config, lo: int, hi: int,
                    s: State, temps: Temps)
    returns (n: nat)
    requires stmt.For? && EntryCode(g, b0, stmt) && b1.cur == b0.free + 2
    requires var temps' := temps[Low(stmt.param) := lo][High(stmt.param) := hi];
             Steps(eval, g, c, 2) == At(b0.cur, |b0.Code()| + 2, s, temps')
    ensures n > 0
    ensures var c', temps' := Steps(eval, g, c, n), temps[Low(stmt.param) := lo][High(stmt.param) := hi];
      if !stmt.ty.Has(lo) || !stmt.ty.Has(hi) then c' == Ended(FRaised(s.store))
      else if lo > hi then c' == At(b0.free, 0, s, temps')
      else c' == At(b1.cur, 0, s.(params := s.params[stmt.param := if stmt.reverse then hi else lo]), temps')
  {
    StepNext(eval, g, c, 2);
    n := 3;
    if stmt.ty.Has(lo) {
      StepNext(eval, g, c, 3);
      n := 4;
      if stmt.ty.Has(hi) {
        var temps' := temps[Low(stmt.param) := lo][High(stmt.param) := hi];
        n := ForBranches(eval, g, b0, stmt, c, lo, hi, s, temps');
      }
    }
  }

  /** The test for a null range, and the branch to the body with the first value. */
  lemma ForBranches(eval: Eval, g: Region, b0: BuildState, stmt: Stmt, c: Config, lo: int, hi: int, s: State,
                    temps: Temps)
    returns (n: nat)
    requires stmt.For? && EntryCode(g, b0, stmt) && HoldsBounds(temps, stmt.param, lo, hi)
    requires Steps(eval, g, c, 4) == At(b0.cur, |b0.Code()| + 4, s, temps)
    ensures n > 0
    ensures Steps(eval, g, c, n)
         == if lo > hi then At(b0.free, 0, s, temps)
            else At(b0.free + 2, 0, s.(params := s.params[stmt.param := if stmt.reverse then hi else lo]), temps)
  {
    StepNext(eval, g, c, 4);
    n := 5;
    if lo <= hi {
      StepNext(eval, g, c, 5);
      n := 6;
    }
  }
}
