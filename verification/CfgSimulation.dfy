/** How a graph follows the structured semantics: what it means that a run of the
  * blocks matches an outcome, and the statements that contain no others.
  */
module CfgSimulation {
  import opened Options
  import opened Statements
  import opened Cfg
  import opened CfgGrowth

  // --------------------------------------------------- sources that are legal

  function BoundIn(stmt: Stmt): set<Param> {
    match stmt
    case If(guards) => BoundInGuards(guards)
    case While(_, _, body) => BoundInAll(body)
    case Loop(_, body) => BoundInAll(body)
    case For(_, x, _, _, _, _, body) => {x} + BoundInAll(body)
    case Block(body) => BoundInAll(body)
    case _ => {}
  }

  function BoundInAll(list: Stmts): set<Param> {
    if list.Nil? then {} else BoundIn(list.head) + BoundInAll(list.tail)
  }

  function BoundInGuards(guards: Guards): set<Param> {
    match guards
    case NoElse => {}
    case Else(body) => BoundInAll(body)
    case Guard(_, body, rest) => BoundInAll(body) + BoundInGuards(rest)
  }

  /** A label is declared once, a loop parameter is not declared again inside its
    * loop, and parameter subtypes are ranges of their machine types. */
  ghost predicate Legal(stmt: Stmt) {
    match stmt
    case If(guards) => guards.Guard? && LegalGuards(guards)
    case While(_, _, body) => LegalAll(body)
    case Loop(_, body) => LegalAll(body)
    case For(_, x, ty, _, _, _, body) => ty.Valid() && x !in BoundInAll(body) && LegalAll(body)
    case Block(body) => LegalAll(body)
    case _ => true
  }

  ghost predicate LegalAll(list: Stmts) {
    list.Cons? ==> Legal(list.head) && LegalAll(list.tail) && PlacedIn(list.head) !! PlacedInAll(list.tail)
  }

  ghost predicate LegalGuards(guards: Guards) {
    match guards
    case NoElse => true
    case Else(body) => LegalAll(body)
    case Guard(_, body, rest) => LegalAll(body) && LegalGuards(rest) && PlacedInAll(body) !! PlacedInGuards(rest)
  }

  // ------------------------------------------------------- the finished graph

  const EMPTY := CfgBlock(None, [])

  ghost predicate BlockAgrees(b: BuildState, g: Region, i: BlockId) {
    i in b.region && b.region[i] != EMPTY ==>
      i in g && g[i].arg == b.region[i].arg && b.region[i].code <= g[i].code
  }

  /** Whatever has been emitted so far is still there in the graph `g`. */
  ghost predicate Agrees(b: BuildState, g: Region) {
    forall i {:trigger BlockAgrees(b, g, i)} :: BlockAgrees(b, g, i)
  }

  ghost predicate BlockWithin(b1: BuildState, b2: BuildState, i: BlockId) {
    i in b1.region && b1.region[i] != EMPTY ==>
      i in b2.region && b2.region[i].arg == b1.region[i].arg && b1.region[i].code <= b2.region[i].code
  }

  ghost predicate LabelWithin(b1: BuildState, b2: BuildState, l: Label) {
    l in b1.labels ==> l in b2.labels && b2.labels[l] == b1.labels[l]
  }

  /** `b2` still has whatever `b1` had emitted; the insertion point, and blocks
    * left empty, may differ. */
  ghost predicate Within(b1: BuildState, b2: BuildState) {
    && (forall i {:trigger BlockWithin(b1, b2, i)} :: BlockWithin(b1, b2, i))
    && (forall l {:trigger LabelWithin(b1, b2, l)} :: LabelWithin(b1, b2, l))
  }

  lemma EvolvesWithin(b0: BuildState, b1: BuildState, ls: set<Label>)
    requires Evolves(b0, b1, ls)
    ensures Within(b0, b1)
  {
    forall i ensures BlockWithin(b0, b1, i) { assert Kept(b0, b1, ls, i); }
    forall l ensures LabelWithin(b0, b1, l) { assert LabelKept(b0, b1, ls, l); }
  }

  lemma WithinTwice(b0: BuildState, b1: BuildState, b2: BuildState)
    requires Within(b0, b1) && Within(b1, b2)
    ensures Within(b0, b2)
  {
    forall i ensures BlockWithin(b0, b2, i) { assert BlockWithin(b0, b1, i) && BlockWithin(b1, b2, i); }
    forall l ensures LabelWithin(b0, b2, l) { assert LabelWithin(b0, b1, l) && LabelWithin(b1, b2, l); }
  }

  lemma WithinMoved(b: BuildState, to: BlockId)
    ensures Within(b, b.MoveTo(to)) && Within(b.MoveTo(to), b)
  {
  }

  lemma WithinErased(b: BuildState, e: BlockId)
    requires b.BlockAt(e) == EMPTY
    ensures Within(b, b.Erase(e))
  {
  }

  lemma AgreesBefore(b0: BuildState, b1: BuildState, g: Region)
    requires Within(b0, b1) && Agrees(b1, g)
    ensures Agrees(b0, g)
  {
    forall i ensures BlockAgrees(b0, g, i) { assert BlockWithin(b0, b1, i) && BlockAgrees(b1, g, i); }
  }

  /** The emitted instructions are where the builder put them. */
  lemma Emitted(b: BuildState, g: Region, code: seq<Instr>)
    requires Agrees(b.EmitAll(code), g) && code != []
    ensures b.cur in g && |b.Code()| + |code| <= |g[b.cur].code|
    ensures g[b.cur].code[|b.Code()|..|b.Code()| + |code|] == code
  {
    assert BlockAgrees(b.EmitAll(code), g, b.cur);
    var all := b.Code() + code;
    assert g[b.cur].code[..|all|] == all;
    assert all[|b.Code()|..] == code;
  }

  lemma {:induction false} StepsAdd(eval: Eval, g: Region, c: Config, m: nat, n: nat)
    ensures Steps(eval, g, c, m + n) == Steps(eval, g, Steps(eval, g, c, m), n)
    decreases m
  {
    if m > 0 { StepsAdd(eval, g, Step(eval, g, c), m - 1, n); }
  }

  lemma {:induction false} StepNext(eval: Eval, g: Region, c: Config, n: nat)
    ensures Steps(eval, g, c, n + 1) == Step(eval, g, Steps(eval, g, c, n))
  {
    StepsAdd(eval, g, c, n, 1);
    assert Steps(eval, g, Steps(eval, g, c, n), 1) == Step(eval, g, Steps(eval, g, c, n));
  }

  // ------------------------------------------------------------- simulation

  /** Where the graph is when the structured semantics ends with `o`, after `n`
    * steps from `c`. The fuel bounds the steps of a run that has not ended. */
  ghost predicate Matches(o: Out, eval: Eval, g: Region, c: Config, n: nat, loops: Loops, b': BuildState, temps': Temps,
                          fuel: nat) {
    var c' := Steps(eval, g, c, n);
    match o
    case Normal(s') => !b'.Terminated() && c' == At(b'.cur, |b'.Code()|, s', temps')
    case Exited(name, s') =>
      var d := ExitTarget(loops, name);
      d.Some? && b'.HasPredecessor(d.value) && c' == At(d.value, 0, s', temps')
    case Jumped(l, s') => n >= 1 && l in b'.labels && c' == At(b'.labels[l], 0, s', temps')
    case Returned(v, s') => c' == Ended(FReturned(v, s'.store))
    case Raised(s') => c' == Ended(FRaised(s'.store))
    case OutOfFuel => n >= fuel && c'.At?
  }

  function ParamOf(t: Temp): Param { t.param }

  /** Only the temporaries of the loops in `bound` change. */
  ghost predicate Keeps(temps: Temps, temps': Temps, bound: set<Param>) {
    forall t :: t in temps && ParamOf(t) !in bound ==> t in temps' && temps'[t] == temps[t]
  }

  /** Steps before, with fuel to spare, keep a match. */
  lemma Prepend(o: Out, eval: Eval, g: Region, c: Config, m: nat, n: nat, loops: Loops, b': BuildState, temps': Temps,
                fuel: nat)
    requires Matches(o, eval, g, Steps(eval, g, c, m), n, loops, b', temps', fuel)
    ensures Matches(o, eval, g, c, m + n, loops, b', temps', fuel)
    ensures m > 0 ==> Matches(o, eval, g, c, m + n, loops, b', temps', fuel + 1)
  {
    StepsAdd(eval, g, c, m, n);
  }

  lemma PredecessorStays(b0: BuildState, b1: BuildState, i: BlockId)
    requires Within(b0, b1) && b0.HasPredecessor(i)
    ensures b1.HasPredecessor(i)
  {
    var p :| p in b0.region && exists k :: 0 <= k < |b0.region[p].code| && Targets(b0.region[p].code[k], i);
    var k :| 0 <= k < |b0.region[p].code| && Targets(b0.region[p].code[k], i);
    assert BlockWithin(b0, b1, p);
    assert b1.region[p].code[k] == b0.region[p].code[k];
  }

  /** An outcome other than falling through is not affected by what is emitted later. */
  lemma Carries(o: Out, eval: Eval, g: Region, c: Config, n: nat, loops: Loops, b1: BuildState, b2: BuildState,
                temps': Temps, fuel: nat)
    requires Matches(o, eval, g, c, n, loops, b1, temps', fuel) && !o.Normal? && Within(b1, b2)
    ensures Matches(o, eval, g, c, n, loops, b2, temps', fuel)
  {
    match o
    case Exited(name, _) => PredecessorStays(b1, b2, ExitTarget(loops, name).value);
    case Jumped(l, _) => assert LabelWithin(b1, b2, l);
    case _ =>
  }

  /** The labels of what is still to be emitted wait for their places. */
  ghost predicate AllWaiting(b: BuildState, ls: set<Label>) {
    forall l {:trigger Waiting(b, l)} :: l in ls ==> Waiting(b, l)
  }

  lemma StillWaiting(b0: BuildState, b1: BuildState, ls: set<Label>, rest: set<Label>)
    requires Good(b0) && Evolves(b0, b1, ls) && AllWaiting(b0, rest) && ls !! rest
    ensures AllWaiting(b1, rest)
  {
    forall l | l in rest ensures Waiting(b1, l) {
      assert Waiting(b0, l);
      EmptyStays(b0, b1, ls, l);
    }
  }

  /** As `Matches`, where falling through leads to the block `merge`. */
  ghost predicate Leaves(o: Out, eval: Eval, g: Region, c: Config, n: nat, loops: Loops, b': BuildState, merge: BlockId,
                         temps': Temps, fuel: nat) {
    if o.Normal? then Steps(eval, g, c, n) == At(merge, 0, o.s, temps') && b'.HasPredecessor(merge)
    else Matches(o, eval, g, c, n, loops, b', temps', fuel)
  }

  lemma PrependLeaves(o: Out, eval: Eval, g: Region, c: Config, m: nat, n: nat, loops: Loops, b': BuildState,
                      merge: BlockId, temps': Temps, fuel: nat)
    requires Leaves(o, eval, g, Steps(eval, g, c, m), n, loops, b', merge, temps', fuel)
    ensures Leaves(o, eval, g, c, m + n, loops, b', merge, temps', fuel)
    ensures m > 0 ==> Leaves(o, eval, g, c, m + n, loops, b', merge, temps', fuel + 1)
  {
    StepsAdd(eval, g, c, m, n);
  }

  lemma CarriesLeaves(o: Out, eval: Eval, g: Region, c: Config, n: nat, loops: Loops, b1: BuildState, b2: BuildState,
                      merge: BlockId, temps': Temps, fuel: nat)
    requires Leaves(o, eval, g, c, n, loops, b1, merge, temps', fuel) && Within(b1, b2)
    ensures Leaves(o, eval, g, c, n, loops, b2, merge, temps', fuel)
  {
    if o.Normal? { PredecessorStays(b1, b2, merge); } else { Carries(o, eval, g, c, n, loops, b1, b2, temps', fuel); }
  }

  /** Joining at an empty merge block: fall-through continues there. */
  lemma JoinMatches(o: Out, eval: Eval, g: Region, c: Config, n: nat, loops: Loops, b: BuildState, merge: BlockId,
                    terminated: BlockId, temps': Temps, fuel: nat)
    requires Leaves(o, eval, g, c, n, loops, b, merge, temps', fuel)
    requires b.BlockAt(merge) == EMPTY
    ensures Matches(o, eval, g, c, n, loops, b.Join(merge, terminated), temps', fuel)
  {
    if !o.Normal? {
      JoinWithin(b, merge, terminated);
      Carries(o, eval, g, c, n, loops, b, b.Join(merge, terminated), temps', fuel);
    }
  }

  /** A step before, and a join after. */
  lemma EnterAndJoin(o: Out, eval: Eval, g: Region, c: Config, n: nat, loops: Loops, b: BuildState, merge: BlockId,
                     terminated: BlockId, temps': Temps, fuel: nat)
    requires Leaves(o, eval, g, Steps(eval, g, c, 1), n, loops, b, merge, temps', fuel)
    requires b.BlockAt(merge) == EMPTY
    ensures Matches(o, eval, g, c, 1 + n, loops, b.Join(merge, terminated), temps', fuel)
  {
    PrependLeaves(o, eval, g, c, 1, n, loops, b, merge, temps', fuel);
    JoinMatches(o, eval, g, c, 1 + n, loops, b, merge, terminated, temps', fuel);
  }

  lemma JoinWithin(b: BuildState, merge: BlockId, terminated: BlockId)
    requires b.BlockAt(merge) == EMPTY
    ensures Within(b, b.Join(merge, terminated))
  {
    WithinErased(b, merge);
    WithinMoved(b, merge);
    WithinMoved(b.Erase(merge), terminated);
    WithinTwice(b, b.Erase(merge), b.Erase(merge).MoveTo(terminated));
  }

  /** What the state keeps: parameters of loops outside, and temporaries likewise. */
  ghost predicate KeepsParams(s: State, o: Out, bound: set<Param>) {
    !o.OutOfFuel? ==> forall x :: x in s.params && x !in bound ==> x in o.s.params && o.s.params[x] == s.params[x]
  }

  lemma {:induction false} SimSimple(eval: Eval, g: Region, stmt: Stmt, loops: Loops, b0: BuildState, b': BuildState,
                                     s: State, temps: Temps, fuel: nat) returns (n: nat)
    requires Good(b0) && Gen(stmt, loops, b0) == Some(b') && Agrees(b', g) && !b0.Terminated()
    requires stmt.Null? || stmt.Assign? || stmt.Return? || (stmt.Exit? && stmt.when.None?)
    ensures Matches(RunStmt(eval, stmt, s, fuel), eval, g, At(b0.cur, |b0.Code()|, s, temps), n, loops, b', temps, fuel)
  {
    n := 1;
    var c := At(b0.cur, |b0.Code()|, s, temps);
    var i := if stmt.Null? then INull
      else if stmt.Assign? then IAssign(stmt.target, stmt.source)
      else if stmt.Return? then IReturn(stmt.value)
      else IBr(ExitTarget(loops, stmt.name).value, None);
    Emitted(b0, g, [i]);
    assert g[b0.cur].code[|b0.Code()|] == i;
    assert Steps(eval, g, c, 1) == Step(eval, g, c);
    assert b'.Code() == b0.Code() + [i];
    if stmt.Exit? {
      assert b'.region[b0.cur].code[|b0.Code()|] == i;
    }
  }

  lemma {:induction false} SimExitWhen(eval: Eval, g: Region, stmt: Stmt, loops: Loops, b0: BuildState, b': BuildState,
                                       s: State, temps: Temps, fuel: nat) returns (n: nat)
    requires Good(b0) && Gen(stmt, loops, b0) == Some(b') && Agrees(b', g) && !b0.Terminated()
    requires stmt.Exit? && stmt.when.Some?
    ensures Matches(RunStmt(eval, stmt, s, fuel), eval, g, At(b0.cur, |b0.Code()|, s, temps), n, loops, b', temps, fuel)
  {
    n := 1;
    var i := ICondBr(Test(stmt.when.value), ExitTarget(loops, stmt.name).value, b0.free);
    var b := b0.Create(None);
    assert BlockOk(b0, b0.cur);
    assert b.Code() == b0.Code() && b' == b.Emit(i).MoveTo(b0.free);
    WithinMoved(b.Emit(i), b'.cur);
    AgreesBefore(b.Emit(i), b', g);
    Emitted(b, g, [i]);
    var c := At(b0.cur, |b0.Code()|, s, temps);
    assert g[b0.cur].code[|b0.Code()|] == i;
    assert Steps(eval, g, c, 1) == Step(eval, g, c);
    assert b'.region[b0.cur].code[|b0.Code()|] == i;
  }

  lemma {:induction false} SimGoto(eval: Eval, g: Region, l: Label, loops: Loops, b0: BuildState, b': BuildState,
                                   s: State, temps: Temps, fuel: nat) returns (n: nat)
    requires Good(b0) && Gen(Goto(l), loops, b0) == Some(b') && Agrees(b', g) && !b0.Terminated()
    ensures Matches(Jumped(l, s), eval, g, At(b0.cur, |b0.Code()|, s, temps), n, loops, b', temps, fuel)
  {
    n := 1;
    var b := b0.WithLabel(l);
    var i := IBr(b.labels[l], None);
    assert BlockOk(b0, b0.cur);
    assert b.Code() == b0.Code();
    Emitted(b, g, [i]);
    var c := At(b0.cur, |b0.Code()|, s, temps);
    assert g[b0.cur].code[|b0.Code()|] == i;
    assert Steps(eval, g, c, 1) == Step(eval, g, c);
  }

  /** At its place, the block of a label is empty. */
  lemma PlacedEmpty(l: Label, b0: BuildState, b': BuildState)
    requires Good(b0) && Gen(Labelled(l), [], b0) == Some(b') && Waiting(b0, l)
    ensures l in b'.labels && b'.cur == b'.labels[l] && b'.Code() == [] && !b'.Terminated()
    ensures b'.cur != b0.cur && b0.BlockAt(b'.cur).code == []
  {
    assert BlockOk(b0, b0.cur);
    assert l in b0.labels ==> LabelOk(b0, l);
    assert b0.free !in b0.region by { assert BlockOk(b0, b0.free); }
  }

  lemma {:induction false} SimLabel(eval: Eval, g: Region, l: Label, loops: Loops, b0: BuildState, b': BuildState,
                                    s: State, temps: Temps, fuel: nat) returns (n: nat)
    requires Good(b0) && Gen(Labelled(l), loops, b0) == Some(b') && Agrees(b', g) && !b0.Terminated() && Waiting(b0, l)
    ensures Matches(Normal(s), eval, g, At(b0.cur, |b0.Code()|, s, temps), n, loops, b', temps, fuel)
  {
    n := 1;
    PlacedEmpty(l, b0, b');
    var b := b0.WithLabel(l);
    var i := IBr(b.labels[l], None);
    assert BlockOk(b0, b0.cur);
    assert b.Code() == b0.Code();
    assert Within(b.Emit(i), b');
    AgreesBefore(b.Emit(i), b', g);
    Emitted(b, g, [i]);
    var c := At(b0.cur, |b0.Code()|, s, temps);
    assert g[b0.cur].code[|b0.Code()|] == i;
    assert Steps(eval, g, c, 1) == Step(eval, g, c);
  }

  /** The state at the place of label `l` of a sequence, from which the rest is emitted. */
  lemma {:induction false} AtLabel(all: Stmts, loops: Loops, b: BuildState, b': BuildState, l: Label)
    returns (bl: BuildState)
    requires Good(b) && GenStmts(all, loops, b) == Some(b') && LegalAll(all) && AllWaiting(b, PlacedInAll(all))
    requires After(all, l).Some?
    ensures var rest := After(all, l).value;
            && GenStmts(rest, loops, bl) == Some(b') && LegalAll(rest) && AllWaiting(bl, PlacedInAll(rest))
            && Good(bl) && !bl.Terminated() && bl.Code() == []
            && l in b'.labels && bl.cur == b'.labels[l]
  {
    var head, tail := all.head, all.tail;
    if b.Terminated() && !head.Labelled? {
      assert AllWaiting(b, PlacedInAll(tail));
      bl := AtLabel(tail, loops, b, b', l);
    } else {
      var b1 := Gen(head, loops, b).value;
      GenEvolves(head, loops, b, b1);
      StillWaiting(b, b1, PlacedIn(head), PlacedInAll(tail));
      if head == Labelled(l) {
        bl := b1;
        assert Waiting(b, l);
        PlacedEmpty(l, b, b1);
        GenStmtsEvolves(tail, loops, b1, b');
        assert LabelKept(b1, b', PlacedInAll(tail), l);
      } else {
        bl := AtLabel(tail, loops, b1, b', l);
      }
    }
  }

  lemma BranchWithin(b: BuildState, dest: BlockId)
    requires Good(b)
    ensures Within(b, b.BranchIfOpen(dest))
  {
    Same(b, {});
    BranchesIfOpen(b, b, {}, dest);
    EvolvesWithin(b, b.BranchIfOpen(dest), {});
  }

  lemma {:induction false} AfterBinds(all: Stmts, l: Label)
    requires After(all, l).Some?
    ensures BoundInAll(After(all, l).value) <= BoundInAll(all)
  {
    if all.head != Labelled(l) { AfterBinds(all.tail, l); }
  }

  /** How a loop ends when its body ends with `o`: an exit that names it falls through. */
  function LoopOut(name: LoopName, o: Out): Out {
    if o.Exited? && Catches(name, o.name) then Normal(o.s) else o
  }

  lemma LoopOutcome(o: Out, eval: Eval, g: Region, c: Config, n: nat, loops: Loops, e: LoopEntry, b: BuildState,
                    temps': Temps, fuel: nat)
    requires Matches(o, eval, g, c, n, loops + [e], b, temps', fuel) && !o.Normal?
    ensures Leaves(LoopOut(e.name, o), eval, g, c, n, loops, b, e.merge, temps', fuel)
  {
    if o.Exited? { assert (loops + [e])[..|loops|] == loops; }
  }

  /** The body of a loop ends other than by falling through, in state `b`. */
  lemma LoopLeft(o: Out, eval: Eval, g: Region, c: Config, n: nat, loops: Loops, e: LoopEntry, b: BuildState,
                 b': BuildState, temps': Temps, fuel: nat)
    requires Matches(o, eval, g, c, n, loops + [e], b, temps', fuel) && !o.Normal? && Within(b, b')
    ensures Leaves(LoopOut(e.name, o), eval, g, c, n, loops, b', e.merge, temps', fuel)
  {
    Carries(o, eval, g, c, n, loops + [e], b, b', temps', fuel);
    LoopOutcome(o, eval, g, c, n, loops, e, b', temps', fuel);
  }

  /** Steps before, and where falling through leads is where the builder continues. */
  lemma EnterAndLand(o: Out, eval: Eval, g: Region, c: Config, m: nat, n: nat, loops: Loops, b': BuildState,
                     temps': Temps, fuel: nat)
    requires Leaves(o, eval, g, Steps(eval, g, c, m), n, loops, b', b'.cur, temps', fuel) && b'.Code() == []
    ensures Matches(o, eval, g, c, m + n, loops, b', temps', fuel)
  {
    PrependLeaves(o, eval, g, c, m, n, loops, b', b'.cur, temps', fuel);
  }

  /** A block that is neither the insertion point nor a label's is left alone. */
  lemma BlockUntouched(b1: BuildState, b: BuildState, ls: set<Label>, i: BlockId, dest: BlockId)
    requires Good(b1) && Evolves(b1, b, ls) && i in b1.region && i != b1.cur
    requires forall l :: l in b1.labels ==> b1.labels[l] != i
    ensures i != b.cur && b.BlockAt(i) == b1.BlockAt(i) && b.BranchIfOpen(dest).BlockAt(i) == b1.BlockAt(i)
  {
    assert Kept(b1, b, ls, i) && BlockOk(b1, i);
  }

  /** The parts of a loop: its body goes to an empty block `b1.cur`, the rest to `merge`. */
  ghost predicate LoopReady(name: LoopName, body: Stmts, loops: Loops, b1: BuildState, b2: BuildState, merge: BlockId) {
    && Good(b1) && !b1.Terminated() && b1.Code() == []
    && GenStmts(body, loops + [LoopEntry(merge, name)], b1) == Some(b2)
    && LegalAll(body) && AllWaiting(b1, PlacedInAll(body))
  }

  /** Nothing is emitted in the merge block of a loop before the loop ends. */
  lemma MergeStaysEmpty(body: Stmts, loops: Loops, b0: BuildState, b1: BuildState, b2: BuildState, merge: BlockId,
                        dest: BlockId)
    requires Good(b0) && Good(b1) && b1.labels == b0.labels && merge >= b0.free && b1.cur != merge
    requires merge in b1.region && b1.region[merge] == EMPTY
    requires GenStmts(body, loops, b1) == Some(b2)
    ensures b2.BlockAt(merge) == EMPTY && b2.BranchIfOpen(dest).BlockAt(merge) == EMPTY && b2.cur != merge
  {
    GenStmtsEvolves(body, loops, b1, b2);
    NotALabelYet(b0, merge);
    BlockUntouched(b1, b2, PlacedInAll(body), merge, dest);
  }
}
