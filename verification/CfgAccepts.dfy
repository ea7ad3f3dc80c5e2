/** Which bodies the builder accepts. A statement that control cannot reach is skipped
  * up to a label, whatever it is; among the others, every exit must have a loop to leave.
  * What is reachable is decided here on the statements alone.
  */
module CfgAccepts {
  import opened Options
  import opened Statements
  import opened Cfg
  import opened CfgGrowth
  import opened CfgMeaning
  import opened CfgPoints
  import opened CfgShape
  import opened CfgSimulation

  // --------------------------------------------------- the loop an exit leaves

  /** An exit leaves the loop it names, or any loop when it names none. */
  predicate ExitLeaves(loopName: LoopName, exitName: LoopName) {
    match exitName case None => true case Some(_) => loopName == exitName
  }

  /** The innermost of the enclosing loops that an exit leaves. */
  function LoopAt(names: seq<LoopName>, name: LoopName): (r: Option<nat>)
    ensures r.None? ==> forall k :: 0 <= k < |names| ==> !ExitLeaves(names[k], name)
    ensures r.Some? ==> r.value < |names| && ExitLeaves(names[r.value], name)
    ensures r.Some? ==> forall k :: r.value < k < |names| ==> !ExitLeaves(names[k], name)
  {
    if names == [] then None
    else if ExitLeaves(names[|names| - 1], name) then Some(|names| - 1)
    else LoopAt(names[..|names| - 1], name)
  }

  function NamesOf(loops: Loops): (r: seq<LoopName>)
    ensures |r| == |loops| && forall k :: 0 <= k < |loops| ==> r[k] == loops[k].name
  {
    seq(|loops|, k requires 0 <= k < |loops| => loops[k].name)
  }

  /** The innermost enclosing loop that an exit leaves is the one at `k`. */
  ghost predicate Innermost(loops: Loops, name: LoopName, k: int) {
    && 0 <= k < |loops| && ExitLeaves(loops[k].name, name)
    && forall j :: k < j < |loops| ==> !ExitLeaves(loops[j].name, name)
  }

  /** An exit has a target when some enclosing loop is one it leaves: the block after the
    * innermost such loop. */
  lemma {:induction false} ExitTargetIs(loops: Loops, name: LoopName)
    ensures ExitTarget(loops, name).Some? <==> exists k :: 0 <= k < |loops| && ExitLeaves(loops[k].name, name)
    ensures forall k :: Innermost(loops, name, k) ==> ExitTarget(loops, name) == Some(loops[k].merge)
  {
    if loops != [] && !ExitLeaves(loops[|loops| - 1].name, name) {
      var outer := loops[..|loops| - 1];
      ExitTargetIs(outer, name);
      forall k | Innermost(loops, name, k) ensures Innermost(outer, name, k) {}
    }
  }

  lemma ExitTargetAt(loops: Loops, name: LoopName)
    ensures var at := LoopAt(NamesOf(loops), name);
            ExitTarget(loops, name) == if at.Some? then Some(loops[at.value].merge) else None
  {
    ExitTargetIs(loops, name);
    var at, names := LoopAt(NamesOf(loops), name), NamesOf(loops);
    if at.Some? {
      assert forall k :: 0 <= k < |loops| ==> names[k] == loops[k].name;
      assert Innermost(loops, name, at.value);
    }
  }

  // --------------------------------------------------- control flow, on statements

  /** What control does: whether all of it is accepted, whether it gets past the end, and
    * which of the enclosing loops it leaves. */
  datatype Flow = Flow(ok: bool, open: bool, exits: set<nat>)

  function StmtFlow(stmt: Stmt, names: seq<LoopName>): Flow
    decreases stmt, 1
  {
    match stmt
    case Return(_) => Flow(true, false, {})
    case Goto(_) => Flow(true, false, {})
    case If(guards) => if guards.Guard? then GuardsFlow(guards, names) else Flow(false, false, {})
    case While(name, _, body) => LoopFlow(body, names, name, true)
    case For(name, _, _, _, _, _, body) => LoopFlow(body, names, name, true)
    case Loop(name, body) => LoopFlow(body, names, name, false)
    case Exit(name, when) =>
      var at := LoopAt(names, name);
      Flow(at.Some?, when.Some?, if at.Some? then {at.value} else {})
    case Block(body) => ListFlow(body, names, true)
    case _ => Flow(true, true, {})
  }

  /** A loop that may end by itself is passed; a bare loop only through an exit. */
  function LoopFlow(body: Stmts, names: seq<LoopName>, name: LoopName, ends: bool): Flow
    decreases body, 1
  {
    var f := ListFlow(body, names + [name], true);
    Flow(f.ok, ends || |names| in f.exits, f.exits - {|names|})
  }

  function ListFlow(list: Stmts, names: seq<LoopName>, open: bool): Flow
    decreases list, 0
  {
    match list
    case Nil => Flow(true, open, {})
    case Cons(head, tail) =>
      if !open && !head.Labelled? then ListFlow(tail, names, open)
      else
        var f := StmtFlow(head, names);
        var rest := ListFlow(tail, names, f.open);
        Flow(f.ok && rest.ok, rest.open, f.exits + rest.exits)
  }

  function GuardsFlow(guards: Guards, names: seq<LoopName>): Flow
    decreases guards, 0
  {
    match guards
    case NoElse => Flow(true, true, {})
    case Else(body) => ListFlow(body, names, true)
    case Guard(_, body, rest) =>
      var f, g := ListFlow(body, names, true), GuardsFlow(rest, names);
      Flow(f.ok && g.ok, f.open || g.open, f.exits + g.exits)
  }

  /** A label has one place. */
  ghost predicate LabelsOnce(stmt: Stmt) {
    match stmt
    case If(guards) => LabelsOnceGuards(guards)
    case While(_, _, body) => LabelsOnceAll(body)
    case Loop(_, body) => LabelsOnceAll(body)
    case For(_, _, _, _, _, _, body) => LabelsOnceAll(body)
    case Block(body) => LabelsOnceAll(body)
    case _ => true
  }

  ghost predicate LabelsOnceAll(list: Stmts) {
    list.Cons? ==> LabelsOnce(list.head) && LabelsOnceAll(list.tail) && PlacedIn(list.head) !! PlacedInAll(list.tail)
  }

  ghost predicate LabelsOnceGuards(guards: Guards) {
    match guards
    case NoElse => true
    case Else(body) => LabelsOnceAll(body)
    case Guard(_, body, rest) =>
      LabelsOnceAll(body) && LabelsOnceGuards(rest) && PlacedInAll(body) !! PlacedInGuards(rest)
  }

  // ------------------------------------------------- where a graph leads to

  ghost predicate LeadsTo(code: seq<Instr>, t: BlockId) { exists k :: 0 <= k < |code| && Targets(code[k], t) }

  lemma EmitLeads(b: BuildState, code: seq<Instr>, t: BlockId)
    ensures b.EmitAll(code).HasPredecessor(t) <==> b.HasPredecessor(t) || LeadsTo(code, t)
  {
    var b', n := b.EmitAll(code), |b.Code()|;
    if b.HasPredecessor(t) {
      var p :| p in b.region && exists k :: 0 <= k < |b.region[p].code| && Targets(b.region[p].code[k], t);
      var k :| 0 <= k < |b.region[p].code| && Targets(b.region[p].code[k], t);
      assert b'.region[p].code[k] == b.region[p].code[k];
    }
    if LeadsTo(code, t) {
      var k :| 0 <= k < |code| && Targets(code[k], t);
      assert b'.region[b.cur].code[n + k] == code[k];
    }
    if b'.HasPredecessor(t) {
      var p :| p in b'.region && exists k :: 0 <= k < |b'.region[p].code| && Targets(b'.region[p].code[k], t);
      var k :| 0 <= k < |b'.region[p].code| && Targets(b'.region[p].code[k], t);
      if p == b.cur {
        if k < n { assert b.region[p].code[k] == b'.region[p].code[k]; }
        else { assert code[k - n] == b'.region[p].code[k]; }
      } else {
        assert b.region[p].code[k] == b'.region[p].code[k];
      }
    }
  }

  lemma EmitOneLeads(b: BuildState, i: Instr, t: BlockId)
    ensures b.Emit(i).HasPredecessor(t) <==> b.HasPredecessor(t) || Targets(i, t)
  {
    EmitLeads(b, [i], t);
    assert LeadsTo([i], t) <==> Targets([i][0], t);
  }

  lemma BranchLeads(b: BuildState, dest: BlockId, t: BlockId)
    ensures b.BranchIfOpen(dest).HasPredecessor(t) <==> b.HasPredecessor(t) || (!b.Terminated() && t == dest)
  {
    EmitOneLeads(b, IBr(dest, None), t);
  }

  /** An empty block leads nowhere, whether it is new, moved to, or dropped. */
  lemma CreateLeads(b: BuildState, arg: Option<Param>, t: BlockId)
    requires Good(b)
    ensures b.Create(arg).HasPredecessor(t) <==> b.HasPredecessor(t)
  {
    assert BlockOk(b, b.free);
    SameLeads(b, b.Create(arg), t);
    SameLeads(b.Create(arg), b, t);
  }

  lemma SameLeads(b: BuildState, b': BuildState, t: BlockId)
    requires forall i :: i in b.region && b.region[i].code != [] ==>
               i in b'.region && b'.region[i].code == b.region[i].code
    ensures b.HasPredecessor(t) ==> b'.HasPredecessor(t)
  {
    if b.HasPredecessor(t) {
      var p :| p in b.region && exists k :: 0 <= k < |b.region[p].code| && Targets(b.region[p].code[k], t);
      var k :| 0 <= k < |b.region[p].code| && Targets(b.region[p].code[k], t);
      assert b'.region[p].code[k] == b.region[p].code[k];
    }
  }

  lemma EraseLeads(b: BuildState, e: BlockId, t: BlockId)
    requires b.BlockAt(e) == EMPTY
    ensures b.Erase(e).HasPredecessor(t) <==> b.HasPredecessor(t)
  {
    SameLeads(b, b.Erase(e), t);
    SameLeads(b.Erase(e), b, t);
  }

  lemma MoveLeads(b: BuildState, to: BlockId, t: BlockId)
    ensures b.MoveTo(to).HasPredecessor(t) <==> b.HasPredecessor(t)
  {
    SameLeads(b, b.MoveTo(to), t);
    SameLeads(b.MoveTo(to), b, t);
  }

  lemma JoinLeads(b: BuildState, merge: BlockId, terminated: BlockId, t: BlockId)
    requires b.BlockAt(merge) == EMPTY
    ensures b.Join(merge, terminated).HasPredecessor(t) <==> b.HasPredecessor(t)
  {
    EraseLeads(b, merge, t);
    MoveLeads(b, merge, t);
    MoveLeads(b.Erase(merge), terminated, t);
  }

  lemma LabelLeads(b: BuildState, l: Label, t: BlockId)
    requires Good(b)
    ensures b.WithLabel(l).HasPredecessor(t) <==> b.HasPredecessor(t)
  {
    assert BlockOk(b, b.free);
    SameLeads(b, b.WithLabel(l), t);
    SameLeads(b.WithLabel(l), b, t);
  }

  // ----------------------------------------------------- what emission follows

  /** Everything a block leads to has a number below `free`. */
  ghost predicate Closed(b: BuildState) { forall t: BlockId :: b.HasPredecessor(t) ==> t < b.free }

  ghost predicate NoLabel(b: BuildState, t: BlockId) { forall l :: l in b.labels ==> b.labels[l] != t }

  ghost predicate LoopsKnown(loops: Loops, b: BuildState) {
    && (forall k :: 0 <= k < |loops| ==> loops[k].merge < b.free && NoLabel(b, loops[k].merge))
    && forall j, k :: 0 <= j < k < |loops| ==> loops[j].merge != loops[k].merge
  }

  /** The builder is where something with the labels `ls` is to be emitted. */
  ghost predicate Before(b: BuildState, loops: Loops, ls: set<Label>) {
    Good(b) && Closed(b) && LoopsKnown(loops, b) && AllWaiting(b, ls)
  }

  ghost predicate LeadsOut(exits: set<nat>, loops: Loops, t: BlockId) {
    exists k :: k in exits && k < |loops| && loops[k].merge == t
  }

  predicate Ended(code: seq<Instr>) { code != [] && IsTerminator(code[|code| - 1]) }

  /** The block that was open is closed, unless it is still the insertion point. */
  ghost predicate LeftClosed(b0: BuildState, b: BuildState) { b.cur != b0.cur ==> Ended(b.BlockAt(b0.cur).code) }

  /** To the blocks from before that are no label's, emission leads only by the exits. */
  ghost predicate LeadsBy(exits: set<nat>, loops: Loops, b0: BuildState, b: BuildState) {
    forall t: BlockId :: t < b0.free && NoLabel(b0, t) ==>
      (b.HasPredecessor(t) <==> b0.HasPredecessor(t) || LeadsOut(exits, loops, t))
  }

  /** What was emitted between `b0` and `b` has the control flow `f`. */
  ghost predicate Follows(f: Flow, loops: Loops, b0: BuildState, b: BuildState) {
    && (b.Terminated() <==> !f.open) && LeadsBy(f.exits, loops, b0, b) && Closed(b) && LeftClosed(b0, b)
  }

  ghost predicate Accepts(r: Option<BuildState>, f: Flow, loops: Loops, b0: BuildState) {
    (r.Some? <==> f.ok) && (r.Some? ==> Follows(f, loops, b0, r.value))
  }

  /** A block that is neither the insertion point nor that of one of the labels `ls` stays. */
  lemma BlockStays(b1: BuildState, b: BuildState, ls: set<Label>, i: BlockId, dest: BlockId)
    requires Good(b1) && Evolves(b1, b, ls) && i in b1.region && i != b1.cur
    requires forall l :: l in ls && l in b1.labels ==> b1.labels[l] != i
    ensures b.BlockAt(i) == b1.BlockAt(i) && b.BranchIfOpen(dest).BlockAt(i) == b1.BlockAt(i)
  {
    assert Kept(b1, b, ls, i) && BlockOk(b1, i);
  }

  lemma WaitsApart(b: BuildState, ls: set<Label>)
    requires AllWaiting(b, ls)
    ensures forall l :: l in ls && l in b.labels ==> b.labels[l] != b.cur
  {
    forall l | l in ls && l in b.labels ensures b.labels[l] != b.cur { assert Waiting(b, l); }
  }

  lemma StaysBefore(b0: BuildState, b1: BuildState, loops: Loops, ls: set<Label>, rest: set<Label>)
    requires Good(b0) && LoopsKnown(loops, b0) && Evolves(b0, b1, ls) && Closed(b1)
    requires AllWaiting(b0, rest) && ls !! rest
    ensures Before(b1, loops, rest)
  {
    StillWaiting(b0, b1, ls, rest);
    forall k | 0 <= k < |loops| ensures NoLabel(b1, loops[k].merge) { NeverALabel(b0, b1, ls, loops[k].merge); }
  }

  /** One statement after the other. */
  lemma FollowsBoth(f: Flow, g: Flow, loops: Loops, b0: BuildState, b1: BuildState, b2: BuildState, ls: set<Label>,
                    rest: set<Label>)
    requires Good(b0) && Evolves(b0, b1, ls) && Evolves(b1, b2, rest) && AllWaiting(b0, rest)
    requires Follows(f, loops, b0, b1) && Follows(g, loops, b1, b2) && ls !! rest
    ensures Follows(Flow(true, g.open, f.exits + g.exits), loops, b0, b2)
  {
    forall t: BlockId | t < b0.free && NoLabel(b0, t)
      ensures b2.HasPredecessor(t) <==> b0.HasPredecessor(t) || LeadsOut(f.exits + g.exits, loops, t)
    {
      NeverALabel(b0, b1, ls, t);
      assert NoLabel(b1, t);
    }
    if b1.cur != b0.cur && b2.cur != b0.cur {
      StillWaiting(b0, b1, ls, rest);
      assert Kept(b0, b1, ls, b0.cur) && BlockOk(b0, b0.cur);
      forall l | l in rest && l in b1.labels ensures b1.labels[l] != b0.cur {
        assert Waiting(b0, l) && LabelKept(b0, b1, ls, l);
      }
      BlockStays(b1, b2, rest, b0.cur, 0);
    }
  }

  // ------------------------------------------------------ statements by kind

  lemma SimpleFlows(stmt: Stmt, loops: Loops, b0: BuildState)
    requires Before(b0, loops, PlacedIn(stmt)) && (!b0.Terminated() || stmt.Labelled?)
    requires !(stmt.If? || stmt.While? || stmt.Loop? || stmt.For? || stmt.Block?)
    ensures Accepts(Gen(stmt, loops, b0), StmtFlow(stmt, NamesOf(loops)), loops, b0)
  {
    match stmt
    case Exit(name, when) => ExitFlows(name, when, loops, b0);
    case Goto(l) => GotoFlows(l, loops, b0);
    case Labelled(l) => LabelFlows(l, loops, b0);
    case Null => EmittedFlows(INull, loops, b0);
    case Assign(x, e) => EmittedFlows(IAssign(x, e), loops, b0);
    case Return(value) => EmittedFlows(IReturn(value), loops, b0);
  }

  lemma EmittedFlows(i: Instr, loops: Loops, b0: BuildState)
    requires Good(b0) && Closed(b0) && (i.INull? || i.IAssign? || i.IReturn?)
    ensures Follows(Flow(true, !i.IReturn?, {}), loops, b0, b0.Emit(i))
  {
    forall t: BlockId ensures b0.Emit(i).HasPredecessor(t) <==> b0.HasPredecessor(t) { EmitOneLeads(b0, i, t); }
    assert b0.Emit(i).Code() == b0.Code() + [i];
  }

  lemma ExitFlows(name: LoopName, when: Option<Expr>, loops: Loops, b0: BuildState)
    requires Good(b0) && Closed(b0) && LoopsKnown(loops, b0)
    ensures Accepts(Gen(Exit(name, when), loops, b0), StmtFlow(Exit(name, when), NamesOf(loops)), loops, b0)
  {
    ExitTargetAt(loops, name);
    var at := LoopAt(NamesOf(loops), name);
    if at.Some? {
      var dest, r := loops[at.value].merge, Gen(Exit(name, when), loops, b0).value;
      assert forall t: BlockId :: LeadsOut({at.value}, loops, t) <==> t == dest by {
        assert at.value in {at.value};
      }
      if when.None? {
        forall t: BlockId ensures r.HasPredecessor(t) <==> b0.HasPredecessor(t) || t == dest {
          EmitOneLeads(b0, IBr(dest, None), t);
        }
        assert r.Code() == b0.Code() + [IBr(dest, None)];
      } else {
        var b, i := b0.Create(None), ICondBr(Test(when.value), dest, b0.free);
        forall t: BlockId ensures r.HasPredecessor(t) <==> b0.HasPredecessor(t) || t == dest || t == b0.free {
          CreateLeads(b0, None, t);
          EmitOneLeads(b, i, t);
          MoveLeads(b.Emit(i), b0.free, t);
        }
        assert BlockOk(b0, b0.cur);
        assert r.BlockAt(b0.cur).code == b0.Code() + [i] && r.Code() == [];
      }
    }
  }

  lemma GotoFlows(l: Label, loops: Loops, b0: BuildState)
    requires Good(b0) && Closed(b0)
    ensures Follows(Flow(true, false, {}), loops, b0, Gen(Goto(l), loops, b0).value)
  {
    var b, r := b0.WithLabel(l), Gen(Goto(l), loops, b0).value;
    var i := IBr(b.labels[l], None);
    forall t: BlockId ensures r.HasPredecessor(t) <==> b0.HasPredecessor(t) || t == b.labels[l] {
      LabelLeads(b0, l, t);
      EmitOneLeads(b, i, t);
    }
    assert l in b0.labels ==> LabelOk(b0, l) && BlockOk(b0, b0.labels[l]);
    assert BlockOk(b0, b0.cur);
    assert r.Code() == b.Code() + [i];
  }

  lemma LabelFlows(l: Label, loops: Loops, b0: BuildState)
    requires Good(b0) && Closed(b0) && AllWaiting(b0, {l})
    ensures Follows(Flow(true, true, {}), loops, b0, Gen(Labelled(l), loops, b0).value)
  {
    var b := b0.WithLabel(l);
    var at := b.labels[l];
    var b1, r := b.BranchIfOpen(at), Gen(Labelled(l), loops, b0).value;
    assert Waiting(b0, l) && BlockOk(b0, b0.cur) && BlockOk(b0, b0.free);
    assert l in b0.labels ==> LabelOk(b0, l) && BlockOk(b0, b0.labels[l]);
    forall t: BlockId ensures r.HasPredecessor(t) <==> b0.HasPredecessor(t) || (!b.Terminated() && t == at) {
      LabelLeads(b0, l, t);
      BranchLeads(b, at, t);
      SameLeads(b1, r, t);
      SameLeads(r, b1, t);
    }
    assert r.Code() == [];
  }

  lemma {:induction false} GenFlows(stmt: Stmt, loops: Loops, b0: BuildState)
    requires Before(b0, loops, PlacedIn(stmt)) && (!b0.Terminated() || stmt.Labelled?) && LabelsOnce(stmt)
    ensures Accepts(Gen(stmt, loops, b0), StmtFlow(stmt, NamesOf(loops)), loops, b0)
    decreases stmt, 2
  {
    match stmt
    case If(_) => IfFlows(stmt, loops, b0);
    case While(_, _, _) => WhileFlows(stmt, loops, b0);
    case Loop(_, _) => BareLoopFlows(stmt, loops, b0);
    case For(_, _, _, _, _, _, _) => ForFlows(stmt, loops, b0);
    case Block(body) => GenStmtsFlow(body, loops, b0);
    case _ => SimpleFlows(stmt, loops, b0);
  }

  lemma {:induction false} GenStmtsFlow(list: Stmts, loops: Loops, b0: BuildState)
    requires Before(b0, loops, PlacedInAll(list)) && LabelsOnceAll(list)
    ensures Accepts(GenStmts(list, loops, b0), ListFlow(list, NamesOf(loops), !b0.Terminated()), loops, b0)
    decreases list, 0
  {
    if list.Cons? {
      var head, tail := list.head, list.tail;
      if b0.Terminated() && !head.Labelled? {
        FewerLabels(b0, PlacedInAll(tail), PlacedInAll(list));
        GenStmtsFlow(tail, loops, b0);
      } else {
        FewerLabels(b0, PlacedInAll(tail), PlacedInAll(list));
        FewerLabels(b0, PlacedIn(head), PlacedInAll(list));
        GenFlows(head, loops, b0);
        var b1 := Gen(head, loops, b0);
        if b1.Some? {
          GenEvolves(head, loops, b0, b1.value);
          StaysBefore(b0, b1.value, loops, PlacedIn(head), PlacedInAll(tail));
          GenStmtsFlow(tail, loops, b1.value);
          SequenceFlows(list, loops, b0, b1.value);
        }
      }
    }
  }

  lemma FewerLabels(b: BuildState, fewer: set<Label>, ls: set<Label>)
    requires AllWaiting(b, ls) && fewer <= ls
    ensures AllWaiting(b, fewer)
  {
    forall l | l in fewer ensures Waiting(b, l) {}
  }

  lemma SequenceFlows(list: Stmts, loops: Loops, b0: BuildState, b1: BuildState)
    requires list.Cons? && Good(b0) && (!b0.Terminated() || list.head.Labelled?) && LabelsOnceAll(list)
    requires AllWaiting(b0, PlacedInAll(list.tail)) && Gen(list.head, loops, b0) == Some(b1)
    requires Accepts(Some(b1), StmtFlow(list.head, NamesOf(loops)), loops, b0)
    requires Accepts(GenStmts(list.tail, loops, b1), ListFlow(list.tail, NamesOf(loops), !b1.Terminated()), loops, b1)
    ensures Accepts(GenStmts(list, loops, b0), ListFlow(list, NamesOf(loops), !b0.Terminated()), loops, b0)
  {
    var f := StmtFlow(list.head, NamesOf(loops));
    var g := ListFlow(list.tail, NamesOf(loops), f.open);
    GenEvolves(list.head, loops, b0, b1);
    if g.ok {
      var b2 := GenStmts(list.tail, loops, b1).value;
      GenStmtsEvolves(list.tail, loops, b1, b2);
      FollowsBoth(f, g, loops, b0, b1, b2, PlacedIn(list.head), PlacedInAll(list.tail));
    }
  }

  // -------------------------------------------------------------------- loops

  /** The blocks of a loop up to its body, from `b0` to `b1`: `merge` is a new block that
    * `own` tells whether something leads to. */
  ghost predicate Opened(b0: BuildState, b1: BuildState, own: bool) {
    && Good(b0) && Closed(b0) && Evolves(b0, b1, {}) && Closed(b1) && b1.labels == b0.labels && b0.free < b1.free
    && b1.cur >= b0.free && b1.cur != b0.free && b1.Code() == []
    && b0.free in b1.region && b1.region[b0.free] == EMPTY
    && Ended(b1.BlockAt(b0.cur).code)
    && (b1.HasPredecessor(b0.free) <==> own)
    && forall t: BlockId :: t < b0.free ==> (b1.HasPredecessor(t) <==> b0.HasPredecessor(t))
  }

  lemma WhileOpens(b0: BuildState, cond: Expr)
    requires Good(b0) && Closed(b0)
    ensures Opened(b0, WhileEntry(b0, cond), true)
  {
    var merge, bodyBlock, header := b0.free, b0.free + 1, b0.free + 2;
    var b1, c := WhileEntry(b0, cond), b0.Create(None).Create(None).Create(None);
    var test, enter := ICondBr(Test(cond), bodyBlock, merge), IBr(header, None);
    WhileBlocks(b0, cond);
    WhileEntryEvolves(b0, cond, {});
    forall t: BlockId
      ensures b1.HasPredecessor(t) <==> b0.HasPredecessor(t) || t == merge || t == bodyBlock || t == header
    {
      ThreeLead(b0, None, None, None, t);
      MoveLeads(c, header, t);
      EmitOneLeads(c.MoveTo(header), test, t);
      MoveLeads(c.MoveTo(header).Emit(test), b0.cur, t);
      EmitOneLeads(c.MoveTo(header).Emit(test).MoveTo(b0.cur), enter, t);
      MoveLeads(c.MoveTo(header).Emit(test).MoveTo(b0.cur).Emit(enter), bodyBlock, t);
    }
  }

  lemma ThreeLead(b0: BuildState, a1: Option<Param>, a2: Option<Param>, a3: Option<Param>, t: BlockId)
    requires Good(b0)
    ensures Good(b0.Create(a1).Create(a2).Create(a3)) && Good(b0.Create(a1).Create(a2))
    ensures b0.Create(a1).Create(a2).HasPredecessor(t) <==> b0.HasPredecessor(t)
    ensures b0.Create(a1).Create(a2).Create(a3).HasPredecessor(t) <==> b0.HasPredecessor(t)
  {
    var c, d := b0.Create(a1), b0.Create(a1).Create(a2);
    Same(b0, {});
    Creates(b0, b0, {}, a1);
    Creates(b0, c, {}, a2);
    Creates(b0, d, {}, a3);
    CreateLeads(b0, a1, t);
    CreateLeads(c, a2, t);
    CreateLeads(d, a3, t);
  }

  lemma LoopOpens(b0: BuildState)
    requires Good(b0) && Closed(b0)
    ensures Opened(b0, LoopEntered(b0), false)
  {
    var b1, c := LoopEntered(b0), b0.Create(None).Create(None);
    var enter := IBr(b0.free + 1, None);
    LoopBlocks(b0);
    LoopEntryEvolves(b0, {});
    forall t: BlockId ensures b1.HasPredecessor(t) <==> b0.HasPredecessor(t) || t == b0.free + 1 {
      ThreeLead(b0, None, None, None, t);
      EmitOneLeads(c, enter, t);
      MoveLeads(c.Emit(enter), b0.free + 1, t);
    }
  }

  lemma ForOpens(b0: BuildState, stmt: Stmt)
    requires Good(b0) && Closed(b0) && stmt.For?
    ensures Opened(b0, ForStart(b0, stmt), true)
  {
    var For(name, x, ty, low, high, rev, body) := stmt;
    var merge, bodyBlock, init := b0.free, b0.free + 2, b0.free + 3;
    var b1, c := ForStart(b0, stmt), b0.Create(None).Create(None).Create(Some(x));
    var d := c.Create(None);
    var code := [IBound(Low(x), low), IBound(High(x), high), IConvert(Low(x), ty), IConvert(High(x), ty),
                 ICondBr(NonEmpty(x), init, merge)];
    var enter := IBr(bodyBlock, Some(if rev then High(x) else Low(x)));
    ForBlocks(b0, x, ty, low, high, rev);
    ForEntryEvolves(b0, x, ty, low, high, rev, {});
    assert b1 == d.EmitAll(code).MoveTo(init).Emit(enter).MoveTo(bodyBlock);
    forall t: BlockId
      ensures b1.HasPredecessor(t) <==> b0.HasPredecessor(t) || t == merge || t == init || t == bodyBlock
    {
      ThreeLead(b0, None, None, Some(x), t);
      CreateLeads(c, None, t);
      EmitLeads(d, code, t);
      assert LeadsTo(code, t) <==> t == init || t == merge by {
        assert Targets(code[4], t) <==> t == init || t == merge;
      }
      MoveLeads(d.EmitAll(code), init, t);
      EmitOneLeads(d.EmitAll(code).MoveTo(init), enter, t);
      MoveLeads(d.EmitAll(code).MoveTo(init).Emit(enter), bodyBlock, t);
    }
  }

  /** After the body of a loop. */
  ghost predicate BodyDone(f: Flow, loops: Loops, b0: BuildState, b1: BuildState, b2: BuildState, own: bool) {
    && Good(b2) && b1.free <= b2.free && b2.BlockAt(b0.free) == EMPTY && b2.cur != b0.free
    && (b2.Terminated() <==> !f.open) && Closed(b2) && LeftClosed(b1, b2)
    && Ended(b2.BlockAt(b0.cur).code) && b2.cur != b0.cur
    && LeadsBy(f.exits - {|loops|}, loops, b0, b2)
    && (b2.HasPredecessor(b0.free) <==> own || |loops| in f.exits)
  }

  ghost predicate BodyAccepted(r: Option<BuildState>, f: Flow, loops: Loops, b0: BuildState, b1: BuildState,
                               own: bool)
  {
    (r.Some? <==> f.ok) && (r.Some? ==> BodyDone(f, loops, b0, b1, r.value, own))
  }

  lemma {:induction false} LoopBodyFlows(body: Stmts, name: LoopName, loops: Loops, b0: BuildState, b1: BuildState,
                                         own: bool)
    requires Opened(b0, b1, own) && Before(b0, loops, PlacedInAll(body)) && LabelsOnceAll(body)
    ensures var r := GenStmts(body, loops + [LoopEntry(b0.free, name)], b1);
            var f := ListFlow(body, NamesOf(loops) + [name], true);
            BodyAccepted(r, f, loops, b0, b1, own)
    decreases body, 1
  {
    var inner := loops + [LoopEntry(b0.free, name)];
    assert NamesOf(inner) == NamesOf(loops) + [name];
    StaysBefore(b0, b1, loops, {}, PlacedInAll(body));
    NotALabelYet(b0, b0.free);
    assert LoopsKnown(inner, b1);
    GenStmtsFlow(body, inner, b1);
    var r := GenStmts(body, inner, b1);
    if r.Some? {
      BodyLeaves(body, inner, loops, b0, b1, r.value, own);
    }
  }

  lemma BodyLeaves(body: Stmts, inner: Loops, loops: Loops, b0: BuildState, b1: BuildState, b2: BuildState, own: bool)
    requires Opened(b0, b1, own) && Before(b0, loops, PlacedInAll(body))
    requires |inner| == |loops| + 1 && inner[..|loops|] == loops && inner[|loops|].merge == b0.free
    requires GenStmts(body, inner, b1) == Some(b2)
    requires Follows(ListFlow(body, NamesOf(inner), true), inner, b1, b2)
    ensures BodyDone(ListFlow(body, NamesOf(inner), true), loops, b0, b1, b2, own)
  {
    var f, ls := ListFlow(body, NamesOf(inner), true), PlacedInAll(body);
    GenStmtsEvolves(body, inner, b1, b2);
    MergeStaysEmpty(body, inner, b0, b1, b2, b0.free, 0);
    NotALabelYet(b0, b0.free);
    assert NoLabel(b1, b0.free);
    assert forall k :: 0 <= k < |loops| ==> inner[k] == loops[k];
    assert LeadsOut(f.exits, inner, b0.free) <==> |loops| in f.exits;
    forall t: BlockId | t < b0.free && NoLabel(b0, t)
      ensures b2.HasPredecessor(t) <==> b0.HasPredecessor(t) || LeadsOut(f.exits - {|loops|}, loops, t)
    {
      assert NoLabel(b1, t);
      if LeadsOut(f.exits, inner, t) {
        var k :| k in f.exits && k < |inner| && inner[k].merge == t;
        assert k in f.exits - {|loops|} && loops[k].merge == t;
      }
      if LeadsOut(f.exits - {|loops|}, loops, t) {
        var k :| k in f.exits - {|loops|} && k < |loops| && loops[k].merge == t;
        assert k in f.exits && inner[k].merge == t;
      }
    }
    WaitsApart(b0, ls);
    assert BlockOk(b0, b0.cur) && Kept(b0, b1, {}, b0.cur);
    BlockStays(b1, b2, ls, b0.cur, 0);
    assert Owned(b1, ls, b2.cur) || b2.cur >= b1.free;
  }

  /** The end of a while loop or a bare loop. */
  lemma LoopFlows(f: Flow, loops: Loops, b0: BuildState, b1: BuildState, b2: BuildState, own: bool, header: BlockId)
    requires Opened(b0, b1, own) && LoopsKnown(loops, b0) && BodyDone(f, loops, b0, b1, b2, own)
    requires b0.free < header < b2.free && b1.cur == b0.free + 1
    ensures Follows(Flow(true, own || |loops| in f.exits, f.exits - {|loops|}), loops, b0,
                    b2.BranchIfOpen(header).Join(b0.free, b0.free + 1))
  {
    var b3, merge, bodyBlock := b2.BranchIfOpen(header), b0.free, b0.free + 1;
    var r := b3.Join(merge, bodyBlock);
    assert b3.BlockAt(merge) == EMPTY && Ended(b3.BlockAt(bodyBlock).code) && Ended(b3.BlockAt(b0.cur).code);
    forall t: BlockId ensures r.HasPredecessor(t) <==> b2.HasPredecessor(t) || (!b2.Terminated() && t == header) {
      BranchLeads(b2, header, t);
      JoinLeads(b3, merge, bodyBlock, t);
    }
    BranchLeads(b2, header, merge);
    assert BlockOk(b0, b0.cur);
  }

  lemma {:induction false} WhileFlows(stmt: Stmt, loops: Loops, b0: BuildState)
    requires stmt.While? && Before(b0, loops, PlacedIn(stmt)) && LabelsOnce(stmt)
    ensures Accepts(Gen(stmt, loops, b0), StmtFlow(stmt, NamesOf(loops)), loops, b0)
    decreases stmt, 1
  {
    WhileOpens(b0, stmt.cond);
    LoopBodyFlows(stmt.body, stmt.name, loops, b0, WhileEntry(b0, stmt.cond), true);
    WhileEnds(stmt, loops, b0, GenStmts(stmt.body, loops + [LoopEntry(b0.free, stmt.name)], WhileEntry(b0, stmt.cond)));
  }

  lemma WhileEnds(stmt: Stmt, loops: Loops, b0: BuildState, r: Option<BuildState>)
    requires stmt.While? && LoopsKnown(loops, b0) && Opened(b0, WhileEntry(b0, stmt.cond), true)
    requires r == GenStmts(stmt.body, loops + [LoopEntry(b0.free, stmt.name)], WhileEntry(b0, stmt.cond))
    requires var f := ListFlow(stmt.body, NamesOf(loops) + [stmt.name], true);
             BodyAccepted(r, f, loops, b0, WhileEntry(b0, stmt.cond), true)
    ensures Accepts(Gen(stmt, loops, b0), StmtFlow(stmt, NamesOf(loops)), loops, b0)
  {
    if r.Some? {
      var b1, f := WhileEntry(b0, stmt.cond), ListFlow(stmt.body, NamesOf(loops) + [stmt.name], true);
      WhileBlocks(b0, stmt.cond);
      WhileEntryEvolves(b0, stmt.cond, {});
      LoopFlows(f, loops, b0, b1, r.value, true, b0.free + 2);
    }
  }

  lemma {:induction false} BareLoopFlows(stmt: Stmt, loops: Loops, b0: BuildState)
    requires stmt.Loop? && Before(b0, loops, PlacedIn(stmt)) && LabelsOnce(stmt)
    ensures Accepts(Gen(stmt, loops, b0), StmtFlow(stmt, NamesOf(loops)), loops, b0)
    decreases stmt, 1
  {
    LoopOpens(b0);
    LoopBodyFlows(stmt.body, stmt.name, loops, b0, LoopEntered(b0), false);
    BareLoopEnds(stmt, loops, b0, GenStmts(stmt.body, loops + [LoopEntry(b0.free, stmt.name)], LoopEntered(b0)));
  }

  lemma BareLoopEnds(stmt: Stmt, loops: Loops, b0: BuildState, r: Option<BuildState>)
    requires stmt.Loop? && LoopsKnown(loops, b0) && Opened(b0, LoopEntered(b0), false)
    requires r == GenStmts(stmt.body, loops + [LoopEntry(b0.free, stmt.name)], LoopEntered(b0))
    requires var f := ListFlow(stmt.body, NamesOf(loops) + [stmt.name], true);
             BodyAccepted(r, f, loops, b0, LoopEntered(b0), false)
    ensures Accepts(Gen(stmt, loops, b0), StmtFlow(stmt, NamesOf(loops)), loops, b0)
  {
    if r.Some? {
      var b1, f := LoopEntered(b0), ListFlow(stmt.body, NamesOf(loops) + [stmt.name], true);
      LoopBlocks(b0);
      LoopEntryEvolves(b0, {});
      LoopFlows(f, loops, b0, b1, r.value, false, b0.free + 1);
    }
  }

  lemma {:induction false} ForFlows(stmt: Stmt, loops: Loops, b0: BuildState)
    requires stmt.For? && Before(b0, loops, PlacedIn(stmt)) && LabelsOnce(stmt)
    ensures Accepts(Gen(stmt, loops, b0), StmtFlow(stmt, NamesOf(loops)), loops, b0)
    decreases stmt, 1
  {
    ForOpens(b0, stmt);
    LoopBodyFlows(stmt.body, stmt.name, loops, b0, ForStart(b0, stmt), true);
    ForEnds(stmt, loops, b0, GenStmts(stmt.body, loops + [LoopEntry(b0.free, stmt.name)], ForStart(b0, stmt)));
  }

  lemma ForEnds(stmt: Stmt, loops: Loops, b0: BuildState, r: Option<BuildState>)
    requires stmt.For? && LoopsKnown(loops, b0) && Opened(b0, ForStart(b0, stmt), true)
    requires r == GenStmts(stmt.body, loops + [LoopEntry(b0.free, stmt.name)], ForStart(b0, stmt))
    requires var f := ListFlow(stmt.body, NamesOf(loops) + [stmt.name], true);
             BodyAccepted(r, f, loops, b0, ForStart(b0, stmt), true)
    ensures Accepts(Gen(stmt, loops, b0), StmtFlow(stmt, NamesOf(loops)), loops, b0)
  {
    var f := ListFlow(stmt.body, NamesOf(loops) + [stmt.name], true);
    ForIs(stmt, loops, b0);
    if r.Some? {
      ForStepWaits(stmt, loops, b0, r.value);
      ForEndFlows(stmt, f, loops, b0, ForStart(b0, stmt), r.value);
    }
  }

  /** A for loop by its parts. */
  lemma ForIs(stmt: Stmt, loops: Loops, b0: BuildState)
    requires stmt.For?
    ensures var r := GenStmts(stmt.body, loops + [LoopEntry(b0.free, stmt.name)], ForStart(b0, stmt));
            Gen(stmt, loops, b0) == if r.Some? then Some(ForEnded(stmt, b0, r.value)) else None
    ensures var f := ListFlow(stmt.body, NamesOf(loops) + [stmt.name], true);
            StmtFlow(stmt, NamesOf(loops)) == Flow(f.ok, true, f.exits - {|loops|})
  {
  }

  function ForEnded(stmt: Stmt, b0: BuildState, b2: BuildState): BuildState
    requires stmt.For?
  {
    ForEnd(b2, stmt.param, stmt.ty, stmt.reverse, b0.free, b0.free + 1, b0.free + 2)
  }

  lemma ForStepWaits(stmt: Stmt, loops: Loops, b0: BuildState, b2: BuildState)
    requires stmt.For? && Good(b0)
    requires GenStmts(stmt.body, loops + [LoopEntry(b0.free, stmt.name)], ForStart(b0, stmt)) == Some(b2)
    ensures b2.BlockAt(b0.free + 1) == EMPTY && b2.cur != b0.free + 1 && b0.free + 2 < b2.free
  {
    var b1, inner := ForStart(b0, stmt), loops + [LoopEntry(b0.free, stmt.name)];
    ForBlocks(b0, stmt.param, stmt.ty, stmt.low, stmt.high, stmt.reverse);
    ForEntryEvolves(b0, stmt.param, stmt.ty, stmt.low, stmt.high, stmt.reverse, {});
    MergeStaysEmpty(stmt.body, inner, b0, b1, b2, b0.free + 1, 0);
    GenStmtsEvolves(stmt.body, inner, b1, b2);
  }

  lemma ForEndFlows(stmt: Stmt, f: Flow, loops: Loops, b0: BuildState, b1: BuildState, b2: BuildState)
    requires stmt.For? && Opened(b0, b1, true) && LoopsKnown(loops, b0) && BodyDone(f, loops, b0, b1, b2, true)
    requires b2.BlockAt(b0.free + 1) == EMPTY && b2.cur != b0.free + 1 && b0.free + 2 < b2.free
    ensures Follows(Flow(true, true, f.exits - {|loops|}), loops, b0, ForEnded(stmt, b0, b2))
  {
    var x, merge, step, r := stmt.param, b0.free, b0.free + 1, ForEnded(stmt, b0, b2);
    assert BlockOk(b0, b0.cur);
    ForEndLeads(b2, x, stmt.ty, stmt.reverse, merge, step, b0.free + 2);
    ForEndBlocks(b2, x, stmt.ty, stmt.reverse, merge, step, b0.free + 2, b0.cur);
    PassedFlows(f.exits - {|loops|}, loops, b0, b2, r);
  }

  /** After a loop that is passed, what was emitted since its body leads to blocks of its own. */
  lemma PassedFlows(exits: set<nat>, loops: Loops, b0: BuildState, b2: BuildState, r: BuildState)
    requires LeadsBy(exits, loops, b0, b2) && Closed(b2) && b2.free <= r.free && !r.Terminated()
    requires Ended(r.BlockAt(b0.cur).code)
    requires forall t: BlockId :: b2.HasPredecessor(t) ==> r.HasPredecessor(t)
    requires forall t: BlockId :: r.HasPredecessor(t) ==> b2.HasPredecessor(t) || b0.free <= t < r.free
    ensures Follows(Flow(true, true, exits), loops, b0, r)
  {
  }

  lemma ForEndBlocks(b2: BuildState, x: Param, ty: ParamType, rev: bool, merge: BlockId, step: BlockId,
                     bodyBlock: BlockId, i: BlockId)
    requires merge != step && b2.BlockAt(merge) == EMPTY && b2.cur != merge && b2.cur != step
    requires i != b2.cur && i != step
    ensures var r := ForEnd(b2, x, ty, rev, merge, step, bodyBlock);
            !r.Terminated() && r.cur == merge && r.BlockAt(i) == b2.BlockAt(i) && r.free == b2.free
  {
  }

  /** Where the end of a for loop leads: past it, to its step and to its body, if its body
    * may fall through, and otherwise nowhere. */
  lemma ForEndLeads(b2: BuildState, x: Param, ty: ParamType, rev: bool, merge: BlockId, step: BlockId,
                    bodyBlock: BlockId)
    requires b2.BlockAt(step) == EMPTY
    ensures var r := ForEnd(b2, x, ty, rev, merge, step, bodyBlock);
            forall t: BlockId :: r.HasPredecessor(t) <==>
              b2.HasPredecessor(t) || (!b2.Terminated() && (t == merge || t == step || t == bodyBlock))
  {
    var r := ForEnd(b2, x, ty, rev, merge, step, bodyBlock);
    var test, next := ICondBr(AtLast(x, rev), merge, step), [IStep(x, ty, rev), IBr(bodyBlock, Some(Next(x)))];
    var b3 := b2.Emit(test).MoveTo(step);
    forall t: BlockId
      ensures r.HasPredecessor(t) <==>
                b2.HasPredecessor(t) || (!b2.Terminated() && (t == merge || t == step || t == bodyBlock))
    {
      if b2.Terminated() {
        EraseLeads(b2, step, t);
        MoveLeads(b2.Erase(step), merge, t);
      } else {
        EmitOneLeads(b2, test, t);
        MoveLeads(b2.Emit(test), step, t);
        EmitLeads(b3, next, t);
        assert LeadsTo(next, t) <==> t == bodyBlock by { assert Targets(next[1], t) <==> t == bodyBlock; }
        MoveLeads(b3.EmitAll(next), merge, t);
      }
    }
  }

  // ----------------------------------------------------------- if statements

  /** The builder is where a chain of guards with the labels `ls` is to be emitted. */
  ghost predicate GuardsBefore(b: BuildState, merge: BlockId, loops: Loops, ls: set<Label>) {
    && Before(b, loops, ls) && Ready(b, merge, ls)
    && forall k :: 0 <= k < |loops| ==> loops[k].merge != merge
  }

  /** What the chain leads to: `merge` if control gets past some branch. */
  ghost predicate GuardsLead(f: Flow, loops: Loops, merge: BlockId, b0: BuildState, b: BuildState) {
    && Closed(b) && (b.HasPredecessor(merge) <==> b0.HasPredecessor(merge) || f.open)
    && forall t: BlockId :: t < b0.free && NoLabel(b0, t) && t != merge ==>
         (b.HasPredecessor(t) <==> b0.HasPredecessor(t) || LeadsOut(f.exits, loops, t))
  }

  ghost predicate GuardsAccepted(r: Option<BuildState>, f: Flow, loops: Loops, merge: BlockId, b0: BuildState,
                                 tested: bool)
  {
    && (r.Some? <==> f.ok)
    && (r.Some? ==> GuardsLead(f, loops, merge, b0, r.value) && (tested ==> Ended(r.value.BlockAt(b0.cur).code)))
  }

  lemma {:induction false} GuardsFlows(guards: Guards, merge: BlockId, loops: Loops, b0: BuildState)
    requires GuardsBefore(b0, merge, loops, PlacedInGuards(guards)) && !guards.NoElse? && LabelsOnceGuards(guards)
    ensures GuardsAccepted(GenGuards(guards, merge, loops, b0), GuardsFlow(guards, NamesOf(loops)), loops, merge, b0,
                           guards.Guard?)
    decreases guards, 2
  {
    match guards
    case Else(body) =>
      GenStmtsFlow(body, loops, b0);
      var r := GenStmts(body, loops, b0);
      if r.Some? {
        GenStmtsEvolves(body, loops, b0, r.value);
        ElseFlows(ListFlow(body, NamesOf(loops), true), loops, merge, b0, r.value);
      }
    case Guard(cond, body, rest) =>
      var b1 := GuardEntry(b0, cond, rest, merge);
      GuardOpens(guards, merge, loops, b0);
      GenStmtsFlow(body, loops, b1);
      var r := GenStmts(body, loops, b1);
      if r.Some? {
        GenStmtsEvolves(body, loops, b1, r.value);
        var b3 := GuardDone(b0, r.value, rest, merge);
        if rest.NoElse? {
          LastGuardFlows(guards, merge, loops, b0, b1, r.value);
        } else {
          GuardGoes(guards, merge, loops, b0, b1, r.value, b3);
          GuardsFlows(rest, merge, loops, b3);
          if GenGuards(rest, merge, loops, b3).Some? {
            RestFlows(guards, merge, loops, b0, b1, r.value, b3, GenGuards(rest, merge, loops, b3).value);
          }
        }
      }
  }

  lemma ElseFlows(f: Flow, loops: Loops, merge: BlockId, b0: BuildState, b1: BuildState)
    requires merge < b0.free && NoLabel(b0, merge) && forall k :: 0 <= k < |loops| ==> loops[k].merge != merge
    requires Follows(f, loops, b0, b1) && b0.free <= b1.free
    ensures GuardsLead(f, loops, merge, b0, b1.BranchIfOpen(merge))
  {
    forall t: BlockId
      ensures b1.BranchIfOpen(merge).HasPredecessor(t) <==> b1.HasPredecessor(t) || (f.open && t == merge)
    {
      BranchLeads(b1, merge, t);
    }
  }

  /** The test of a guard: it leads to its statements and to what follows it. */
  lemma GuardOpens(guards: Guards, merge: BlockId, loops: Loops, b0: BuildState)
    requires GuardsBefore(b0, merge, loops, PlacedInGuards(guards)) && guards.Guard?
    ensures var b1 := GuardEntry(b0, guards.cond, guards.rest, merge);
            && Before(b1, loops, PlacedInAll(guards.body)) && AllWaiting(b1, PlacedInGuards(guards.rest))
            && !b1.Terminated() && b1.cur == b0.free && b1.labels == b0.labels && b0.free < b1.free
            && b0.cur in b1.region && Ended(b1.BlockAt(b0.cur).code) && merge in b1.region
            && forall t: BlockId :: b1.HasPredecessor(t) <==>
                 b0.HasPredecessor(t) || t == b0.free || t == if guards.rest.NoElse? then merge else b0.free + 1
  {
    var b1, next := GuardEntry(b0, guards.cond, guards.rest, merge), if guards.rest.NoElse? then merge else b0.free + 1;
    var b := if guards.rest.NoElse? then b0.Create(None) else b0.Create(None).Create(None);
    var test := ICondBr(Test(guards.cond), b0.free, next);
    forall t: BlockId ensures b1.HasPredecessor(t) <==> b0.HasPredecessor(t) || t == b0.free || t == next {
      ThreeLead(b0, None, None, None, t);
      CreateLeads(b0, None, t);
      EmitOneLeads(b, test, t);
      MoveLeads(b.Emit(test), b0.free, t);
    }
    GuardEntryEvolves(b0, guards.cond, guards.rest, merge, {});
    GuardBodyReady(b0, guards.cond, guards.rest, merge, PlacedInGuards(guards));
    GuardWaits(b1, guards);
    StaysBefore(b0, b1, loops, {}, PlacedInGuards(guards));
    FewerLabels(b1, PlacedInAll(guards.body), PlacedInGuards(guards));
    assert BlockOk(b0, b0.cur);
    assert b1.BlockAt(b0.cur).code == b0.Code() + [test];
  }

  /** The last guard without an else leads to `merge` itself. */
  lemma LastGuardFlows(guards: Guards, merge: BlockId, loops: Loops, b0: BuildState, b1: BuildState, b2: BuildState)
    requires GuardsBefore(b0, merge, loops, PlacedInGuards(guards)) && guards.Guard? && guards.rest.NoElse?
    requires b1 == GuardEntry(b0, guards.cond, guards.rest, merge) && Evolves(b1, b2, PlacedInAll(guards.body))
    requires var f := ListFlow(guards.body, NamesOf(loops), true); Follows(f, loops, b1, b2)
    ensures var f := GuardsFlow(guards, NamesOf(loops));
            && GuardsLead(f, loops, merge, b0, b2.BranchIfOpen(merge).MoveTo(merge))
            && Ended(b2.BranchIfOpen(merge).MoveTo(merge).BlockAt(b0.cur).code)
  {
    var b3 := b2.BranchIfOpen(merge);
    GuardOpens(guards, merge, loops, b0);
    TestStays(guards, merge, loops, b0, b1, b2);
    forall t: BlockId
      ensures b3.MoveTo(merge).HasPredecessor(t) <==> b2.HasPredecessor(t) || (!b2.Terminated() && t == merge)
    {
      BranchLeads(b2, merge, t);
      MoveLeads(b3, merge, t);
    }
    assert NoLabel(b1, merge);
  }

  /** The block that ends in the test is left alone. */
  lemma TestStays(guards: Guards, merge: BlockId, loops: Loops, b0: BuildState, b1: BuildState, b2: BuildState)
    requires GuardsBefore(b0, merge, loops, PlacedInGuards(guards)) && guards.Guard?
    requires b1 == GuardEntry(b0, guards.cond, guards.rest, merge) && Evolves(b1, b2, PlacedInAll(guards.body))
    ensures Ended(b2.BranchIfOpen(merge).BlockAt(b0.cur).code) && b0.cur in b2.BranchIfOpen(merge).region
  {
    var ls := PlacedInAll(guards.body);
    GuardOpens(guards, merge, loops, b0);
    FewerLabels(b0, ls, PlacedInGuards(guards));
    WaitsApart(b0, ls);
    assert BlockOk(b0, b0.cur) && Kept(b1, b2, ls, b0.cur);
    assert b2.cur >= b1.free || Owned(b1, ls, b2.cur);
    BlockStays(b1, b2, ls, b0.cur, merge);
  }

  /** Where the rest of the chain is emitted. */
  lemma GuardGoes(guards: Guards, merge: BlockId, loops: Loops, b0: BuildState, b1: BuildState, b2: BuildState,
                  b3: BuildState)
    requires GuardsBefore(b0, merge, loops, PlacedInGuards(guards)) && LabelsOnceGuards(guards)
    requires guards.Guard? && !guards.rest.NoElse? && b3 == b2.BranchIfOpen(merge).MoveTo(b0.free + 1)
    requires b1 == GuardEntry(b0, guards.cond, guards.rest, merge) && Evolves(b1, b2, PlacedInAll(guards.body))
    requires var f := ListFlow(guards.body, NamesOf(loops), true); Follows(f, loops, b1, b2)
    ensures GuardsBefore(b3, merge, loops, PlacedInGuards(guards.rest)) && b3.cur == b0.free + 1
    ensures b3.labels == b2.labels && b3.free == b2.free
    ensures var f := ListFlow(guards.body, NamesOf(loops), true);
            && (b3.HasPredecessor(merge) <==> b0.HasPredecessor(merge) || f.open)
            && forall t: BlockId :: t < b0.free && NoLabel(b0, t) && t != merge ==>
                 (b3.HasPredecessor(t) <==> b0.HasPredecessor(t) || LeadsOut(f.exits, loops, t))
  {
    var ls := PlacedInAll(guards.body);
    GuardOpens(guards, merge, loops, b0);
    GuardRest(b0, b1, b2, guards.cond, guards.rest, ls, merge);
    forall t: BlockId ensures b3.HasPredecessor(t) <==> b2.HasPredecessor(t) || (!b2.Terminated() && t == merge) {
      BranchLeads(b2, merge, t);
      MoveLeads(b2.BranchIfOpen(merge), b0.free + 1, t);
    }
    assert NoLabel(b1, merge);
    forall k | 0 <= k < |loops| ensures NoLabel(b3, loops[k].merge) { NeverALabel(b1, b2, ls, loops[k].merge); }
  }

  lemma RestFlows(guards: Guards, merge: BlockId, loops: Loops, b0: BuildState, b1: BuildState, b2: BuildState,
                  b3: BuildState, b': BuildState)
    requires GuardsBefore(b0, merge, loops, PlacedInGuards(guards)) && LabelsOnceGuards(guards)
    requires guards.Guard? && !guards.rest.NoElse? && b3 == b2.BranchIfOpen(merge).MoveTo(b0.free + 1)
    requires b1 == GuardEntry(b0, guards.cond, guards.rest, merge) && Evolves(b1, b2, PlacedInAll(guards.body))
    requires var f := ListFlow(guards.body, NamesOf(loops), true); Follows(f, loops, b1, b2)
    requires GenGuards(guards.rest, merge, loops, b3) == Some(b')
    requires GuardsLead(GuardsFlow(guards.rest, NamesOf(loops)), loops, merge, b3, b')
    ensures GuardsLead(GuardsFlow(guards, NamesOf(loops)), loops, merge, b0, b') && Ended(b'.BlockAt(b0.cur).code)
  {
    var f, g := ListFlow(guards.body, NamesOf(loops), true), GuardsFlow(guards.rest, NamesOf(loops));
    GuardGoes(guards, merge, loops, b0, b1, b2, b3);
    GuardOpens(guards, merge, loops, b0);
    forall t: BlockId | t < b0.free && NoLabel(b0, t) && t != merge
      ensures b'.HasPredecessor(t) <==> b0.HasPredecessor(t) || LeadsOut(f.exits + g.exits, loops, t)
    {
      NeverALabel(b1, b2, PlacedInAll(guards.body), t);
      assert NoLabel(b3, t);
    }
    RestKeepsTest(guards, merge, loops, b0, b1, b2, b3, b');
  }

  lemma RestKeepsTest(guards: Guards, merge: BlockId, loops: Loops, b0: BuildState, b1: BuildState, b2: BuildState,
                      b3: BuildState, b': BuildState)
    requires GuardsBefore(b0, merge, loops, PlacedInGuards(guards)) && LabelsOnceGuards(guards)
    requires guards.Guard? && !guards.rest.NoElse? && b3 == b2.BranchIfOpen(merge).MoveTo(b0.free + 1)
    requires b1 == GuardEntry(b0, guards.cond, guards.rest, merge) && Evolves(b1, b2, PlacedInAll(guards.body))
    requires GuardsBefore(b3, merge, loops, PlacedInGuards(guards.rest))
    requires GenGuards(guards.rest, merge, loops, b3) == Some(b')
    ensures Ended(b'.BlockAt(b0.cur).code)
  {
    var ls := PlacedInGuards(guards.rest);
    GuardOpens(guards, merge, loops, b0);
    TestStays(guards, merge, loops, b0, b1, b2);
    GenGuardsEvolves(guards.rest, merge, loops, b3, b');
    assert BlockOk(b0, b0.cur);
    forall l | l in ls && l in b3.labels ensures b3.labels[l] != b0.cur {
      assert Waiting(b0, l) && LabelKept(b1, b2, PlacedInAll(guards.body), l);
    }
    BlockStays(b3, b'.MoveTo(b3.cur), ls, b0.cur, 0);
  }

  lemma {:induction false} IfFlows(stmt: Stmt, loops: Loops, b0: BuildState)
    requires stmt.If? && Before(b0, loops, PlacedIn(stmt)) && !b0.Terminated() && LabelsOnce(stmt)
    ensures Accepts(Gen(stmt, loops, b0), StmtFlow(stmt, NamesOf(loops)), loops, b0)
    decreases stmt, 1
  {
    if stmt.guards.Guard? {
      var merge, b := b0.free, b0.Create(None);
      IfOpens(stmt.guards, loops, b0);
      GuardsFlows(stmt.guards, merge, loops, b);
      var r := GenGuards(stmt.guards, merge, loops, b);
      if r.Some? { IfJoins(stmt.guards, loops, b0, r.value); }
    }
  }

  lemma IfOpens(guards: Guards, loops: Loops, b0: BuildState)
    requires Before(b0, loops, PlacedInGuards(guards)) && !b0.Terminated()
    ensures GuardsBefore(b0.Create(None), b0.free, loops, PlacedInGuards(guards))
  {
    var b := b0.Create(None);
    assert Evolves(b0, b, {}) by { Same(b0, {}); Creates(b0, b0, {}, None); }
    forall t: BlockId ensures b.HasPredecessor(t) <==> b0.HasPredecessor(t) { CreateLeads(b0, None, t); }
    StaysBefore(b0, b, loops, {}, PlacedInGuards(guards));
    NotALabelYet(b0, b0.free);
    assert BlockOk(b0, b0.cur);
  }

  lemma IfJoins(guards: Guards, loops: Loops, b0: BuildState, b1: BuildState)
    requires Before(b0, loops, PlacedInGuards(guards)) && guards.Guard?
    requires GenGuards(guards, b0.free, loops, b0.Create(None)) == Some(b1)
    requires GuardsAccepted(Some(b1), GuardsFlow(guards, NamesOf(loops)), loops, b0.free, b0.Create(None), true)
    ensures Follows(GuardsFlow(guards, NamesOf(loops)), loops, b0, b1.Join(b0.free, b0.cur))
  {
    var merge, r := b0.free, b1.Join(b0.free, b0.cur);
    IfMergeEmpty(guards, loops, b0, b1);
    assert BlockOk(b0, b0.cur);
    forall t: BlockId
      ensures r.HasPredecessor(t) <==> b1.HasPredecessor(t)
      ensures b0.Create(None).HasPredecessor(t) <==> b0.HasPredecessor(t)
    {
      JoinLeads(b1, merge, b0.cur, t);
      CreateLeads(b0, None, t);
    }
    assert !b0.HasPredecessor(merge);
  }

  // ------------------------------------------------------------ whole bodies

  /** A body is accepted exactly when its statements, those that control cannot reach
    * aside, have a loop for each exit; and a function's graph is left open exactly when
    * control reaches its end. */
  lemma BodyAccepts(body: Stmts, isProc: bool)
    requires LabelsOnceAll(body)
    ensures GenBody(body, isProc).Some? <==> ListFlow(body, [], true).ok
    ensures GenBody(body, false).Some? ==> (GenBody(body, false).value.Terminated() <==> !ListFlow(body, [], true).open)
  {
    assert Before(START, [], PlacedInAll(body)) by {
      forall t: BlockId ensures !START.HasPredecessor(t) {}
      forall l | l in PlacedInAll(body) ensures Waiting(START, l) {}
    }
    assert NamesOf([]) == [];
    GenStmtsFlow(body, [], START);
  }

  /** If statements have a guard, and exits an enclosing loop, reachable or not. */
  predicate Wellformed(stmt: Stmt, names: seq<LoopName>) {
    match stmt
    case If(guards) => guards.Guard? && WellformedGuards(guards, names)
    case While(name, _, body) => WellformedAll(body, names + [name])
    case Loop(name, body) => WellformedAll(body, names + [name])
    case For(name, _, _, _, _, _, body) => WellformedAll(body, names + [name])
    case Exit(name, _) => if name.None? then names != [] else name in names
    case Block(body) => WellformedAll(body, names)
    case _ => true
  }

  predicate WellformedAll(list: Stmts, names: seq<LoopName>) {
    list.Cons? ==> Wellformed(list.head, names) && WellformedAll(list.tail, names)
  }

  predicate WellformedGuards(guards: Guards, names: seq<LoopName>) {
    match guards
    case NoElse => true
    case Else(body) => WellformedAll(body, names)
    case Guard(_, body, rest) => WellformedAll(body, names) && WellformedGuards(rest, names)
  }

  lemma {:induction false} WellformedFlows(stmt: Stmt, names: seq<LoopName>)
    requires Wellformed(stmt, names)
    ensures StmtFlow(stmt, names).ok
    decreases stmt, 1
  {
    match stmt
    case If(guards) => WellformedGuardsFlow(guards, names);
    case While(name, _, body) => WellformedListFlows(body, names + [name], true);
    case Loop(name, body) => WellformedListFlows(body, names + [name], true);
    case For(name, _, _, _, _, _, body) => WellformedListFlows(body, names + [name], true);
    case Exit(name, _) =>
      if name.None? {
        assert ExitLeaves(names[0], name);
      } else {
        var k :| 0 <= k < |names| && names[k] == name;
        assert ExitLeaves(names[k], name);
      }
    case Block(body) => WellformedListFlows(body, names, true);
    case _ =>
  }

  lemma {:induction false} WellformedListFlows(list: Stmts, names: seq<LoopName>, open: bool)
    requires WellformedAll(list, names)
    ensures ListFlow(list, names, open).ok
    decreases list, 0
  {
    if list.Cons? {
      WellformedFlows(list.head, names);
      WellformedListFlows(list.tail, names, StmtFlow(list.head, names).open);
      WellformedListFlows(list.tail, names, open);
    }
  }

  lemma {:induction false} WellformedGuardsFlow(guards: Guards, names: seq<LoopName>)
    requires WellformedGuards(guards, names)
    ensures GuardsFlow(guards, names).ok
    decreases guards, 0
  {
    match guards
    case NoElse =>
    case Else(body) => WellformedListFlows(body, names, true);
    case Guard(_, body, rest) =>
      WellformedListFlows(body, names, true);
      WellformedGuardsFlow(rest, names);
  }

  /** So a body whose exits all have their loops is accepted. The converse only holds for
    * what can be reached: a return, then an exit outside any loop, is accepted too. */
  lemma WellformedAccepted(body: Stmts, isProc: bool)
    requires LabelsOnceAll(body) && WellformedAll(body, [])
    ensures GenBody(body, isProc).Some?
  {
    WellformedListFlows(body, [], true);
    BodyAccepts(body, isProc);
  }

  lemma DeadExitAccepted()
    ensures var body := Cons(Return(None), Cons(Exit(None, None), Nil));
            !WellformedAll(body, []) && GenBody(body, true).Some?
  {
    var body := Cons(Return(None), Cons(Exit(None, None), Nil));
    assert ListFlow(Cons(Exit(None, None), Nil), [], false).ok;
    BodyAccepts(body, true);
  }
}
