/** How the builder's state evolves: blocks only grow at their end, only where
  * the statement being emitted may write, and nothing is ever lost.
  */
module CfgGrowth {
  import opened Options
  import opened Statements
  import opened Cfg

  // -------------------------------------------------------- labels of a source

  function PlacedIn(stmt: Stmt): set<Label> {
    match stmt
    case If(guards) => PlacedInGuards(guards)
    case While(_, _, body) => PlacedInAll(body)
    case Loop(_, body) => PlacedInAll(body)
    case For(_, _, _, _, _, _, body) => PlacedInAll(body)
    case Labelled(l) => {l}
    case Block(body) => PlacedInAll(body)
    case _ => {}
  }

  function PlacedInAll(list: Stmts): set<Label> {
    if list.Nil? then {} else PlacedIn(list.head) + PlacedInAll(list.tail)
  }

  function PlacedInGuards(guards: Guards): set<Label> {
    match guards
    case NoElse => {}
    case Else(body) => PlacedInAll(body)
    case Guard(_, body, rest) => PlacedInAll(body) + PlacedInGuards(rest)
  }

  // ----------------------------------------------------------------- evolution

  /** Blocks have numbers below `free`, and labels their own blocks. The parts
    * are named, so that a proof picks the blocks and labels it is about. */
  ghost predicate BlockOk(b: BuildState, i: BlockId) { i in b.region ==> i < b.free }

  ghost predicate LabelOk(b: BuildState, l: Label) { l in b.labels ==> b.labels[l] in b.region }

  ghost predicate LabelsApart(b: BuildState, l: Label, l': Label) {
    l in b.labels && l' in b.labels && l != l' ==> b.labels[l] != b.labels[l']
  }

  ghost predicate Good(b: BuildState) {
    && b.cur in b.region
    && (forall i {:trigger BlockOk(b, i)} :: BlockOk(b, i))
    && (forall l {:trigger LabelOk(b, l)} :: LabelOk(b, l))
    && (forall l, l' {:trigger LabelsApart(b, l, l')} :: LabelsApart(b, l, l'))
  }

  /** The old blocks that emitting something with the labels `ls` may write. */
  ghost predicate Owned(b0: BuildState, ls: set<Label>, i: BlockId) {
    i == b0.cur || exists l :: l in ls && l in b0.labels && b0.labels[l] == i
  }

  ghost predicate Kept(b0: BuildState, b1: BuildState, ls: set<Label>, i: BlockId) {
    i in b0.region ==>
      && i in b1.region
      && b1.region[i].arg == b0.region[i].arg && b0.region[i].code <= b1.region[i].code
      && (!Owned(b0, ls, i) ==> b1.region[i] == b0.region[i])
  }

  /** The block of a label stays the same. A new one is a new block, and empty
    * as long as the place of its label has not been reached. */
  ghost predicate LabelKept(b0: BuildState, b1: BuildState, ls: set<Label>, l: Label) {
    && (l in b0.labels ==> l in b1.labels && b1.labels[l] == b0.labels[l])
    && (l in b1.labels && l !in b0.labels ==> b1.labels[l] >= b0.free)
    && (l in b1.labels && l !in b0.labels && l !in ls ==> b1.BlockAt(b1.labels[l]).code == [] && b1.labels[l] != b1.cur)
  }

  /** Block `i` is not that of a new label whose place has not been reached. */
  ghost predicate Writable(b0: BuildState, b1: BuildState, ls: set<Label>, i: BlockId) {
    forall l {:trigger b1.labels[l]} :: l in b1.labels && l !in b0.labels && l !in ls ==> b1.labels[l] != i
  }

  ghost predicate Evolves(b0: BuildState, b1: BuildState, ls: set<Label>) {
    && Good(b1)
    && b0.free <= b1.free
    && (b1.cur >= b0.free || Owned(b0, ls, b1.cur))
    && (forall i {:trigger Kept(b0, b1, ls, i)} :: Kept(b0, b1, ls, i))
    && (forall l {:trigger LabelKept(b0, b1, ls, l)} :: LabelKept(b0, b1, ls, l))
  }

  lemma Same(b0: BuildState, ls: set<Label>)
    requires Good(b0)
    ensures Evolves(b0, b0, ls)
  {
  }

  lemma GoodMoved(b: BuildState, to: BlockId)
    requires Good(b) && to in b.region
    ensures Good(b.MoveTo(to))
  {
    var b' := b.MoveTo(to);
    forall i ensures BlockOk(b', i) { assert BlockOk(b, i); }
    forall l ensures LabelOk(b', l) { assert LabelOk(b, l); }
    forall l, l' ensures LabelsApart(b', l, l') { assert LabelsApart(b, l, l'); }
  }

  lemma Creates(b0: BuildState, b: BuildState, ls: set<Label>, arg: Option<Param>)
    requires Good(b0) && Evolves(b0, b, ls)
    ensures Evolves(b0, b.Create(arg), ls)
  {
    var b' := b.Create(arg);
    forall i ensures BlockOk(b', i) && Kept(b0, b', ls, i) {
      assert BlockOk(b0, i) && BlockOk(b, i) && Kept(b0, b, ls, i);
    }
    forall l ensures LabelOk(b', l) && LabelKept(b0, b', ls, l) { assert LabelOk(b, l) && LabelKept(b0, b, ls, l); }
    forall l, l' ensures LabelsApart(b', l, l') { assert LabelsApart(b, l, l'); }
  }

  lemma Moves(b0: BuildState, b: BuildState, ls: set<Label>, to: BlockId)
    requires Evolves(b0, b, ls) && to in b.region && (to >= b0.free || Owned(b0, ls, to)) && Writable(b0, b, ls, to)
    ensures Evolves(b0, b.MoveTo(to), ls)
  {
    var b' := b.MoveTo(to);
    forall i ensures BlockOk(b', i) && Kept(b0, b', ls, i) { assert BlockOk(b, i) && Kept(b0, b, ls, i); }
    forall l ensures LabelOk(b', l) && LabelKept(b0, b', ls, l) { assert LabelOk(b, l) && LabelKept(b0, b, ls, l); }
    forall l, l' ensures LabelsApart(b', l, l') { assert LabelsApart(b, l, l'); }
  }

  lemma Erases(b0: BuildState, b: BuildState, ls: set<Label>, e: BlockId)
    requires Good(b0) && Evolves(b0, b, ls) && e >= b0.free && e != b.cur
    requires forall l :: l in b.labels ==> b.labels[l] != e
    ensures Evolves(b0, b.Erase(e), ls)
  {
    var b' := b.Erase(e);
    forall i ensures BlockOk(b', i) && Kept(b0, b', ls, i) {
      assert BlockOk(b0, i) && BlockOk(b, i) && Kept(b0, b, ls, i);
    }
    forall l ensures LabelOk(b', l) && LabelKept(b0, b', ls, l) { assert LabelOk(b, l) && LabelKept(b0, b, ls, l); }
    forall l, l' ensures LabelsApart(b', l, l') { assert LabelsApart(b, l, l'); }
  }

  /** Writing at the end of some block the statement may write. */
  lemma Writes(b0: BuildState, b: BuildState, ls: set<Label>, to: BlockId, code: seq<Instr>, then': BlockId)
    requires Good(b0) && Evolves(b0, b, ls)
    requires to in b.region && (to >= b0.free || Owned(b0, ls, to)) && Writable(b0, b, ls, to)
    requires then' in b.region && (then' >= b0.free || Owned(b0, ls, then')) && Writable(b0, b, ls, then')
    ensures Evolves(b0, b.MoveTo(to).EmitAll(code).MoveTo(then'), ls)
  {
    var b' := b.MoveTo(to).EmitAll(code).MoveTo(then');
    forall i ensures BlockOk(b', i) && Kept(b0, b', ls, i) {
      assert BlockOk(b0, i) && BlockOk(b, i) && BlockOk(b, to) && Kept(b0, b, ls, i);
    }
    forall l ensures LabelOk(b', l) && LabelKept(b0, b', ls, l) { assert LabelOk(b, l) && LabelKept(b0, b, ls, l); }
    forall l, l' ensures LabelsApart(b', l, l') { assert LabelsApart(b, l, l'); }
  }

  lemma Emits(b0: BuildState, b: BuildState, ls: set<Label>, i: Instr)
    requires Good(b0) && Evolves(b0, b, ls)
    ensures Evolves(b0, b.Emit(i), ls)
  {
    CurWritable(b0, b, ls, b.cur);
    Writes(b0, b, ls, b.cur, [i], b.cur);
    assert b.MoveTo(b.cur).EmitAll([i]).MoveTo(b.cur) == b.Emit(i);
  }

  lemma CreatesTwo(b0: BuildState, b: BuildState, ls: set<Label>, a1: Option<Param>, a2: Option<Param>)
    requires Good(b0) && Evolves(b0, b, ls)
    ensures Evolves(b0, b.Create(a1).Create(a2), ls)
  {
    Creates(b0, b, ls, a1);
    Creates(b0, b.Create(a1), ls, a2);
  }

  lemma Labels(b0: BuildState, b: BuildState, ls: set<Label>, l: Label)
    requires Good(b0) && Evolves(b0, b, ls)
    ensures Evolves(b0, b.WithLabel(l), ls)
    ensures l in b.WithLabel(l).labels
  {
    if l !in b.labels {
      var b' := b.WithLabel(l);
      forall i ensures BlockOk(b', i) && Kept(b0, b', ls, i) {
        assert BlockOk(b0, i) && BlockOk(b, i) && Kept(b0, b, ls, i);
      }
      forall k ensures LabelOk(b', k) && LabelKept(b0, b', ls, k) {
        assert LabelOk(b, k) && LabelKept(b0, b, ls, k) && BlockOk(b, b.cur) && BlockOk(b0, b0.cur);
        assert k in b.labels ==> BlockOk(b, b.labels[k]);
      }
      forall k, k' ensures LabelsApart(b', k, k') {
        assert LabelsApart(b, k, k') && LabelOk(b, k) && LabelOk(b, k');
        assert k in b.labels ==> BlockOk(b, b.labels[k]);
        assert k' in b.labels ==> BlockOk(b, b.labels[k']);
      }
    }
  }

  lemma Composes(b0: BuildState, b: BuildState, b1: BuildState, ls: set<Label>, ls': set<Label>)
    requires Good(b0) && Evolves(b0, b, ls) && Evolves(b, b1, ls')
    ensures Evolves(b0, b1, ls + ls')
  {
    forall i ensures Kept(b0, b1, ls + ls', i) {
      assert BlockOk(b0, i) && Kept(b0, b, ls, i) && Kept(b, b1, ls', i);
      if i in b0.region { OwnedComposes(b0, b, ls, ls', i); }
    }
    forall l ensures LabelKept(b0, b1, ls + ls', l) {
      assert LabelKept(b0, b, ls, l) && LabelKept(b, b1, ls', l);
      if l in b.labels && l !in b0.labels && l !in ls + ls' { EmptyStays(b, b1, ls', l); }
    }
    if b1.cur < b0.free { OwnedComposes(b0, b, ls, ls', b1.cur); }
  }

  lemma CurWritable(b0: BuildState, b: BuildState, ls: set<Label>, i: BlockId)
    requires Evolves(b0, b, ls) && (i == b.cur || i < b0.free || b.labels == b0.labels)
    ensures Writable(b0, b, ls, i)
  {
    forall l | l in b.labels && l !in b0.labels && l !in ls ensures b.labels[l] != i { assert LabelKept(b0, b, ls, l); }
  }

  /** A label whose place has not been reached keeps its block empty. */
  ghost predicate Waiting(b: BuildState, l: Label) {
    l in b.labels ==> b.BlockAt(b.labels[l]).code == [] && b.labels[l] != b.cur
  }

  lemma EmptyStays(b: BuildState, b1: BuildState, ls: set<Label>, l: Label)
    requires Good(b) && Evolves(b, b1, ls) && l !in ls && Waiting(b, l)
    ensures Waiting(b1, l)
  {
    assert LabelKept(b, b1, ls, l);
    if l in b.labels {
      var i := b.labels[l];
      assert LabelOk(b, l) && Kept(b, b1, ls, i) && BlockOk(b, i);
      forall k | k in ls && k in b.labels ensures b.labels[k] != i { assert LabelsApart(b, k, l); }
    }
  }

  lemma OwnedComposes(b0: BuildState, b: BuildState, ls: set<Label>, ls': set<Label>, i: BlockId)
    requires Evolves(b0, b, ls) && i < b0.free
    ensures Owned(b, ls', i) ==> Owned(b0, ls + ls', i)
    ensures Owned(b0, ls, i) ==> Owned(b0, ls + ls', i)
  {
    if Owned(b, ls', i) && i != b.cur {
      var l :| l in ls' && l in b.labels && b.labels[l] == i;
      assert LabelKept(b0, b, ls, l);
    }
  }

  lemma Widens(b0: BuildState, b1: BuildState, ls: set<Label>, ls': set<Label>)
    requires Evolves(b0, b1, ls) && ls <= ls'
    ensures Evolves(b0, b1, ls')
  {
    forall i ensures Kept(b0, b1, ls', i) { assert Kept(b0, b1, ls, i); }
    forall l ensures LabelKept(b0, b1, ls', l) { assert LabelKept(b0, b1, ls, l); }
  }

  lemma BranchesIfOpen(b0: BuildState, b: BuildState, ls: set<Label>, dest: BlockId)
    requires Good(b0) && Evolves(b0, b, ls)
    ensures Evolves(b0, b.BranchIfOpen(dest), ls)
  {
    if !b.Terminated() { Emits(b0, b, ls, IBr(dest, None)); }
  }

  /** Joining at a merge block created since `b0`, which no label denotes. */
  lemma Joins(b0: BuildState, b: BuildState, ls: set<Label>, merge: BlockId, terminated: BlockId)
    requires Good(b0) && Evolves(b0, b, ls)
    requires merge in b.region && merge >= b0.free && forall l :: l in b.labels ==> b.labels[l] != merge
    requires terminated in b.region && terminated != merge && (terminated >= b0.free || Owned(b0, ls, terminated))
    requires Writable(b0, b, ls, terminated)
    ensures Evolves(b0, b.Join(merge, terminated), ls)
  {
    if b.HasPredecessor(merge) {
      Moves(b0, b, ls, merge);
    } else {
      Moves(b0, b, ls, terminated);
      Erases(b0, b.MoveTo(terminated), ls, merge);
      assert b.Erase(merge).MoveTo(terminated) == b.MoveTo(terminated).Erase(merge);
    }
  }

  lemma NotALabelYet(b: BuildState, i: BlockId)
    requires Good(b) && i >= b.free
    ensures forall l :: l in b.labels ==> b.labels[l] != i
  {
    forall l | l in b.labels ensures b.labels[l] != i { assert LabelOk(b, l) && BlockOk(b, b.labels[l]); }
  }

  lemma Places(b0: BuildState, b: BuildState, ls: set<Label>, placed: seq<Label>)
    requires Evolves(b0, b, ls)
    ensures Evolves(b0, b.(placed := placed), ls)
  {
    var b' := b.(placed := placed);
    forall i ensures BlockOk(b', i) && Kept(b0, b', ls, i) { assert BlockOk(b, i) && Kept(b0, b, ls, i); }
    forall l ensures LabelOk(b', l) && LabelKept(b0, b', ls, l) { assert LabelOk(b, l) && LabelKept(b0, b, ls, l); }
    forall l, l' ensures LabelsApart(b', l, l') { assert LabelsApart(b, l, l'); }
  }

  /** A block that is no label's when the labels `ls` start being emitted is not one after. */
  lemma NeverALabel(b: BuildState, b1: BuildState, ls: set<Label>, i: BlockId)
    requires Evolves(b, b1, ls) && i < b.free && forall l :: l in b.labels ==> b.labels[l] != i
    ensures forall l :: l in b1.labels ==> b1.labels[l] != i
  {
    forall l | l in b1.labels ensures b1.labels[l] != i { assert LabelKept(b, b1, ls, l); }
  }

  // ------------------------------------------------------- emitting evolves

  lemma {:induction false} GenEvolves(stmt: Stmt, loops: Loops, b0: BuildState, b': BuildState)
    requires Good(b0) && Gen(stmt, loops, b0) == Some(b')
    ensures Evolves(b0, b', PlacedIn(stmt))
    decreases stmt, 1
  {
    match stmt
    case If(_) => IfEvolves(stmt, loops, b0, b');
    case While(_, _, _) => WhileEvolves(stmt, loops, b0, b');
    case Loop(_, _) => LoopEvolves(stmt, loops, b0, b');
    case For(_, _, _, _, _, _, _) => ForEvolves(stmt, loops, b0, b');
    case Block(body) => GenStmtsEvolves(body, loops, b0, b');
    case _ => SimpleEvolves(stmt, loops, b0, b');
  }

  lemma SimpleEvolves(stmt: Stmt, loops: Loops, b0: BuildState, b': BuildState)
    requires Good(b0) && Gen(stmt, loops, b0) == Some(b')
    requires !(stmt.If? || stmt.While? || stmt.Loop? || stmt.For? || stmt.Block?)
    ensures Evolves(b0, b', PlacedIn(stmt))
  {
    var ls := PlacedIn(stmt);
    Same(b0, ls);
    match stmt
    case Null => Emits(b0, b0, ls, INull);
    case Assign(x, e) => Emits(b0, b0, ls, IAssign(x, e));
    case Return(value) => Emits(b0, b0, ls, IReturn(value));
    case Exit(name, None) => Emits(b0, b0, ls, IBr(ExitTarget(loops, name).value, None));
    case Exit(name, Some(e)) =>
      Creates(b0, b0, ls, None);
      CurWritable(b0, b0.Create(None), ls, b0.cur);
      CurWritable(b0, b0.Create(None), ls, b0.free);
      Writes(b0, b0.Create(None), ls, b0.cur, [ICondBr(Test(e), ExitTarget(loops, name).value, b0.free)], b0.free);
    case Goto(l) =>
      Labels(b0, b0, ls, l);
      Emits(b0, b0.WithLabel(l), ls, IBr(b0.WithLabel(l).labels[l], None));
    case Labelled(l) => LabelEvolves(b0, l);
  }

  lemma LabelEvolves(b0: BuildState, l: Label)
    requires Good(b0)
    ensures var b1 := b0.WithLabel(l);
            var b2 := if l in b1.labels then b1.BranchIfOpen(b1.labels[l]).MoveTo(b1.labels[l]) else b1;
            l in b1.labels && Evolves(b0, b2.(placed := b1.placed + [l]), {l})
  {
    var b1 := b0.WithLabel(l);
    Same(b0, {l});
    Labels(b0, b0, {l}, l);
    BranchesIfOpen(b0, b1, {l}, b1.labels[l]);
    var b2 := b1.BranchIfOpen(b1.labels[l]);
    assert LabelOk(b2, l) && LabelKept(b0, b1, {l}, l) && b2.labels == b1.labels;
    Moves(b0, b2, {l}, b1.labels[l]);
    Places(b0, b2.MoveTo(b1.labels[l]), {l}, b1.placed + [l]);
  }

  lemma {:induction false} IfEvolves(stmt: Stmt, loops: Loops, b0: BuildState, b': BuildState)
    requires Good(b0) && stmt.If? && Gen(stmt, loops, b0) == Some(b')
    ensures Evolves(b0, b', PlacedIn(stmt))
    decreases stmt, 0
  {
    var b := b0.Create(None);
    var b1 := GenGuards(stmt.guards, b0.free, loops, b).value;
    Same(b0, {});
    Creates(b0, b0, {}, None);
    NotALabelYet(b0, b0.free);
    GenGuardsEvolves(stmt.guards, b0.free, loops, b, b1);
    IfJoins(b0, b1, PlacedIn(stmt));
  }

  lemma {:induction false} WhileEvolves(stmt: Stmt, loops: Loops, b0: BuildState, b': BuildState)
    requires Good(b0) && stmt.While? && Gen(stmt, loops, b0) == Some(b')
    ensures Evolves(b0, b', PlacedIn(stmt))
    decreases stmt, 0
  {
    var inner, b1 := loops + [LoopEntry(b0.free, stmt.name)], WhileEntry(b0, stmt.cond);
    var b2 := GenStmts(stmt.body, inner, b1).value;
    WhileEntryEvolves(b0, stmt.cond, PlacedIn(stmt));
    GenStmtsEvolves(stmt.body, inner, b1, b2);
    LoopCloses(b0, b1, b2, PlacedIn(stmt), b0.free, b0.free + 1, b0.free + 2);
  }

  lemma {:induction false} LoopEvolves(stmt: Stmt, loops: Loops, b0: BuildState, b': BuildState)
    requires Good(b0) && stmt.Loop? && Gen(stmt, loops, b0) == Some(b')
    ensures Evolves(b0, b', PlacedIn(stmt))
    decreases stmt, 0
  {
    var inner, b1 := loops + [LoopEntry(b0.free, stmt.name)], LoopEntered(b0);
    var b2 := GenStmts(stmt.body, inner, b1).value;
    LoopEntryEvolves(b0, PlacedIn(stmt));
    GenStmtsEvolves(stmt.body, inner, b1, b2);
    LoopCloses(b0, b1, b2, PlacedIn(stmt), b0.free, b0.free + 1, b0.free + 1);
  }

  lemma {:induction false} ForEvolves(stmt: Stmt, loops: Loops, b0: BuildState, b': BuildState)
    requires Good(b0) && stmt.For? && Gen(stmt, loops, b0) == Some(b')
    ensures Evolves(b0, b', PlacedIn(stmt))
    decreases stmt, 0
  {
    var For(name, x, ty, low, high, rev, body) := stmt;
    var inner, b1 := loops + [LoopEntry(b0.free, name)], ForEntry(b0, x, ty, low, high, rev);
    var b2 := GenStmts(body, inner, b1).value;
    ForEntryEvolves(b0, x, ty, low, high, rev, PlacedIn(stmt));
    GenStmtsEvolves(body, inner, b1, b2);
    ForCloses(b0, b1, b2, PlacedIn(stmt), x, ty, rev);
  }

  lemma WhileEntryEvolves(b0: BuildState, cond: Expr, ls: set<Label>)
    requires Good(b0)
    ensures Evolves(b0, WhileEntry(b0, cond), ls)
    ensures WhileEntry(b0, cond).labels == b0.labels && WhileEntry(b0, cond).free == b0.free + 3
    ensures b0.free in WhileEntry(b0, cond).region && b0.free + 1 in WhileEntry(b0, cond).region
  {
    var merge, bodyBlock, header := b0.free, b0.free + 1, b0.free + 2;
    var c := b0.Create(None).Create(None).Create(None);
    var test, enter := ICondBr(Test(cond), bodyBlock, merge), IBr(header, None);
    var d := c.MoveTo(header).EmitAll([test]).MoveTo(b0.cur);
    assert Evolves(b0, d, ls) by {
      assert Evolves(b0, c, ls) by {
        Same(b0, ls);
        CreatesTwo(b0, b0, ls, None, None);
        Creates(b0, b0.Create(None).Create(None), ls, None);
      }
      Writes(b0, c, ls, header, [test], b0.cur);
    }
    Writes(b0, d, ls, b0.cur, [enter], bodyBlock);
  }

  lemma LoopEntryEvolves(b0: BuildState, ls: set<Label>)
    requires Good(b0)
    ensures Evolves(b0, LoopEntered(b0), ls)
    ensures LoopEntered(b0).labels == b0.labels && LoopEntered(b0).free == b0.free + 2
    ensures b0.free in LoopEntered(b0).region && b0.free + 1 in LoopEntered(b0).region
  {
    Same(b0, ls);
    CreatesTwo(b0, b0, ls, None, None);
    var c := b0.Create(None).Create(None);
    Writes(b0, c, ls, b0.cur, [IBr(b0.free + 1, None)], b0.free + 1);
  }

  lemma ForEntryEvolves(b0: BuildState, x: Param, ty: ParamType, low: Expr, high: Expr, rev: bool, ls: set<Label>)
    requires Good(b0)
    ensures Evolves(b0, ForEntry(b0, x, ty, low, high, rev), ls)
    ensures var b1 := ForEntry(b0, x, ty, low, high, rev);
            && b1.labels == b0.labels && b1.free == b0.free + 4 && b1.cur == b0.free + 2
            && forall i :: b0.free <= i < b0.free + 4 ==> i in b1.region
  {
    var merge, bodyBlock, init := b0.free, b0.free + 2, b0.free + 3;
    var c := b0.Create(None).Create(None);
    var d := c.Create(Some(x)).Create(None);
    var code := [IBound(Low(x), low), IBound(High(x), high), IConvert(Low(x), ty), IConvert(High(x), ty),
                 ICondBr(NonEmpty(x), init, merge)];
    var enter := IBr(bodyBlock, Some(if rev then High(x) else Low(x)));
    var e := d.EmitAll(code).MoveTo(init);
    assert Evolves(b0, e, ls) by {
      assert Evolves(b0, d, ls) by {
        Same(b0, ls);
        CreatesTwo(b0, b0, ls, None, None);
        CreatesTwo(b0, c, ls, Some(x), None);
      }
      Writes(b0, d, ls, b0.cur, code, init);
    }
    Writes(b0, e, ls, init, [enter], bodyBlock);
  }

  lemma IfJoins(b0: BuildState, b1: BuildState, ls: set<Label>)
    requires Good(b0) && Evolves(b0.Create(None), b1.MoveTo(b0.cur), ls)
    ensures Evolves(b0, b1.Join(b0.free, b0.cur), ls)
  {
    var b := b0.Create(None);
    assert Evolves(b0, b, ls) by {
      Same(b0, ls);
      Creates(b0, b0, ls, None);
    }
    Composes(b0, b, b1.MoveTo(b0.cur), ls, ls);
    assert ls + ls == ls;
    NotALabelYet(b0, b0.free);
    NeverALabel(b, b1.MoveTo(b0.cur), ls, b0.free);
    assert Kept(b, b1.MoveTo(b0.cur), ls, b0.free) && Kept(b, b1.MoveTo(b0.cur), ls, b0.cur) && BlockOk(b0, b0.cur);
    CurWritable(b0, b1.MoveTo(b0.cur), ls, b0.cur);
    Joins(b0, b1.MoveTo(b0.cur), ls, b0.free, b0.cur);
    assert b1.MoveTo(b0.cur).Join(b0.free, b0.cur) == b1.Join(b0.free, b0.cur);
  }

  lemma LoopCloses(b0: BuildState, b1: BuildState, b2: BuildState, ls: set<Label>, merge: BlockId, bodyBlock: BlockId,
                   header: BlockId)
    requires Good(b0) && Evolves(b0, b1, ls) && Evolves(b1, b2, ls)
    requires b0.free <= merge < b1.free && b0.free <= bodyBlock < b1.free && merge != bodyBlock
    requires merge in b1.region && bodyBlock in b1.region && b1.labels == b0.labels
    ensures Evolves(b0, b2.BranchIfOpen(header).Join(merge, bodyBlock), ls)
  {
    Composes(b0, b1, b2, ls, ls);
    assert ls + ls == ls;
    NotALabelYet(b0, merge);
    NeverALabel(b1, b2, ls, merge);
    NotALabelYet(b0, bodyBlock);
    NeverALabel(b1, b2, ls, bodyBlock);
    assert Kept(b1, b2, ls, merge) && Kept(b1, b2, ls, bodyBlock);
    BranchesIfOpen(b0, b2, ls, header);
    Joins(b0, b2.BranchIfOpen(header), ls, merge, bodyBlock);
  }

  lemma ForCloses(b0: BuildState, b1: BuildState, b2: BuildState, ls: set<Label>, x: Param, ty: ParamType, rev: bool)
    requires Good(b0) && Evolves(b0, b1, ls) && Evolves(b1, b2, ls) && b1.labels == b0.labels
    requires b1.free == b0.free + 4 && forall i :: b0.free <= i < b0.free + 4 ==> i in b1.region
    requires b1.cur == b0.free + 2
    ensures Evolves(b0, ForEnd(b2, x, ty, rev, b0.free, b0.free + 1, b0.free + 2), ls)
  {
    var merge, step, bodyBlock := b0.free, b0.free + 1, b0.free + 2;
    Composes(b0, b1, b2, ls, ls);
    assert ls + ls == ls;
    NotALabelYet(b0, step);
    NeverALabel(b1, b2, ls, step);
    NotALabelYet(b0, merge);
    NeverALabel(b1, b2, ls, merge);
    assert Kept(b1, b2, ls, step) && Kept(b1, b2, ls, merge);
    assert b0.free in b1.region && b0.free + 1 in b1.region;
    if b2.Terminated() {
      Moves(b0, b2, ls, merge);
      Erases(b0, b2.MoveTo(merge), ls, step);
      assert b2.MoveTo(merge).Erase(step) == b2.Erase(step).MoveTo(merge);
    } else {
      var test := ICondBr(AtLast(x, rev), merge, step);
      Emits(b0, b2, ls, test);
      Writes(b0, b2.Emit(test), ls, step, [IStep(x, ty, rev), IBr(bodyBlock, Some(Next(x)))], merge);
    }
  }

  lemma {:induction false} GenGuardsEvolves(guards: Guards, merge: BlockId, loops: Loops, b0: BuildState,
                                            b': BuildState)
    requires Good(b0) && merge in b0.region && merge < b0.free && GenGuards(guards, merge, loops, b0) == Some(b')
    requires forall l :: l in b0.labels ==> b0.labels[l] != merge
    ensures Evolves(b0, b'.MoveTo(b0.cur), PlacedInGuards(guards))
    ensures b'.cur in b'.region
    decreases guards, 0
  {
    var ls := PlacedInGuards(guards);
    Same(b0, ls);
    match guards
    case NoElse =>
    case Else(body) =>
      var b1 := GenStmts(body, loops, b0).value;
      GenStmtsEvolves(body, loops, b0, b1);
      BranchesIfOpen(b0, b1, ls, merge);
      assert Kept(b0, b1.BranchIfOpen(merge), ls, b0.cur) && BlockOk(b0, b0.cur);
      CurWritable(b0, b1.BranchIfOpen(merge), ls, b0.cur);
      Moves(b0, b1.BranchIfOpen(merge), ls, b0.cur);
    case Guard(cond, body, rest) =>
      var b1 := GuardEntry(b0, cond, rest, merge);
      GuardEntryEvolves(b0, cond, rest, merge, ls);
      var b2 := GenStmts(body, loops, b1).value;
      GenStmtsEvolves(body, loops, b1, b2);
      GuardBodyEvolves(b0, b1, b2, ls, PlacedInAll(body), merge);
      var b3 := b2.BranchIfOpen(merge);
      if rest.NoElse? {
        assert b'.MoveTo(b0.cur) == b3.MoveTo(b0.cur);
      } else {
        NotALabelYet(b0, b0.free + 1);
        NeverALabel(b1, b2, PlacedInAll(body), b0.free + 1);
        Moves(b0, b3, ls, b0.free + 1);
        GenGuardsEvolves(rest, merge, loops, b3.MoveTo(b0.free + 1), b');
        GuardRestEvolves(b0, b3.MoveTo(b0.free + 1), b', ls, PlacedInGuards(rest));
      }
  }

  lemma GuardBodyEvolves(b0: BuildState, b1: BuildState, b2: BuildState, ls: set<Label>, inner: set<Label>,
                         merge: BlockId)
    requires Good(b0) && Evolves(b0, b1, ls) && Evolves(b1, b2, inner) && inner <= ls
    requires merge in b0.region && merge < b0.free && forall l :: l in b0.labels ==> b0.labels[l] != merge
    ensures Evolves(b0, b2.BranchIfOpen(merge), ls) && Evolves(b0, b2.BranchIfOpen(merge).MoveTo(b0.cur), ls)
    ensures merge in b2.BranchIfOpen(merge).region
    ensures forall l :: l in b2.labels ==> b2.labels[l] != merge
    ensures forall i :: i in b1.region ==> i in b2.BranchIfOpen(merge).region
  {
    Composes(b0, b1, b2, ls, inner);
    assert ls + inner == ls;
    BranchesIfOpen(b0, b2, ls, merge);
    NeverALabel(b0, b2, ls, merge);
    var b3 := b2.BranchIfOpen(merge);
    assert Kept(b0, b3, ls, b0.cur) && Kept(b0, b3, ls, merge) && BlockOk(b0, b0.cur);
    CurWritable(b0, b3, ls, b0.cur);
    Moves(b0, b3, ls, b0.cur);
    forall i | i in b1.region ensures i in b3.region { assert Kept(b1, b2, inner, i); }
  }

  lemma GuardRestEvolves(b0: BuildState, b3: BuildState, b': BuildState, ls: set<Label>, inner: set<Label>)
    requires Good(b0) && Evolves(b0, b3, ls) && Evolves(b3, b'.MoveTo(b3.cur), inner) && inner <= ls
    ensures Evolves(b0, b'.MoveTo(b0.cur), ls)
  {
    Composes(b0, b3, b'.MoveTo(b3.cur), ls, inner);
    assert ls + inner == ls;
    assert Kept(b0, b'.MoveTo(b3.cur), ls, b0.cur) && BlockOk(b0, b0.cur);
    CurWritable(b0, b'.MoveTo(b3.cur), ls, b0.cur);
    Moves(b0, b'.MoveTo(b3.cur), ls, b0.cur);
    assert b'.MoveTo(b3.cur).MoveTo(b0.cur) == b'.MoveTo(b0.cur);
  }

  lemma GuardEntryEvolves(b0: BuildState, cond: Expr, rest: Guards, merge: BlockId, ls: set<Label>)
    requires Good(b0)
    ensures Evolves(b0, GuardEntry(b0, cond, rest, merge), ls)
    ensures !rest.NoElse? ==>
      b0.free + 1 in GuardEntry(b0, cond, rest, merge).region && GuardEntry(b0, cond, rest, merge).free == b0.free + 2
    ensures GuardEntry(b0, cond, rest, merge).labels == b0.labels
  {
    Same(b0, ls);
    Creates(b0, b0, ls, None);
    CreatesTwo(b0, b0, ls, None, None);
    var b1 := if rest.NoElse? then b0.Create(None) else b0.Create(None).Create(None);
    var test := ICondBr(Test(cond), b0.free, if rest.NoElse? then merge else b0.free + 1);
    Writes(b0, b1, ls, b0.cur, [test], b0.free);
  }

  lemma {:induction false} GenStmtsEvolves(list: Stmts, loops: Loops, b0: BuildState, b': BuildState)
    requires Good(b0) && GenStmts(list, loops, b0) == Some(b')
    ensures Evolves(b0, b', PlacedInAll(list))
    decreases list, 0
  {
    var ls := PlacedInAll(list);
    match list
    case Nil => Same(b0, ls);
    case Cons(head, tail) =>
      if b0.Terminated() && !head.Labelled? {
        GenStmtsEvolves(tail, loops, b0, b');
        Widens(b0, b', PlacedInAll(tail), ls);
      } else {
        var b1 := Gen(head, loops, b0).value;
        GenEvolves(head, loops, b0, b1);
        GenStmtsEvolves(tail, loops, b1, b');
        Composes(b0, b1, b', PlacedIn(head), PlacedInAll(tail));
      }
  }
}
