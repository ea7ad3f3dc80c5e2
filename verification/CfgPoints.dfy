/** What each statement of a body has emitted is found in the finished graph: gotos
  * lead to the places of their labels, and the blocks that were dropped are exactly
  * those that nothing leads to.
  */
module CfgPoints {
  import opened Options
  import opened Statements
  import opened Cfg
  import opened CfgBody
  import opened CfgGrowth
  import opened CfgMeaning
  import opened CfgShape
  import opened CfgSimulation

  /** A statement that is emitted, inside `loops`, from the state `before`. */
  datatype Point = Point(stmt: Stmt, loops: Loops, before: BuildState)

  /** The points of emitting `stmt`: itself, and what is emitted inside it. Statements
    * skipped as unreachable are no points. */
  ghost function Points(stmt: Stmt, loops: Loops, b0: BuildState): set<Point>
    decreases stmt, 1
  {
    {Point(stmt, loops, b0)} + Inside(stmt, loops, b0)
  }

  ghost function Inside(stmt: Stmt, loops: Loops, b0: BuildState): set<Point>
    decreases stmt, 0
  {
    match stmt
    case If(guards) => GuardPoints(guards, b0.free, loops, b0.Create(None))
    case While(name, cond, body) => AllPoints(body, loops + [LoopEntry(b0.free, name)], WhileEntry(b0, cond))
    case Loop(name, body) => AllPoints(body, loops + [LoopEntry(b0.free, name)], LoopEntered(b0))
    case For(name, x, ty, low, high, rev, body) =>
      AllPoints(body, loops + [LoopEntry(b0.free, name)], ForEntry(b0, x, ty, low, high, rev))
    case Block(body) => AllPoints(body, loops, b0)
    case _ => {}
  }

  ghost function AllPoints(list: Stmts, loops: Loops, b0: BuildState): set<Point>
    decreases list, 0
  {
    if list.Nil? then {}
    else if b0.Terminated() && !list.head.Labelled? then AllPoints(list.tail, loops, b0)
    else
      var b1 := Gen(list.head, loops, b0);
      Points(list.head, loops, b0) + if b1.Some? then AllPoints(list.tail, loops, b1.value) else {}
  }

  ghost function GuardPoints(guards: Guards, merge: BlockId, loops: Loops, b0: BuildState): set<Point>
    decreases guards, 0
  {
    match guards
    case NoElse => {}
    case Else(body) => AllPoints(body, loops, b0)
    case Guard(cond, body, rest) =>
      var b1 := GuardEntry(b0, cond, rest, merge);
      var b2 := GenStmts(body, loops, b1);
      AllPoints(body, loops, b1)
      + if b2.Some? then GuardPoints(rest, merge, loops, GuardDone(b0, b2.value, rest, merge)) else {}
  }

  /** After the statements of a guard, where the rest is emitted. */
  function GuardDone(b0: BuildState, b2: BuildState, rest: Guards, merge: BlockId): BuildState {
    b2.BranchIfOpen(merge).MoveTo(if rest.NoElse? then merge else b0.free + 1)
  }

  // ------------------------------------------------ what later emission keeps

  /** A number that was given to a block, which was dropped. */
  predicate Gone(b: BuildState, e: BlockId) { e < b.free && e !in b.region }

  ghost predicate Later(b1: BuildState, b2: BuildState) {
    Within(b1, b2) && forall e {:trigger Gone(b1, e)} :: Gone(b1, e) ==> Gone(b2, e)
  }

  lemma LaterTwice(b0: BuildState, b1: BuildState, b2: BuildState)
    requires Later(b0, b1) && Later(b1, b2)
    ensures Later(b0, b2)
  {
    WithinTwice(b0, b1, b2);
    forall e | Gone(b0, e) ensures Gone(b2, e) { assert Gone(b1, e); }
  }

  lemma EvolvesLater(b0: BuildState, b1: BuildState, ls: set<Label>)
    requires Evolves(b0, b1, ls) && forall e :: e in b1.region && e < b0.free ==> e in b0.region
    ensures Later(b0, b1)
  {
    EvolvesWithin(b0, b1, ls);
  }

  lemma BranchLater(b: BuildState, dest: BlockId, to: BlockId)
    requires Good(b) && to in b.region
    ensures var b' := b.BranchIfOpen(dest).MoveTo(to); Good(b') && Later(b, b') && b'.region.Keys == b.region.Keys
  {
    Same(b, {});
    BranchesIfOpen(b, b, {}, dest);
    EvolvesLater(b, b.BranchIfOpen(dest), {});
    GoodMoved(b.BranchIfOpen(dest), to);
    WithinMoved(b.BranchIfOpen(dest), to);
    LaterTwice(b, b.BranchIfOpen(dest), b.BranchIfOpen(dest).MoveTo(to));
  }

  lemma JoinLater(b: BuildState, merge: BlockId, terminated: BlockId)
    requires b.BlockAt(merge) == EMPTY
    ensures Later(b, b.Join(merge, terminated))
  {
    JoinWithin(b, merge, terminated);
  }

  /** What has been emitted at `p` is still there in `b`. */
  ghost predicate Settled(p: Point, b: BuildState) {
    var a := Gen(p.stmt, p.loops, p.before);
    Good(p.before) && a.Some? && Later(a.value, b)
  }

  ghost predicate AllSettled(points: set<Point>, b: BuildState) { forall p :: p in points ==> Settled(p, b) }

  lemma SettledLater(points: set<Point>, b1: BuildState, b2: BuildState)
    requires AllSettled(points, b1) && Later(b1, b2)
    ensures AllSettled(points, b2)
  {
    forall p | p in points ensures Settled(p, b2) { LaterTwice(Gen(p.stmt, p.loops, p.before).value, b1, b2); }
  }

  // --------------------------------------------------- every point is settled

  lemma {:induction false} StmtSettles(stmt: Stmt, loops: Loops, b0: BuildState, b': BuildState)
    requires Good(b0) && Gen(stmt, loops, b0) == Some(b')
    ensures Later(b0, b') && AllSettled(Points(stmt, loops, b0), b')
    decreases stmt, 1
  {
    match stmt
    case If(_) => IfSettles(stmt, loops, b0, b');
    case While(_, _, _) => WhileSettles(stmt, loops, b0, b');
    case Loop(_, _) => LoopSettles(stmt, loops, b0, b');
    case For(_, _, _, _, _, _, _) => ForSettles(stmt, loops, b0, b');
    case Block(body) => StmtsSettle(body, loops, b0, b');
    case _ => SimpleSettles(stmt, loops, b0, b');
  }

  lemma SimpleSettles(stmt: Stmt, loops: Loops, b0: BuildState, b': BuildState)
    requires Good(b0) && Gen(stmt, loops, b0) == Some(b')
    requires !(stmt.If? || stmt.While? || stmt.Loop? || stmt.For? || stmt.Block?)
    ensures Later(b0, b')
  {
    SimpleEvolves(stmt, loops, b0, b');
    forall l ensures LabelOk(b0, l) {}
    EvolvesLater(b0, b', PlacedIn(stmt));
  }

  lemma {:induction false} StmtsSettle(list: Stmts, loops: Loops, b0: BuildState, b': BuildState)
    requires Good(b0) && GenStmts(list, loops, b0) == Some(b')
    ensures Later(b0, b') && AllSettled(AllPoints(list, loops, b0), b')
    decreases list, 0
  {
    if list.Cons? {
      if b0.Terminated() && !list.head.Labelled? {
        StmtsSettle(list.tail, loops, b0, b');
      } else {
        var b1 := Gen(list.head, loops, b0).value;
        GenEvolves(list.head, loops, b0, b1);
        StmtSettles(list.head, loops, b0, b1);
        StmtsSettle(list.tail, loops, b1, b');
        LaterTwice(b0, b1, b');
        SettledLater(Points(list.head, loops, b0), b1, b');
      }
    }
  }

  lemma {:induction false} IfSettles(stmt: Stmt, loops: Loops, b0: BuildState, b': BuildState)
    requires Good(b0) && stmt.If? && Gen(stmt, loops, b0) == Some(b')
    ensures Later(b0, b') && AllSettled(Inside(stmt, loops, b0), b')
    decreases stmt, 0
  {
    var merge, b := b0.free, b0.Create(None);
    var b1 := GenGuards(stmt.guards, merge, loops, b).value;
    assert Evolves(b0, b, {}) by { Same(b0, {}); Creates(b0, b0, {}, None); }
    EvolvesLater(b0, b, {});
    GuardsSettle(stmt.guards, merge, loops, b, b1);
    IfMergeEmpty(stmt.guards, loops, b0, b1);
    JoinLater(b1, merge, b0.cur);
    LaterTwice(b, b1, b');
    LaterTwice(b0, b, b');
    SettledLater(Inside(stmt, loops, b0), b1, b');
  }

  lemma IfMergeEmpty(guards: Guards, loops: Loops, b0: BuildState, b1: BuildState)
    requires Good(b0) && GenGuards(guards, b0.free, loops, b0.Create(None)) == Some(b1)
    ensures b1.BlockAt(b0.free) == EMPTY && b0.free < b1.free
  {
    var b := b0.Create(None);
    assert Evolves(b0, b, {}) by { Same(b0, {}); Creates(b0, b0, {}, None); }
    NotALabelYet(b0, b0.free);
    GenGuardsEvolves(guards, b0.free, loops, b, b1);
    assert Kept(b, b1.MoveTo(b.cur), PlacedInGuards(guards), b0.free) && BlockOk(b0, b0.cur);
  }

  lemma {:induction false} GuardsSettle(guards: Guards, merge: BlockId, loops: Loops, b0: BuildState, b': BuildState)
    requires Good(b0) && merge in b0.region && GenGuards(guards, merge, loops, b0) == Some(b')
    ensures Later(b0, b') && AllSettled(GuardPoints(guards, merge, loops, b0), b')
    decreases guards, 0
  {
    match guards
    case NoElse =>
    case Else(body) =>
      var b1 := GenStmts(body, loops, b0).value;
      StmtsSettle(body, loops, b0, b1);
      GenStmtsEvolves(body, loops, b0, b1);
      BranchLater(b1, merge, b1.cur);
      LaterTwice(b0, b1, b');
      SettledLater(AllPoints(body, loops, b0), b1, b');
    case Guard(cond, body, rest) =>
      var b1 := GuardEntry(b0, cond, rest, merge);
      var b2 := GenStmts(body, loops, b1).value;
      var b3 := GuardDone(b0, b2, rest, merge);
      GuardEntryLater(b0, cond, rest, merge);
      StmtsSettle(body, loops, b1, b2);
      GuardDoneLater(body, rest, merge, loops, b0, b1, b2);
      GuardsSettle(rest, merge, loops, b3, b');
      LaterTwice(b2, b3, b');
      LaterTwice(b1, b2, b');
      LaterTwice(b0, b1, b');
      SettledLater(AllPoints(body, loops, b1), b2, b');
  }

  lemma GuardEntryLater(b0: BuildState, cond: Expr, rest: Guards, merge: BlockId)
    requires Good(b0) && merge in b0.region
    ensures var b1 := GuardEntry(b0, cond, rest, merge);
            Good(b1) && Later(b0, b1) && merge in b1.region && (!rest.NoElse? ==> b0.free + 1 in b1.region)
  {
    GuardEntryEvolves(b0, cond, rest, merge, {});
    EvolvesLater(b0, GuardEntry(b0, cond, rest, merge), {});
  }

  lemma GuardDoneLater(body: Stmts, rest: Guards, merge: BlockId, loops: Loops, b0: BuildState, b1: BuildState,
                       b2: BuildState)
    requires Good(b1) && GenStmts(body, loops, b1) == Some(b2) && merge in b1.region
    requires !rest.NoElse? ==> b0.free + 1 in b1.region
    ensures var b3 := GuardDone(b0, b2, rest, merge); Good(b3) && Later(b2, b3) && merge in b3.region
  {
    var ls, next := PlacedInAll(body), if rest.NoElse? then merge else b0.free + 1;
    GenStmtsEvolves(body, loops, b1, b2);
    assert Kept(b1, b2, ls, merge) && Kept(b1, b2, ls, next);
    BranchLater(b2, merge, next);
  }

  /** How the emission of a loop starts: at the end, `merge` is still to come. */
  ghost predicate LoopStart(b0: BuildState, b1: BuildState) {
    && Good(b0) && Good(b1) && Later(b0, b1) && b1.labels == b0.labels && b0.free in b1.region && b0.free < b1.free
    && b1.region[b0.free] == EMPTY && b1.cur != b0.free
  }

  lemma WhileEntryLater(b0: BuildState, cond: Expr)
    requires Good(b0)
    ensures LoopStart(b0, WhileEntry(b0, cond))
  {
    WhileBlocks(b0, cond);
    WhileEntryEvolves(b0, cond, {});
    EvolvesLater(b0, WhileEntry(b0, cond), {});
  }

  lemma LoopEntryLater(b0: BuildState)
    requires Good(b0)
    ensures LoopStart(b0, LoopEntered(b0))
  {
    LoopBlocks(b0);
    LoopEntryEvolves(b0, {});
    EvolvesLater(b0, LoopEntered(b0), {});
  }

  lemma ForEntryLater(b0: BuildState, x: Param, ty: ParamType, low: Expr, high: Expr, rev: bool)
    requires Good(b0)
    ensures LoopStart(b0, ForEntry(b0, x, ty, low, high, rev))
  {
    ForBlocks(b0, x, ty, low, high, rev);
    ForEntryEvolves(b0, x, ty, low, high, rev, {});
    EvolvesLater(b0, ForEntry(b0, x, ty, low, high, rev), {});
  }

  lemma {:induction false} WhileSettles(stmt: Stmt, loops: Loops, b0: BuildState, b': BuildState)
    requires Good(b0) && stmt.While? && Gen(stmt, loops, b0) == Some(b')
    ensures Later(b0, b') && AllSettled(Inside(stmt, loops, b0), b')
    decreases stmt, 0
  {
    WhileEntryLater(b0, stmt.cond);
    BodySettlesIn(stmt.body, loops + [LoopEntry(b0.free, stmt.name)], b0, WhileEntry(b0, stmt.cond), b0.free + 2, b');
  }

  lemma {:induction false} LoopSettles(stmt: Stmt, loops: Loops, b0: BuildState, b': BuildState)
    requires Good(b0) && stmt.Loop? && Gen(stmt, loops, b0) == Some(b')
    ensures Later(b0, b') && AllSettled(Inside(stmt, loops, b0), b')
    decreases stmt, 0
  {
    LoopEntryLater(b0);
    BodySettlesIn(stmt.body, loops + [LoopEntry(b0.free, stmt.name)], b0, LoopEntered(b0), b0.free + 1, b');
  }

  /** The body of a while loop or a bare loop, and the end of the loop. */
  lemma {:induction false} BodySettlesIn(body: Stmts, inner: Loops, b0: BuildState, b1: BuildState, header: BlockId,
                                         b': BuildState)
    requires LoopStart(b0, b1) && GenStmts(body, inner, b1).Some?
    requires b' == GenStmts(body, inner, b1).value.BranchIfOpen(header).Join(b0.free, b0.free + 1)
    ensures Later(b0, b') && AllSettled(AllPoints(body, inner, b1), b')
    decreases body, 1
  {
    var b2 := GenStmts(body, inner, b1).value;
    var b3 := b2.BranchIfOpen(header);
    StmtsSettle(body, inner, b1, b2);
    GenStmtsEvolves(body, inner, b1, b2);
    MergeStaysEmpty(body, inner, b0, b1, b2, b0.free, header);
    BranchLater(b2, header, b2.cur);
    assert b3.MoveTo(b2.cur) == b3;
    JoinLater(b3, b0.free, b0.free + 1);
    LaterTwice(b2, b3, b');
    LaterTwice(b1, b2, b');
    LaterTwice(b0, b1, b');
    SettledLater(AllPoints(body, inner, b1), b2, b');
  }

  lemma {:induction false} ForSettles(stmt: Stmt, loops: Loops, b0: BuildState, b': BuildState)
    requires Good(b0) && stmt.For? && Gen(stmt, loops, b0) == Some(b')
    ensures Later(b0, b') && AllSettled(Inside(stmt, loops, b0), b')
    decreases stmt, 0
  {
    var inner, b1 := loops + [LoopEntry(b0.free, stmt.name)], ForStart(b0, stmt);
    var b2 := GenStmts(stmt.body, inner, b1).value;
    ForEntryLater(b0, stmt.param, stmt.ty, stmt.low, stmt.high, stmt.reverse);
    StmtsSettle(stmt.body, inner, b1, b2);
    ForEndLater(stmt, loops, b0, b2, b');
    LaterTwice(b1, b2, b');
    LaterTwice(b0, b1, b');
    SettledLater(AllPoints(stmt.body, inner, b1), b2, b');
  }

  function ForStart(b0: BuildState, stmt: Stmt): BuildState
    requires stmt.For?
  {
    ForEntry(b0, stmt.param, stmt.ty, stmt.low, stmt.high, stmt.reverse)
  }

  lemma ForEndLater(stmt: Stmt, loops: Loops, b0: BuildState, b2: BuildState, b': BuildState)
    requires Good(b0) && stmt.For? && Gen(stmt, loops, b0) == Some(b')
    requires GenStmts(stmt.body, loops + [LoopEntry(b0.free, stmt.name)], ForStart(b0, stmt)) == Some(b2)
    ensures Later(b2, b') && b'.HasPredecessor(b0.free) && (b'.HasPredecessor(b0.free + 1) || Gone(b', b0.free + 1))
  {
    var b1 := ForStart(b0, stmt);
    ForEntryLater(b0, stmt.param, stmt.ty, stmt.low, stmt.high, stmt.reverse);
    ForBodyWithin(stmt, loops, b0, b1, b2, b', b0.free, b0.free + 1);
    ForBodyKeeps(stmt, loops, b0, b2);
    StepStays(stmt, b1, b2, b', b0.free);
  }

  lemma ForBodyKeeps(stmt: Stmt, loops: Loops, b0: BuildState, b2: BuildState)
    requires Good(b0) && stmt.For?
    requires GenStmts(stmt.body, loops + [LoopEntry(b0.free, stmt.name)], ForStart(b0, stmt)) == Some(b2)
    ensures var b1 := ForStart(b0, stmt);
            && b1.free == b0.free + 4 && b1.cur == b0.free + 2 && Good(b2) && b1.free <= b2.free
            && b0.free in b2.region && b0.free + 1 in b2.region
  {
    var b1 := ForStart(b0, stmt);
    ForEntryEvolves(b0, stmt.param, stmt.ty, stmt.low, stmt.high, stmt.reverse, {});
    GenStmtsEvolves(stmt.body, loops + [LoopEntry(b0.free, stmt.name)], b1, b2);
    assert b0.free in b1.region && b0.free + 1 in b1.region;
    assert Kept(b1, b2, PlacedInAll(stmt.body), b0.free) && Kept(b1, b2, PlacedInAll(stmt.body), b0.free + 1);
  }

  /** The step of a for loop is used, or dropped, as the end of its body is open or not. */
  lemma StepStays(stmt: Stmt, b1: BuildState, b2: BuildState, b': BuildState, merge: BlockId)
    requires stmt.For? && Good(b2) && b1.free <= b2.free && merge + 1 < b1.free
    requires merge in b2.region && merge + 1 in b2.region && Within(b2, b')
    requires b' == ForEnd(b2, stmt.param, stmt.ty, stmt.reverse, merge, merge + 1, b1.cur)
    requires !b2.Terminated() ==>
      && b2.cur in b'.region
      && b'.region[b2.cur].code == b2.Code() + [ICondBr(AtLast(stmt.param, stmt.reverse), merge, merge + 1)]
    ensures Later(b2, b') && (b'.HasPredecessor(merge + 1) || Gone(b', merge + 1))
  {
    if !b2.Terminated() { assert Targets(b'.region[b2.cur].code[|b2.Code()|], merge + 1); }
  }

  // ---------------------------------------------------- gotos and their labels

  ghost predicate Places(points: set<Point>, l: Label) { exists q :: q in points && q.stmt == Labelled(l) }

  /** A label whose place has been reached is that of a point. */
  lemma {:induction false} StmtPlaces(stmt: Stmt, loops: Loops, b0: BuildState, b': BuildState, l: Label)
    requires Gen(stmt, loops, b0) == Some(b') && l in b'.placed && l !in b0.placed
    ensures Places(Points(stmt, loops, b0), l)
    decreases stmt, 1
  {
    if stmt.Labelled? { assert Point(stmt, loops, b0) in Points(stmt, loops, b0); }
    else { PlacesInside(stmt, loops, b0, b', l); }
  }

  lemma {:induction false} PlacesInside(stmt: Stmt, loops: Loops, b0: BuildState, b': BuildState, l: Label)
    requires !stmt.Labelled? && Gen(stmt, loops, b0) == Some(b') && l in b'.placed && l !in b0.placed
    ensures Places(Inside(stmt, loops, b0), l)
    decreases stmt, 0
  {
    match stmt
    case If(guards) =>
      var b := b0.Create(None);
      GuardsPlace(guards, b0.free, loops, b, GenGuards(guards, b0.free, loops, b).value, l);
    case While(name, cond, body) => BodyPlaces(body, loops + [LoopEntry(b0.free, name)], WhileEntry(b0, cond), l);
    case Loop(name, body) => BodyPlaces(body, loops + [LoopEntry(b0.free, name)], LoopEntered(b0), l);
    case For(name, x, ty, low, high, rev, body) =>
      BodyPlaces(body, loops + [LoopEntry(b0.free, name)], ForEntry(b0, x, ty, low, high, rev), l);
    case Block(body) => BodyPlaces(body, loops, b0, l);
    case _ =>
  }

  lemma {:induction false} BodyPlaces(body: Stmts, inner: Loops, b1: BuildState, l: Label)
    requires GenStmts(body, inner, b1).Some? && l in GenStmts(body, inner, b1).value.placed && l !in b1.placed
    ensures Places(AllPoints(body, inner, b1), l)
    decreases body, 1
  {
    StmtsPlace(body, inner, b1, GenStmts(body, inner, b1).value, l);
  }

  lemma {:induction false} StmtsPlace(list: Stmts, loops: Loops, b0: BuildState, b': BuildState, l: Label)
    requires GenStmts(list, loops, b0) == Some(b') && l in b'.placed && l !in b0.placed
    ensures Places(AllPoints(list, loops, b0), l)
    decreases list, 0
  {
    if list.Cons? {
      if b0.Terminated() && !list.head.Labelled? {
        StmtsPlace(list.tail, loops, b0, b', l);
      } else {
        var b1 := Gen(list.head, loops, b0).value;
        if l in b1.placed { StmtPlaces(list.head, loops, b0, b1, l); } else { StmtsPlace(list.tail, loops, b1, b', l); }
      }
    }
  }

  lemma {:induction false} GuardsPlace(guards: Guards, merge: BlockId, loops: Loops, b0: BuildState, b': BuildState,
                                       l: Label)
    requires GenGuards(guards, merge, loops, b0) == Some(b') && l in b'.placed && l !in b0.placed
    ensures Places(GuardPoints(guards, merge, loops, b0), l)
    decreases guards, 0
  {
    match guards
    case NoElse =>
    case Else(body) => StmtsPlace(body, loops, b0, GenStmts(body, loops, b0).value, l);
    case Guard(cond, body, rest) =>
      var b1 := GuardEntry(b0, cond, rest, merge);
      var b2 := GenStmts(body, loops, b1).value;
      if l in b2.placed { StmtsPlace(body, loops, b1, b2, l); }
      else { GuardsPlace(rest, merge, loops, GuardDone(b0, b2, rest, merge), b', l); }
  }

  // ------------------------------------------------------------- whole bodies

  ghost function BodyPoints(body: Stmts): set<Point> { AllPoints(body, [], START) }

  lemma BodySettles(body: Stmts, isProc: bool, b: BuildState)
    requires GenBody(body, isProc) == Some(b)
    ensures AllSettled(BodyPoints(body), b)
  {
    var b1 := GenStmts(body, [], START).value;
    StmtsSettle(body, [], START, b1);
    GenStmtsEvolves(body, [], START, b1);
    Same(b1, {});
    Emits(b1, b1, {}, IReturn(None));
    if b != b1 { EvolvesLater(b1, b, {}); }
    SettledLater(BodyPoints(body), b1, b);
  }

  /** Every goto that is emitted finds its label, and its branch, in the finished
    * graph, leads to the block in which emission resumed there. */
  lemma GotoMeetsLabel(body: Stmts, isProc: bool, b: BuildState, p: Point)
    requires GotosObeyAll(body, OwnLabels(body)) && GenBody(body, isProc) == Some(b)
    requires p in BodyPoints(body) && p.stmt.Goto?
    ensures Places(BodyPoints(body), p.stmt.at)
    ensures forall q :: q in BodyPoints(body) && q.stmt == Labelled(p.stmt.at) ==>
      && p.before.cur in b.region && |p.before.Code()| < |b.region[p.before.cur].code|
      && b.region[p.before.cur].code[|p.before.Code()|] == IBr(Gen(q.stmt, q.loops, q.before).value.cur, None)
  {
    BodySettles(body, isProc, b);
    GotoStays(p, b);
    LabelsPlaced(body, isProc, b);
    StmtsPlace(body, [], START, GenStmts(body, [], START).value, p.stmt.at);
    forall q | q in BodyPoints(body) && q.stmt == Labelled(p.stmt.at)
      ensures Gen(q.stmt, q.loops, q.before).value.cur == b.labels[p.stmt.at]
    {
      assert Settled(q, b) && LabelWithin(Gen(q.stmt, q.loops, q.before).value, b, p.stmt.at);
    }
  }

  lemma GotoStays(p: Point, b: BuildState)
    requires Settled(p, b) && p.stmt.Goto?
    ensures p.stmt.at in b.labels && p.before.cur in b.region
    ensures |p.before.Code()| < |b.region[p.before.cur].code|
    ensures b.region[p.before.cur].code[|p.before.Code()|] == IBr(b.labels[p.stmt.at], None)
  {
    var a, l := Gen(p.stmt, p.loops, p.before).value, p.stmt.at;
    assert BlockOk(p.before, p.before.cur);
    assert LabelWithin(a, b, l) && BlockWithin(a, b, p.before.cur);
    assert a.Code() == p.before.Code() + [IBr(a.labels[l], None)];
    assert b.region[p.before.cur].code[|p.before.Code()|] == a.Code()[|p.before.Code()|];
  }

  predicate LeadsThere(i: Instr, e: BlockId) {
    (i.IBr? && i.dest == e) || (i.ICondBr? && (i.onTrue == e || i.onFalse == e))
  }

  /** Some branch of the graph leads to the block `e`. */
  ghost predicate LedTo(g: Region, e: BlockId) {
    exists p, k :: p in g && 0 <= k < |g[p].code| && LeadsThere(g[p].code[k], e)
  }

  lemma LedToIs(b: BuildState, e: BlockId)
    ensures LedTo(b.region, e) <==> b.HasPredecessor(e)
  {
    forall i: Instr ensures LeadsThere(i, e) <==> Targets(i, e) {}
  }

  /** The block after an if statement or a loop, and the step of a for loop, are in the
    * finished graph exactly when something leads there. */
  lemma KeptIfTargeted(body: Stmts, isProc: bool, b: BuildState, p: Point)
    requires GotosObeyAll(body, OwnLabels(body)) && GenBody(body, isProc) == Some(b)
    requires p in BodyPoints(body) && (p.stmt.If? || p.stmt.While? || p.stmt.Loop? || p.stmt.For?)
    ensures p.before.free in b.region <==> LedTo(b.region, p.before.free)
    ensures p.stmt.For? ==> (p.before.free + 1 in b.region <==> LedTo(b.region, p.before.free + 1))
  {
    LedToIs(b, p.before.free);
    LedToIs(b, p.before.free + 1);
    BodyShape(body, isProc, b);
    BodySettles(body, isProc, b);
    DroppedOrTargeted(p);
    var a := Gen(p.stmt, p.loops, p.before).value;
    TargetStays(a, b, isProc, p.before.free);
    if p.stmt.For? { TargetStays(a, b, isProc, p.before.free + 1); }
  }

  lemma TargetStays(a: BuildState, b: BuildState, isProc: bool, e: BlockId)
    requires Later(a, b) && WellFormed(b, isProc) && DroppedOr(a, e)
    ensures e in b.region <==> b.HasPredecessor(e)
  {
    if b.HasPredecessor(e) { TargetPresent(b, isProc, e); }
    if a.HasPredecessor(e) { PredecessorStays(a, b, e); }
  }

  lemma TargetPresent(b: BuildState, isProc: bool, e: BlockId)
    requires WellFormed(b, isProc) && b.HasPredecessor(e)
    ensures e in b.region
  {
    var i :| i in b.region && exists k :: 0 <= k < |b.region[i].code| && Targets(b.region[i].code[k], e);
    var k :| 0 <= k < |b.region[i].code| && Targets(b.region[i].code[k], e);
    assert TargetsOk(b.region[i].code[k], b.region.Keys, {});
  }

  /** Something leads to the block `e`, or it was dropped. */
  ghost predicate DroppedOr(b: BuildState, e: BlockId) { b.HasPredecessor(e) || Gone(b, e) }

  /** So it is right after each statement, for the blocks it continues in. */
  lemma DroppedOrTargeted(p: Point)
    requires Good(p.before) && Gen(p.stmt, p.loops, p.before).Some?
    requires p.stmt.If? || p.stmt.While? || p.stmt.Loop? || p.stmt.For?
    ensures DroppedOr(Gen(p.stmt, p.loops, p.before).value, p.before.free)
    ensures p.stmt.For? ==> DroppedOr(Gen(p.stmt, p.loops, p.before).value, p.before.free + 1)
  {
    var a := Gen(p.stmt, p.loops, p.before).value;
    match p.stmt
    case If(_) => IfDrops(p.stmt, p.loops, p.before, a);
    case While(_, _, _) => WhileDrops(p.stmt, p.loops, p.before, a);
    case Loop(_, _) => BareLoopDrops(p.stmt, p.loops, p.before, a);
    case For(_, _, _, _, _, _, _) => ForDrops(p.stmt, p.loops, p.before, a);
  }

  lemma IfDrops(stmt: Stmt, loops: Loops, b0: BuildState, b': BuildState)
    requires Good(b0) && stmt.If? && Gen(stmt, loops, b0) == Some(b')
    ensures DroppedOr(b', b0.free)
  {
    var b1 := GenGuards(stmt.guards, b0.free, loops, b0.Create(None)).value;
    IfMergeEmpty(stmt.guards, loops, b0, b1);
    JoinDrops(b1, b0.free, b0.cur);
  }

  lemma WhileDrops(stmt: Stmt, loops: Loops, b0: BuildState, b': BuildState)
    requires Good(b0) && stmt.While? && Gen(stmt, loops, b0) == Some(b')
    ensures DroppedOr(b', b0.free)
  {
    WhileEntryLater(b0, stmt.cond);
    LoopDrops(stmt.body, loops + [LoopEntry(b0.free, stmt.name)], WhileEntry(b0, stmt.cond), b0.free, b0.free + 2);
  }

  lemma BareLoopDrops(stmt: Stmt, loops: Loops, b0: BuildState, b': BuildState)
    requires Good(b0) && stmt.Loop? && Gen(stmt, loops, b0) == Some(b')
    ensures DroppedOr(b', b0.free)
  {
    LoopEntryLater(b0);
    LoopDrops(stmt.body, loops + [LoopEntry(b0.free, stmt.name)], LoopEntered(b0), b0.free, b0.free + 1);
  }

  lemma ForDrops(stmt: Stmt, loops: Loops, b0: BuildState, b': BuildState)
    requires Good(b0) && stmt.For? && Gen(stmt, loops, b0) == Some(b')
    ensures DroppedOr(b', b0.free) && DroppedOr(b', b0.free + 1)
  {
    ForEndLater(stmt, loops, b0, GenStmts(stmt.body, loops + [LoopEntry(b0.free, stmt.name)], ForStart(b0, stmt)).value,
                b');
  }

  lemma JoinDrops(b: BuildState, merge: BlockId, terminated: BlockId)
    requires merge < b.free
    ensures DroppedOr(b.Join(merge, terminated), merge)
  {
    var b' := b.Join(merge, terminated);
    if b.HasPredecessor(merge) { assert b'.HasPredecessor(merge) <==> b.HasPredecessor(merge); }
  }

  lemma LoopDrops(body: Stmts, inner: Loops, b1: BuildState, merge: BlockId, header: BlockId)
    requires Good(b1) && merge < b1.free && GenStmts(body, inner, b1).Some?
    ensures DroppedOr(GenStmts(body, inner, b1).value.BranchIfOpen(header).Join(merge, merge + 1), merge)
  {
    GenStmtsEvolves(body, inner, b1, GenStmts(body, inner, b1).value);
    JoinDrops(GenStmts(body, inner, b1).value.BranchIfOpen(header), merge, merge + 1);
  }
}
