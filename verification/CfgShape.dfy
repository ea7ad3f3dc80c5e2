/** Every graph the builder makes is well formed: `BodyShape`. */
module CfgShape {
  import opened Options
  import opened Statements
  import opened Cfg
  import opened CfgGrowth
  import opened CfgSimulation
  import opened CfgMeaning
  import opened CfgBody

  predicate Ends(code: seq<Instr>) { code != [] && IsTerminator(code[|code| - 1]) }

  /** No terminator before the last instruction. */
  predicate Straight(code: seq<Instr>) { forall k :: 0 <= k < |code| - 1 ==> !IsTerminator(code[k]) }

  /** The blocks `i` leads to are in `keys`, and none of them is in `quiet`. */
  predicate TargetsOk(i: Instr, keys: set<BlockId>, quiet: set<BlockId>) {
    match i
    case IBr(dest, _) => dest in keys && dest !in quiet
    case ICondBr(_, t, f) => t in keys && f in keys && t !in quiet && f !in quiet
    case _ => true
  }

  // -------------------------------------------------- while emission goes on

  /** A block created for a label whose place has not been reached. */
  ghost predicate Pending(b: BuildState, i: BlockId) {
    exists l :: l in b.labels && b.labels[l] == i && l !in b.placed
  }

  /** A block without its terminator is the insertion point, waits for a label,
    * or is one of `open`, where enclosing statements continue. */
  ghost predicate BlockShape(b: BuildState, open: set<BlockId>, i: BlockId) {
    i in b.region ==>
      Straight(b.region[i].code) && (Ends(b.region[i].code) || i == b.cur || i in open || Pending(b, i))
  }

  ghost predicate AimsOk(b: BuildState, quiet: set<BlockId>, i: BlockId) {
    i in b.region ==> forall k :: 0 <= k < |b.region[i].code| ==> TargetsOk(b.region[i].code[k], b.region.Keys, quiet)
  }

  ghost predicate LabelShape(b: BuildState, quiet: set<BlockId>, l: Label) {
    && (l in b.labels ==> b.labels[l] in b.region && b.labels[l] !in quiet)
    && (l in b.placed ==> l in b.labels)
  }

  /** The shape of an unfinished graph, where nothing leads to the blocks `quiet`. */
  ghost predicate Shape(b: BuildState, open: set<BlockId>, quiet: set<BlockId>) {
    && b.cur in b.region && (forall t :: t in quiet ==> t < b.free)
    && (forall i {:trigger BlockOk(b, i)} :: BlockOk(b, i))
    && (forall i {:trigger BlockShape(b, open, i)} :: BlockShape(b, open, i))
    && (forall i {:trigger AimsOk(b, quiet, i)} :: AimsOk(b, quiet, i))
    && (forall l {:trigger LabelShape(b, quiet, l)} :: LabelShape(b, quiet, l))
  }

  lemma ShapeCreate(b: BuildState, open: set<BlockId>, quiet: set<BlockId>, arg: Option<Param>)
    requires Shape(b, open, quiet)
    ensures Shape(b.Create(arg), open + {b.free}, quiet)
  {
    var b' := b.Create(arg);
    forall i ensures BlockOk(b', i) && BlockShape(b', open + {b.free}, i) && AimsOk(b', quiet, i) {
      assert BlockOk(b, i) && BlockShape(b, open, i) && AimsOk(b, quiet, i);
      if i in b.region && Pending(b, i) { assert Pending(b', i); }
    }
    forall l ensures LabelShape(b', quiet, l) { assert LabelShape(b, quiet, l); }
  }

  /** A new block that nothing leads to yet. */
  lemma ShapeCreateQuiet(b: BuildState, open: set<BlockId>, quiet: set<BlockId>, arg: Option<Param>)
    requires Shape(b, open, quiet)
    ensures Shape(b.Create(arg), open + {b.free}, quiet + {b.free})
  {
    ShapeCreate(b, open, quiet, arg);
    var b' := b.Create(arg);
    forall i ensures AimsOk(b', quiet + {b.free}, i) { assert AimsOk(b, quiet, i) && BlockOk(b, b.free); }
    forall l ensures LabelShape(b', quiet + {b.free}, l) { assert LabelShape(b, quiet, l) && BlockOk(b, b.free); }
  }

  lemma ShapeEmit(b: BuildState, open: set<BlockId>, quiet: set<BlockId>, code: seq<Instr>)
    requires Shape(b, open, quiet) && !b.Terminated() && Straight(code)
    requires forall k :: 0 <= k < |code| ==> TargetsOk(code[k], b.region.Keys, quiet)
    ensures Shape(b.EmitAll(code), open, quiet)
  {
    var b' := b.EmitAll(code);
    assert b'.region.Keys == b.region.Keys;
    forall i ensures BlockOk(b', i) && BlockShape(b', open, i) && AimsOk(b', quiet, i) {
      assert BlockOk(b, i) && BlockShape(b, open, i) && AimsOk(b, quiet, i);
      if i in b.region && Pending(b, i) { assert Pending(b', i); }
    }
    forall l ensures LabelShape(b', quiet, l) { assert LabelShape(b, quiet, l); }
  }

  /** The insertion point may move on when its block has ended. */
  lemma ShapeMove(b: BuildState, open: set<BlockId>, quiet: set<BlockId>, to: BlockId)
    requires Shape(b, open + {to}, quiet) && to in b.region && (Ends(b.Code()) || b.cur in open)
    ensures Shape(b.MoveTo(to), open, quiet)
  {
    var b' := b.MoveTo(to);
    forall i ensures BlockOk(b', i) && BlockShape(b', open, i) && AimsOk(b', quiet, i) {
      assert BlockOk(b, i) && BlockShape(b, open + {to}, i) && AimsOk(b, quiet, i);
      if i in b.region && Pending(b, i) { assert Pending(b', i); }
    }
    forall l ensures LabelShape(b', quiet, l) { assert LabelShape(b, quiet, l); }
  }

  /** A block that nothing leads to can go. */
  lemma ShapeErase(b: BuildState, open: set<BlockId>, quiet: set<BlockId>, e: BlockId)
    requires Shape(b, open + {e}, quiet) && e != b.cur && !b.HasPredecessor(e)
    requires forall l :: l in b.labels ==> b.labels[l] != e
    ensures Shape(b.Erase(e), open, quiet)
  {
    var b' := b.Erase(e);
    forall i ensures BlockOk(b', i) && BlockShape(b', open, i) && AimsOk(b', quiet, i) {
      assert BlockOk(b, i) && BlockShape(b, open + {e}, i) && AimsOk(b, quiet, i);
      if i in b.region && Pending(b, i) { assert Pending(b', i); }
      if i in b'.region {
        forall k | 0 <= k < |b.region[i].code| ensures TargetsOk(b.region[i].code[k], b'.region.Keys, quiet) {
          assert Targets(b.region[i].code[k], e) ==> b.HasPredecessor(e);
        }
      }
    }
    forall l ensures LabelShape(b', quiet, l) { assert LabelShape(b, quiet, l); }
  }

  lemma ShapeLabel(b: BuildState, open: set<BlockId>, quiet: set<BlockId>, l: Label)
    requires Shape(b, open, quiet)
    ensures Shape(b.WithLabel(l), open, quiet) && l in b.WithLabel(l).labels
  {
    if l !in b.labels {
      var b' := b.WithLabel(l);
      assert LabelShape(b, quiet, l);
      forall i ensures BlockOk(b', i) && BlockShape(b', open, i) && AimsOk(b', quiet, i) {
        assert BlockOk(b, i) && BlockShape(b, open, i) && AimsOk(b, quiet, i);
        if i in b.region && Pending(b, i) {
          var k :| k in b.labels && b.labels[k] == i && k !in b.placed;
          assert k in b'.labels && b'.labels[k] == i;
        }
        assert b'.labels[l] == b.free && (l !in b.placed ==> Pending(b', b.free));
      }
      forall k ensures LabelShape(b', quiet, k) { assert LabelShape(b, quiet, k); }
    }
  }

  /** The place of a label is reached: its block is the insertion point. */
  lemma ShapePlace(b: BuildState, open: set<BlockId>, quiet: set<BlockId>, l: Label)
    requires Shape(b, open, quiet) && l in b.labels && b.cur == b.labels[l]
    ensures Shape(b.(placed := b.placed + [l]), open, quiet)
  {
    var b' := b.(placed := b.placed + [l]);
    forall i ensures BlockOk(b', i) && BlockShape(b', open, i) && AimsOk(b', quiet, i) {
      assert BlockOk(b, i) && BlockShape(b, open, i) && AimsOk(b, quiet, i);
      if i in b.region && Pending(b, i) {
        var k :| k in b.labels && b.labels[k] == i && k !in b.placed;
        assert k != l ==> Pending(b', i);
      }
    }
    forall k ensures LabelShape(b', quiet, k) { assert LabelShape(b, quiet, k); }
  }

  lemma ShapeWeakens(b: BuildState, open: set<BlockId>, quiet: set<BlockId>, open': set<BlockId>, quiet': set<BlockId>)
    requires Shape(b, open, quiet) && open <= open' && quiet' <= quiet
    ensures Shape(b, open', quiet')
  {
    forall i
      ensures BlockShape(b, open', i) && AimsOk(b, quiet', i)
    {
      assert BlockShape(b, open, i) && AimsOk(b, quiet, i);
    }
    forall l ensures LabelShape(b, quiet', l) { assert LabelShape(b, quiet, l); }
  }

  lemma ShapeBranch(b: BuildState, open: set<BlockId>, quiet: set<BlockId>, dest: BlockId)
    requires Shape(b, open, quiet) && dest in b.region && dest !in quiet
    ensures Shape(b.BranchIfOpen(dest), open, quiet) && Ends(b.BranchIfOpen(dest).Code())
  {
    if !b.Terminated() { ShapeEmit(b, open, quiet, [IBr(dest, None)]); }
  }

  /** Emit a terminator, and continue elsewhere. */
  lemma ShapeEnd(b: BuildState, open: set<BlockId>, quiet: set<BlockId>, code: seq<Instr>, to: BlockId)
    requires Shape(b, open + {to}, quiet) && !b.Terminated() && Straight(code) && Ends(code) && to in b.region
    requires forall k :: 0 <= k < |code| ==> TargetsOk(code[k], b.region.Keys, quiet)
    ensures Shape(b.EmitAll(code).MoveTo(to), open, quiet)
  {
    ShapeEmit(b, open + {to}, quiet, code);
    ShapeMove(b.EmitAll(code), open, quiet, to);
  }

  lemma ShapeJoin(b: BuildState, open: set<BlockId>, quiet: set<BlockId>, merge: BlockId, terminated: BlockId)
    requires Shape(b.MoveTo(merge), open, quiet) && terminated in b.region && terminated != merge
    requires forall l :: l in b.labels ==> b.labels[l] != merge
    ensures Shape(b.Join(merge, terminated), open, quiet)
  {
    if !b.HasPredecessor(merge) {
      var m, t := b.MoveTo(merge), b.MoveTo(terminated);
      ShapeWeakens(m, open, quiet, open + {merge} + {terminated}, quiet);
      ShapeMove(m, open + {merge}, quiet, terminated);
      assert m.MoveTo(terminated) == t;
      assert !t.HasPredecessor(merge);
      ShapeErase(t, open, quiet, merge);
      assert t.Erase(merge) == b.Join(merge, terminated);
    }
  }

  // -------------------------------------------------------- every statement

  ghost predicate LoopsOk(loops: Loops, b: BuildState, quiet: set<BlockId>) {
    forall k :: 0 <= k < |loops| ==> loops[k].merge in b.region && loops[k].merge !in quiet
  }

  lemma LoopsStayOk(loops: Loops, b0: BuildState, b1: BuildState, quiet: set<BlockId>, ls: set<Label>)
    requires LoopsOk(loops, b0, quiet) && Evolves(b0, b1, ls)
    ensures LoopsOk(loops, b1, quiet)
  {
    forall k | 0 <= k < |loops| ensures loops[k].merge in b1.region { assert Kept(b0, b1, ls, loops[k].merge); }
  }

  lemma {:induction false} ExitTargetOk(loops: Loops, name: LoopName, b: BuildState, quiet: set<BlockId>)
    requires LoopsOk(loops, b, quiet) && ExitTarget(loops, name).Some?
    ensures ExitTarget(loops, name).value in b.region && ExitTarget(loops, name).value !in quiet
  {
    if !Catches(loops[|loops| - 1].name, name) { ExitTargetOk(loops[..|loops| - 1], name, b, quiet); }
  }

  lemma {:induction false} GenShape(stmt: Stmt, loops: Loops, b0: BuildState, b': BuildState, open: set<BlockId>,
                                    quiet: set<BlockId>)
    requires Good(b0) && Shape(b0, open, quiet) && LoopsOk(loops, b0, quiet) && (!b0.Terminated() || stmt.Labelled?)
    requires Gen(stmt, loops, b0) == Some(b')
    ensures Shape(b', open, quiet)
    decreases stmt, 1
  {
    match stmt
    case If(_) => IfShape(stmt, loops, b0, b', open, quiet);
    case While(_, _, _) => WhileShape(stmt, loops, b0, b', open, quiet);
    case Loop(_, _) => LoopShape(stmt, loops, b0, b', open, quiet);
    case For(_, _, _, _, _, _, _) => ForShape(stmt, loops, b0, b', open, quiet);
    case Block(body) => GenStmtsShape(body, loops, b0, b', open, quiet);
    case Labelled(l) => PlacedShape(l, loops, b0, b', open, quiet);
    case _ => SimpleShape(stmt, loops, b0, b', open, quiet);
  }

  lemma SimpleShape(stmt: Stmt, loops: Loops, b0: BuildState, b': BuildState, open: set<BlockId>, quiet: set<BlockId>)
    requires Good(b0) && Shape(b0, open, quiet) && LoopsOk(loops, b0, quiet) && !b0.Terminated()
    requires stmt.Null? || stmt.Assign? || stmt.Return? || stmt.Exit? || stmt.Goto?
    requires Gen(stmt, loops, b0) == Some(b')
    ensures Shape(b', open, quiet)
  {
    match stmt
    case Null => ShapeEmit(b0, open, quiet, [INull]);
    case Assign(x, e) => ShapeEmit(b0, open, quiet, [IAssign(x, e)]);
    case Return(value) => ShapeEmit(b0, open, quiet, [IReturn(value)]);
    case Exit(name, when) =>
      ExitTargetOk(loops, name, b0, quiet);
      var dest := ExitTarget(loops, name).value;
      if when.None? {
        ShapeEmit(b0, open, quiet, [IBr(dest, None)]);
      } else {
        ShapeCreate(b0, open, quiet, None);
        assert BlockOk(b0, b0.cur);
        ShapeEnd(b0.Create(None), open, quiet, [ICondBr(Test(when.value), dest, b0.free)], b0.free);
      }
    case Goto(l) =>
      var b := b0.WithLabel(l);
      ShapeLabel(b0, open, quiet, l);
      assert LabelShape(b, quiet, l) && BlockOk(b0, b0.cur);
      ShapeEmit(b, open, quiet, [IBr(b.labels[l], None)]);
  }

  lemma PlacedShape(l: Label, loops: Loops, b0: BuildState, b': BuildState, open: set<BlockId>, quiet: set<BlockId>)
    requires Good(b0) && Shape(b0, open, quiet) && Gen(Labelled(l), loops, b0) == Some(b')
    ensures Shape(b', open, quiet)
  {
    var b := b0.WithLabel(l);
    ShapeLabel(b0, open, quiet, l);
    assert LabelShape(b, quiet, l);
    ShapeBranch(b, open, quiet, b.labels[l]);
    var b1 := b.BranchIfOpen(b.labels[l]);
    ShapeWeakens(b1, open, quiet, open + {b.labels[l]}, quiet);
    ShapeMove(b1, open, quiet, b.labels[l]);
    ShapePlace(b1.MoveTo(b.labels[l]), open, quiet, l);
  }

  lemma {:induction false} GenStmtsShape(list: Stmts, loops: Loops, b0: BuildState, b': BuildState, open: set<BlockId>,
                                         quiet: set<BlockId>)
    requires Good(b0) && Shape(b0, open, quiet) && LoopsOk(loops, b0, quiet) && GenStmts(list, loops, b0) == Some(b')
    ensures Shape(b', open, quiet)
    decreases list, 0
  {
    if list.Cons? {
      if b0.Terminated() && !list.head.Labelled? {
        GenStmtsShape(list.tail, loops, b0, b', open, quiet);
      } else {
        var b1 := Gen(list.head, loops, b0).value;
        GenShape(list.head, loops, b0, b1, open, quiet);
        GenEvolves(list.head, loops, b0, b1);
        LoopsStayOk(loops, b0, b1, quiet, PlacedIn(list.head));
        GenStmtsShape(list.tail, loops, b1, b', open, quiet);
      }
    }
  }

  lemma {:induction false} IfShape(stmt: Stmt, loops: Loops, b0: BuildState, b': BuildState, open: set<BlockId>,
                                   quiet: set<BlockId>)
    requires Good(b0) && Shape(b0, open, quiet) && LoopsOk(loops, b0, quiet) && !b0.Terminated()
    requires stmt.If? && Gen(stmt, loops, b0) == Some(b')
    ensures Shape(b', open, quiet)
    decreases stmt, 0
  {
    var merge, b := b0.free, b0.Create(None);
    var b1 := GenGuards(stmt.guards, merge, loops, b).value;
    assert Evolves(b0, b, {}) by { Same(b0, {}); Creates(b0, b0, {}, None); }
    NotALabelYet(b0, merge);
    ShapeCreate(b0, open, quiet, None);
    assert BlockOk(b0, b0.cur);
    GuardsShape(stmt.guards, merge, loops, b, b1, open, quiet);
    GenGuardsEvolves(stmt.guards, merge, loops, b, b1);
    NeverALabel(b, b1.MoveTo(b.cur), PlacedInGuards(stmt.guards), merge);
    assert Kept(b, b1.MoveTo(b.cur), PlacedInGuards(stmt.guards), b0.cur);
    ShapeJoin(b1, open, quiet, merge, b0.cur);
  }

  /** From the block of a test on: what guards leave open continues at `merge`. */
  lemma {:induction false} GuardsShape(guards: Guards, merge: BlockId, loops: Loops, b0: BuildState, b': BuildState,
                                       open: set<BlockId>, quiet: set<BlockId>)
    requires Good(b0) && Shape(b0, open + {merge}, quiet) && LoopsOk(loops, b0, quiet)
    requires merge in b0.region && merge !in quiet && forall l :: l in b0.labels ==> b0.labels[l] != merge
    requires if guards.NoElse? then b0.cur == merge else !b0.Terminated()
    requires GenGuards(guards, merge, loops, b0) == Some(b')
    ensures Shape(b'.MoveTo(merge), open, quiet)
    decreases guards, 0
  {
    match guards
    case NoElse => ShapeArrives(b0, open, quiet, merge);
    case Else(body) =>
      var b1 := GenStmts(body, loops, b0).value;
      GenStmtsShape(body, loops, b0, b1, open + {merge}, quiet);
      GenStmtsEvolves(body, loops, b0, b1);
      assert Kept(b0, b1, PlacedInAll(body), merge);
      CloseBranch(b1, open, quiet, merge, merge);
      assert b1.BranchIfOpen(merge).MoveTo(merge) == b'.MoveTo(merge);
    case Guard(cond, body, rest) =>
      var b1 := GuardEntry(b0, cond, rest, merge);
      var b2 := GenStmts(body, loops, b1).value;
      var else' := b0.free + 1;
      GuardTestShape(cond, body, rest, merge, loops, b0, open, quiet);
      if rest.NoElse? {
        assert open + {merge} + {} == open + {merge};
        CloseBranch(b2, open, quiet, merge, merge);
        assert b2.BranchIfOpen(merge).MoveTo(merge) == b'.MoveTo(merge);
      } else {
        GenStmtsEvolves(body, loops, b1, b2);
        GuardRestOk(b0, b1, b2, cond, rest, merge, loops, quiet, PlacedInAll(body));
        CloseBranch(b2, open + {merge}, quiet, merge, else');
        GuardsShape(rest, merge, loops, b2.BranchIfOpen(merge).MoveTo(else'), b', open, quiet);
      }
  }

  lemma {:induction false} GuardTestShape(cond: Expr, body: Stmts, rest: Guards, merge: BlockId, loops: Loops,
                                          b0: BuildState, open: set<BlockId>, quiet: set<BlockId>)
    requires Good(b0) && Shape(b0, open + {merge}, quiet) && LoopsOk(loops, b0, quiet) && !b0.Terminated()
    requires merge in b0.region && merge !in quiet && forall l :: l in b0.labels ==> b0.labels[l] != merge
    requires GenStmts(body, loops, GuardEntry(b0, cond, rest, merge)).Some?
    ensures var b1 := GuardEntry(b0, cond, rest, merge);
            var b2 := GenStmts(body, loops, b1).value;
            && Good(b1) && LoopsOk(loops, b1, quiet) && merge in b2.region
            && Shape(b2, open + {merge} + (if rest.NoElse? then {} else {b0.free + 1}), quiet)
    decreases body, 1
  {
    var b1 := GuardEntry(b0, cond, rest, merge);
    var b2 := GenStmts(body, loops, b1).value;
    GuardEntryShape(b0, cond, rest, merge, loops, open, quiet);
    GenStmtsShape(body, loops, b1, b2, open + {merge} + (if rest.NoElse? then {} else {b0.free + 1}), quiet);
    GenStmtsEvolves(body, loops, b1, b2);
    assert Kept(b1, b2, PlacedInAll(body), merge);
  }

  lemma ShapeArrives(b: BuildState, open: set<BlockId>, quiet: set<BlockId>, merge: BlockId)
    requires Shape(b, open + {merge}, quiet) && b.cur == merge
    ensures Shape(b.MoveTo(merge), open, quiet)
  {
    assert b.MoveTo(merge) == b;
    forall i ensures BlockShape(b, open, i) { assert BlockShape(b, open + {merge}, i); }
  }

  /** A branch that is left open leads to `merge`; emission continues at `to`. */
  lemma CloseBranch(b: BuildState, open: set<BlockId>, quiet: set<BlockId>, merge: BlockId, to: BlockId)
    requires Shape(b, open + {to}, quiet) && merge in b.region && merge !in quiet && to in b.region
    ensures Shape(b.BranchIfOpen(merge).MoveTo(to), open, quiet)
  {
    ShapeBranch(b, open + {to}, quiet, merge);
    ShapeMove(b.BranchIfOpen(merge), open, quiet, to);
  }

  lemma GuardEntryShape(b0: BuildState, cond: Expr, rest: Guards, merge: BlockId, loops: Loops, open: set<BlockId>,
                        quiet: set<BlockId>)
    requires Good(b0) && Shape(b0, open + {merge}, quiet) && LoopsOk(loops, b0, quiet) && !b0.Terminated()
    requires merge in b0.region && merge !in quiet && forall l :: l in b0.labels ==> b0.labels[l] != merge
    ensures var b1 := GuardEntry(b0, cond, rest, merge);
            && Good(b1) && LoopsOk(loops, b1, quiet) && merge in b1.region
            && Shape(b1, open + {merge} + (if rest.NoElse? then {} else {b0.free + 1}), quiet)
  {
    var then', else' := b0.free, b0.free + 1;
    var test := ICondBr(Test(cond), then', if rest.NoElse? then merge else else');
    GuardEntryEvolves(b0, cond, rest, merge, {});
    LoopsStayOk(loops, b0, GuardEntry(b0, cond, rest, merge), quiet, {});
    assert Kept(b0, GuardEntry(b0, cond, rest, merge), {}, merge) && BlockOk(b0, b0.cur);
    ShapeCreate(b0, open + {merge}, quiet, None);
    if rest.NoElse? {
      ShapeEnd(b0.Create(None), open + {merge}, quiet, [test], then');
      assert open + {merge} + {} == open + {merge};
    } else {
      ShapeCreate(b0.Create(None), open + {merge} + {then'}, quiet, None);
      assert open + {merge} + {then'} + {else'} == open + {merge} + {else'} + {then'};
      ShapeEnd(b0.Create(None).Create(None), open + {merge} + {else'}, quiet, [test], then');
    }
  }

  /** Where the rest of the guards goes is still empty after the statements of the first. */
  lemma GuardRestOk(b0: BuildState, b1: BuildState, b2: BuildState, cond: Expr, rest: Guards, merge: BlockId,
                    loops: Loops, quiet: set<BlockId>, ls: set<Label>)
    requires Good(b0) && b1 == GuardEntry(b0, cond, rest, merge) && !rest.NoElse? && Evolves(b1, b2, ls)
    requires merge in b0.region && (forall l :: l in b0.labels ==> b0.labels[l] != merge) && LoopsOk(loops, b1, quiet)
    ensures var b3 := b2.BranchIfOpen(merge).MoveTo(b0.free + 1);
            && Good(b3) && !b3.Terminated() && LoopsOk(loops, b3, quiet) && b0.free + 1 in b2.region
            && merge in b3.region
            && forall l :: l in b3.labels ==> b3.labels[l] != merge
  {
    var else', b := b0.free + 1, b2.BranchIfOpen(merge);
    GuardEntryEvolves(b0, cond, rest, merge, {});
    NotALabelYet(b0, else');
    assert b1.BlockAt(else').code == [] && b1.cur == b0.free && BlockOk(b0, merge) by { assert BlockOk(b0, b0.cur); }
    BlockUntouched(b1, b2, ls, else', merge);
    NeverALabel(b1, b2, ls, merge);
    BranchesIfOpen(b1, b2, ls, merge);
    assert Kept(b1, b2, ls, else') && Kept(b1, b, ls, else') && Kept(b1, b, ls, merge) && Kept(b0, b1, {}, merge);
    LoopsStayOk(loops, b1, b, quiet, ls);
    GoodMoved(b, else');
  }

  // ------------------------------------------------------------------- loops

  /** The end of a while or bare loop, from the state `b2` after its body. */
  lemma LoopEnds(b0: BuildState, b1: BuildState, b2: BuildState, ls: set<Label>, open: set<BlockId>,
                 quiet: set<BlockId>, header: BlockId)
    requires Good(b0) && Evolves(b0, b1, {}) && Evolves(b1, b2, ls) && b1.labels == b0.labels && b1.cur == b0.free + 1
    requires b0.free in b1.region && header in b1.region && header >= b0.free && b1.free >= b0.free + 2
    requires Shape(b2, open + {b0.free}, quiet) && forall t :: t in quiet ==> t < b0.free
    ensures Shape(b2.BranchIfOpen(header).Join(b0.free, b0.free + 1), open, quiet)
  {
    var merge := b0.free;
    assert Kept(b1, b2, ls, merge) && Kept(b1, b2, ls, header) && Kept(b1, b2, ls, b1.cur);
    NotALabelYet(b0, merge);
    NeverALabel(b1, b2, ls, merge);
    CloseBranch(b2, open, quiet, header, merge);
    ShapeJoin(b2.BranchIfOpen(header), open, quiet, merge, b0.free + 1);
  }

  lemma {:induction false} WhileShape(stmt: Stmt, loops: Loops, b0: BuildState, b': BuildState, open: set<BlockId>,
                                      quiet: set<BlockId>)
    requires Good(b0) && Shape(b0, open, quiet) && LoopsOk(loops, b0, quiet) && !b0.Terminated()
    requires stmt.While? && Gen(stmt, loops, b0) == Some(b')
    ensures Shape(b', open, quiet)
    decreases stmt, 0
  {
    var inner, b1 := loops + [LoopEntry(b0.free, stmt.name)], WhileEntry(b0, stmt.cond);
    var b2 := GenStmts(stmt.body, inner, b1).value;
    WhileEntryEvolves(b0, stmt.cond, {});
    WhileEntryShape(b0, stmt.cond, open, quiet);
    LoopsStayOk(loops, b0, b1, quiet, {});
    GenStmtsShape(stmt.body, inner, b1, b2, open + {b0.free}, quiet);
    GenStmtsEvolves(stmt.body, inner, b1, b2);
    LoopEnds(b0, b1, b2, PlacedInAll(stmt.body), open, quiet, b0.free + 2);
  }

  lemma WhileEntryShape(b0: BuildState, cond: Expr, open: set<BlockId>, quiet: set<BlockId>)
    requires Good(b0) && Shape(b0, open, quiet) && !b0.Terminated()
    ensures Shape(WhileEntry(b0, cond), open + {b0.free}, quiet) && b0.free + 2 in WhileEntry(b0, cond).region
  {
    var merge, bodyBlock, header := b0.free, b0.free + 1, b0.free + 2;
    ShapeCreate(b0, open, quiet, None);
    ShapeCreate(b0.Create(None), open + {merge}, quiet, None);
    ShapeCreate(b0.Create(None).Create(None), open + {merge} + {bodyBlock}, quiet, None);
    var c := b0.Create(None).Create(None).Create(None);
    assert BlockOk(b0, b0.cur);
    ShapeEnd(c, open + {merge} + {bodyBlock}, quiet, [IBr(header, None)], header);
    var d := c.Emit(IBr(header, None)).MoveTo(header);
    ShapeEnd(d, open + {merge}, quiet, [ICondBr(Test(cond), bodyBlock, merge)], bodyBlock);
    assert d.Emit(ICondBr(Test(cond), bodyBlock, merge)).MoveTo(bodyBlock) == WhileEntry(b0, cond);
  }

  lemma {:induction false} LoopShape(stmt: Stmt, loops: Loops, b0: BuildState, b': BuildState, open: set<BlockId>,
                                     quiet: set<BlockId>)
    requires Good(b0) && Shape(b0, open, quiet) && LoopsOk(loops, b0, quiet) && !b0.Terminated()
    requires stmt.Loop? && Gen(stmt, loops, b0) == Some(b')
    ensures Shape(b', open, quiet)
    decreases stmt, 0
  {
    var inner, b1 := loops + [LoopEntry(b0.free, stmt.name)], LoopEntered(b0);
    var b2 := GenStmts(stmt.body, inner, b1).value;
    LoopEntryEvolves(b0, {});
    ShapeCreate(b0, open, quiet, None);
    ShapeCreate(b0.Create(None), open + {b0.free}, quiet, None);
    assert BlockOk(b0, b0.cur);
    ShapeEnd(b0.Create(None).Create(None), open + {b0.free}, quiet, [IBr(b0.free + 1, None)], b0.free + 1);
    LoopsStayOk(loops, b0, b1, quiet, {});
    GenStmtsShape(stmt.body, inner, b1, b2, open + {b0.free}, quiet);
    GenStmtsEvolves(stmt.body, inner, b1, b2);
    LoopEnds(b0, b1, b2, PlacedInAll(stmt.body), open, quiet, b0.free + 1);
  }

  lemma {:induction false} ForShape(stmt: Stmt, loops: Loops, b0: BuildState, b': BuildState, open: set<BlockId>,
                                    quiet: set<BlockId>)
    requires Good(b0) && Shape(b0, open, quiet) && LoopsOk(loops, b0, quiet) && !b0.Terminated()
    requires stmt.For? && Gen(stmt, loops, b0) == Some(b')
    ensures Shape(b', open, quiet)
    decreases stmt, 0
  {
    var inner, step := loops + [LoopEntry(b0.free, stmt.name)], b0.free + 1;
    var b1, b2 := ForStartShape(stmt, loops, b0, b', open, quiet);
    GenStmtsShape(stmt.body, inner, b1, b2, open + {b0.free} + {step}, quiet + {step});
    GenStmtsEvolves(stmt.body, inner, b1, b2);
    ForEndShape(b0, b1, b2, PlacedInAll(stmt.body), stmt.param, stmt.ty, stmt.reverse, open, quiet);
  }

  /** The states of a for loop before and after its body. */
  lemma ForStartShape(stmt: Stmt, loops: Loops, b0: BuildState, b': BuildState, open: set<BlockId>, quiet: set<BlockId>)
    returns (b1: BuildState, b2: BuildState)
    requires Good(b0) && Shape(b0, open, quiet) && LoopsOk(loops, b0, quiet) && !b0.Terminated()
    requires stmt.For? && Gen(stmt, loops, b0) == Some(b')
    ensures var merge, step := b0.free, b0.free + 1;
            && GenStmts(stmt.body, loops + [LoopEntry(merge, stmt.name)], b1) == Some(b2)
            && b' == ForEnd(b2, stmt.param, stmt.ty, stmt.reverse, merge, step, b0.free + 2)
            && Shape(b1, open + {merge} + {step}, quiet + {step})
            && LoopsOk(loops + [LoopEntry(merge, stmt.name)], b1, quiet + {step})
            && Evolves(b0, b1, {}) && b1.labels == b0.labels && b1.free == b0.free + 4 && b1.cur == b0.free + 2
            && (forall i :: b0.free <= i < b0.free + 4 ==> i in b1.region)
            && b1.BlockAt(merge) == EMPTY && b1.BlockAt(step) == EMPTY
  {
    var For(name, x, ty, low, high, rev, body) := stmt;
    b1 := ForEntry(b0, x, ty, low, high, rev);
    b2 := GenStmts(body, loops + [LoopEntry(b0.free, name)], b1).value;
    ForEntryFacts(stmt, loops, b0, open, quiet);
  }

  lemma ForEntryFacts(stmt: Stmt, loops: Loops, b0: BuildState, open: set<BlockId>, quiet: set<BlockId>)
    requires Good(b0) && Shape(b0, open, quiet) && LoopsOk(loops, b0, quiet) && !b0.Terminated() && stmt.For?
    ensures var b1 := ForEntry(b0, stmt.param, stmt.ty, stmt.low, stmt.high, stmt.reverse);
            var merge, step := b0.free, b0.free + 1;
            && Shape(b1, open + {merge} + {step}, quiet + {step})
            && LoopsOk(loops + [LoopEntry(merge, stmt.name)], b1, quiet + {step})
            && Evolves(b0, b1, {}) && b1.labels == b0.labels && b1.free == b0.free + 4 && b1.cur == b0.free + 2
            && (forall i :: b0.free <= i < b0.free + 4 ==> i in b1.region)
            && b1.BlockAt(merge) == EMPTY && b1.BlockAt(step) == EMPTY
  {
    var For(_, x, ty, low, high, rev, _) := stmt;
    ForEntryEvolves(b0, x, ty, low, high, rev, {});
    ForEntryShape(b0, x, ty, low, high, rev, open, quiet);
    ForBlocks(b0, x, ty, low, high, rev);
    LoopsStayOk(loops, b0, ForEntry(b0, x, ty, low, high, rev), quiet, {});
    forall k | 0 <= k < |loops| ensures loops[k].merge != b0.free + 1 { assert BlockOk(b0, loops[k].merge); }
  }

  lemma ForEntryShape(b0: BuildState, x: Param, ty: ParamType, low: Expr, high: Expr, rev: bool, open: set<BlockId>,
                      quiet: set<BlockId>)
    requires Good(b0) && Shape(b0, open, quiet) && !b0.Terminated()
    ensures Shape(ForEntry(b0, x, ty, low, high, rev), open + {b0.free} + {b0.free + 1}, quiet + {b0.free + 1})
  {
    var merge, step, bodyBlock, init := b0.free, b0.free + 1, b0.free + 2, b0.free + 3;
    var c1 := b0.Create(None);
    var c2 := c1.Create(None);
    var c3 := c2.Create(Some(x));
    var c4 := c3.Create(None);
    var o, q := open + {merge} + {step}, quiet + {step};
    ShapeCreate(b0, open, quiet, None);
    ShapeCreateQuiet(c1, open + {merge}, quiet, None);
    ShapeCreate(c2, o, q, Some(x));
    ShapeCreate(c3, o + {bodyBlock}, q, None);
    assert BlockOk(b0, b0.cur);
    ShapeEnd(c4, o + {bodyBlock}, q,
             [IBound(Low(x), low), IBound(High(x), high), IConvert(Low(x), ty), IConvert(High(x), ty),
              ICondBr(NonEmpty(x), init, merge)], init);
    var d := c4.EmitAll([IBound(Low(x), low), IBound(High(x), high), IConvert(Low(x), ty), IConvert(High(x), ty),
                         ICondBr(NonEmpty(x), init, merge)]).MoveTo(init);
    ShapeEnd(d, o, q, [IBr(bodyBlock, Some(if rev then High(x) else Low(x)))], bodyBlock);
  }

  /** Only a body that falls through makes anything lead to the step. */
  lemma ForEndShape(b0: BuildState, b1: BuildState, b2: BuildState, ls: set<Label>, x: Param, ty: ParamType, rev: bool,
                    open: set<BlockId>, quiet: set<BlockId>)
    requires Good(b0) && Evolves(b0, b1, {}) && Evolves(b1, b2, ls) && b1.labels == b0.labels
    requires b1.free == b0.free + 4 && b1.cur == b0.free + 2
    requires forall i :: b0.free <= i < b0.free + 4 ==> i in b1.region
    requires b1.BlockAt(b0.free) == EMPTY && b1.BlockAt(b0.free + 1) == EMPTY
    requires Shape(b2, open + {b0.free} + {b0.free + 1}, quiet + {b0.free + 1})
    requires forall t :: t in quiet ==> t < b0.free
    ensures Shape(ForEnd(b2, x, ty, rev, b0.free, b0.free + 1, b0.free + 2), open, quiet)
  {
    var merge, step, bodyBlock := b0.free, b0.free + 1, b0.free + 2;
    NotALabelYet(b0, step);
    NeverALabel(b1, b2, ls, step);
    NotALabelYet(b0, merge);
    BlockUntouched(b1, b2, ls, step, merge);
    BlockUntouched(b1, b2, ls, merge, merge);
    assert Kept(b1, b2, ls, step) && Kept(b1, b2, ls, merge) && Kept(b1, b2, ls, bodyBlock);
    if b2.Terminated() {
      QuietUntargeted(b2, open + {merge} + {step}, quiet + {step}, step);
      ShapeErase(b2, open + {merge}, quiet + {step}, step);
      ShapeWeakens(b2.Erase(step), open + {merge}, quiet + {step}, open + {merge}, quiet);
      ShapeMove(b2.Erase(step), open, quiet, merge);
    } else {
      ShapeWeakens(b2, open + {merge} + {step}, quiet + {step}, open + {merge} + {step}, quiet);
      var test, next := ICondBr(AtLast(x, rev), merge, step), [IStep(x, ty, rev), IBr(bodyBlock, Some(Next(x)))];
      ShapeEnd(b2, open + {merge}, quiet, [test], step);
      ShapeEnd(b2.Emit(test).MoveTo(step), open, quiet, next, merge);
    }
  }

  lemma QuietUntargeted(b: BuildState, open: set<BlockId>, quiet: set<BlockId>, t: BlockId)
    requires Shape(b, open, quiet) && t in quiet
    ensures !b.HasPredecessor(t)
  {
    forall p, k | p in b.region && 0 <= k < |b.region[p].code| ensures !Targets(b.region[p].code[k], t) {
      assert AimsOk(b, quiet, p);
    }
  }

  // ------------------------------------------------------ labels find places

  function Placed(b: BuildState): set<Label> { set l | l in b.placed }

  /** Every label met so far is placed, or belongs to a sequence being emitted. */
  ghost predicate LabelsIn(b: BuildState, scope: set<Label>) { b.labels.Keys <= scope + Placed(b) }

  /** What emitting a statement keeps: places reached, and only labels in scope. */
  ghost predicate LabelsKept(b0: BuildState, b': BuildState, scope: set<Label>) {
    Placed(b0) <= Placed(b') && LabelsIn(b', scope)
  }

  lemma {:induction false} GenLabels(stmt: Stmt, loops: Loops, b0: BuildState, b': BuildState, scope: set<Label>)
    requires Gen(stmt, loops, b0) == Some(b') && GotosObey(stmt, scope) && LabelsIn(b0, scope)
    ensures LabelsKept(b0, b', scope)
    ensures stmt.Labelled? ==> stmt.at in Placed(b')
    decreases stmt, 1
  {
    match stmt
    case If(guards) =>
      GuardLabels(guards, b0.free, loops, b0.Create(None), GenGuards(guards, b0.free, loops, b0.Create(None)).value,
                  scope);
    case While(_, _, _) => LoopLabels(stmt, loops, b0, b', scope);
    case Loop(_, _) => LoopLabels(stmt, loops, b0, b', scope);
    case For(_, _, _, _, _, _, _) => LoopLabels(stmt, loops, b0, b', scope);
    case Block(body) => SequenceLabels(body, loops, b0, b', scope);
    case _ =>
  }

  lemma {:induction false} LoopLabels(stmt: Stmt, loops: Loops, b0: BuildState, b': BuildState, scope: set<Label>)
    requires Gen(stmt, loops, b0) == Some(b') && GotosObey(stmt, scope) && LabelsIn(b0, scope)
    requires stmt.While? || stmt.Loop? || stmt.For?
    ensures LabelsKept(b0, b', scope)
    decreases stmt, 0
  {
    var b1 := if stmt.While? then WhileEntry(b0, stmt.cond) else if stmt.Loop? then LoopEntered(b0)
      else ForEntry(b0, stmt.param, stmt.ty, stmt.low, stmt.high, stmt.reverse);
    assert b1.labels == b0.labels && b1.placed == b0.placed;
    var inner := loops + [LoopEntry(b0.free, stmt.name)];
    SequenceLabels(stmt.body, inner, b1, GenStmts(stmt.body, inner, b1).value, scope);
  }

  /** A whole sequence: its own labels are all placed, even those after dead code. */
  lemma {:induction false} SequenceLabels(list: Stmts, loops: Loops, b0: BuildState, b': BuildState, scope: set<Label>)
    requires GenStmts(list, loops, b0) == Some(b') && GotosObeyAll(list, scope + OwnLabels(list)) && LabelsIn(b0, scope)
    ensures LabelsKept(b0, b', scope)
    decreases list, 2
  {
    GenStmtsLabels(list, loops, b0, b', scope + OwnLabels(list));
  }

  lemma {:induction false} GenStmtsLabels(list: Stmts, loops: Loops, b0: BuildState, b': BuildState, scope: set<Label>)
    requires GenStmts(list, loops, b0) == Some(b') && GotosObeyAll(list, scope) && LabelsIn(b0, scope)
    ensures LabelsKept(b0, b', scope) && OwnLabels(list) <= Placed(b')
    decreases list, 0
  {
    if list.Cons? {
      var b1 := b0;
      if !b0.Terminated() || list.head.Labelled? {
        b1 := Gen(list.head, loops, b0).value;
        GenLabels(list.head, loops, b0, b1, scope);
      }
      GenStmtsLabels(list.tail, loops, b1, b', scope);
    }
  }

  lemma {:induction false} GuardLabels(guards: Guards, merge: BlockId, loops: Loops, b0: BuildState, b': BuildState,
                                       scope: set<Label>)
    requires GenGuards(guards, merge, loops, b0) == Some(b') && GotosObeyGuards(guards, scope) && LabelsIn(b0, scope)
    ensures LabelsKept(b0, b', scope)
    decreases guards, 0
  {
    match guards
    case NoElse =>
    case Else(body) => SequenceLabels(body, loops, b0, GenStmts(body, loops, b0).value, scope);
    case Guard(cond, body, rest) =>
      var b1 := GuardEntry(b0, cond, rest, merge);
      var b2 := GenStmts(body, loops, b1).value;
      SequenceLabels(body, loops, b1, b2, scope);
      GuardLabels(rest, merge, loops, b2.BranchIfOpen(merge).MoveTo(if rest.NoElse? then merge else b0.free + 1), b',
                  scope);
  }

  // ------------------------------------------------------------ whole bodies

  /** A branch or a return. */
  predicate LeavesBlock(i: Instr) { i.IBr? || i.ICondBr? || i.IReturn? }

  /** Every block ends in its one branch or return, and leads to blocks of the graph.
    * Only the last block of a function may be left open. */
  ghost predicate WellFormed(b: BuildState, isProc: bool) {
    forall i {:trigger b.region[i]} :: i in b.region ==>
      var last := |b.region[i].code| - 1;
      && (forall k :: 0 <= k < last ==> !LeavesBlock(b.region[i].code[k]))
      && ((last >= 0 && LeavesBlock(b.region[i].code[last])) || (!isProc && i == b.cur))
      && forall k :: 0 <= k < |b.region[i].code| ==> TargetsOk(b.region[i].code[k], b.region.Keys, {})
  }

  /** In a finished body, every label that a goto names has been placed. */
  lemma LabelsPlaced(body: Stmts, isProc: bool, b: BuildState)
    requires GotosObeyAll(body, OwnLabels(body)) && GenBody(body, isProc) == Some(b)
    ensures forall l :: l in b.labels ==> l in b.placed
  {
    var b1 := GenStmts(body, [], START).value;
    assert {} + OwnLabels(body) == OwnLabels(body);
    SequenceLabels(body, [], START, b1, {});
    forall l | l in b.labels ensures l in b.placed { assert l in b1.labels.Keys; }
  }

  lemma BodyShape(body: Stmts, isProc: bool, b: BuildState)
    requires GotosObeyAll(body, OwnLabels(body)) && GenBody(body, isProc) == Some(b)
    ensures WellFormed(b, isProc)
  {
    var b1 := GenStmts(body, [], START).value;
    GenStmtsShape(body, [], START, b1, {}, {});
    if isProc && !b1.Terminated() { ShapeEmit(b1, {}, {}, [IReturn(None)]); }
    LabelsPlaced(body, isProc, b);
    FinishedShape(b, isProc);
  }

  lemma FinishedShape(b: BuildState, isProc: bool)
    requires Shape(b, {}, {}) && (forall l :: l in b.labels ==> l in b.placed) && (isProc ==> Ends(b.Code()))
    ensures WellFormed(b, isProc)
  {
    forall i | i in b.region
      ensures forall k :: 0 <= k < |b.region[i].code| - 1 ==> !LeavesBlock(b.region[i].code[k])
      ensures (b.region[i].code != [] && LeavesBlock(b.region[i].code[|b.region[i].code| - 1]))
              || (!isProc && i == b.cur)
      ensures forall k :: 0 <= k < |b.region[i].code| ==> TargetsOk(b.region[i].code[k], b.region.Keys, {})
    {
      assert BlockShape(b, {}, i) && AimsOk(b, {}, i);
    }
  }
}
