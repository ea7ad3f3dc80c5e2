/** The builder itself: an object whose methods append to the graph in place, each
  * proved against the functions of module Cfg.
  */
module CfgBuilder {
  import CfgAccepts
  import CfgShape
  import opened Options
  import opened Statements
  import opened Cfg
  import opened CfgSimulation
  import opened CfgBody

  class Builder {
    var region: Region
    var cur: BlockId
    var free: BlockId
    var labels: map<Label, BlockId>
    var placed: seq<Label>
    var loopStack: Loops

    ghost function State(): BuildState
      reads this
    {
      BuildState(region, cur, free, labels, placed)
    }

    /** At the entry block of a subprogram body: no loop and no label is known yet. */
    constructor ()
      ensures State() == START && loopStack == []
    {
      region, cur, free, labels, placed, loopStack := map[0 := CfgBlock(None, [])], 0, 1, map[], [], [];
    }

    // ------------------------------------------------------------ primitives

    predicate Terminated()
      reads this
      ensures Terminated() <==> State().Terminated()
    {
      cur in region && region[cur].code != [] && IsTerminator(region[cur].code[|region[cur].code| - 1])
    }

    method CreateBlock(arg: Option<Param>) returns (b: BlockId)
      modifies this
      ensures State() == old(State()).Create(arg) && b == old(free) && loopStack == old(loopStack)
    {
      b := free;
      region, free := region[free := CfgBlock(arg, [])], free + 1;
    }

    method EmitAll(code: seq<Instr>)
      modifies this
      ensures State() == old(State()).EmitAll(code) && loopStack == old(loopStack)
    {
      var block := if cur in region then region[cur] else CfgBlock(None, []);
      region := region[cur := block.(code := block.code + code)];
    }

    method Emit(i: Instr)
      modifies this
      ensures State() == old(State()).Emit(i) && loopStack == old(loopStack)
    {
      EmitAll([i]);
    }

    method SetInsertionPoint(b: BlockId)
      modifies this
      ensures State() == old(State()).MoveTo(b) && loopStack == old(loopStack)
    {
      cur := b;
    }

    method BranchToMergeIfOpen(dest: BlockId)
      modifies this
      ensures State() == old(State()).BranchIfOpen(dest) && loopStack == old(loopStack)
    {
      if !Terminated() { Emit(IBr(dest, None)); }
    }

    /** Whether some instruction of the graph leads to `b`. */
    predicate HasPredecessor(b: BlockId)
      reads this
      ensures HasPredecessor(b) <==> State().HasPredecessor(b)
    {
      exists p :: p in region && exists k :: 0 <= k < |region[p].code| && Targets(region[p].code[k], b)
    }

    /** Continue in the merge block, or erase it when it is dead. */
    method JoinOrErase(merge: BlockId, terminated: BlockId)
      modifies this
      ensures State() == old(State()).Join(merge, terminated) && loopStack == old(loopStack)
    {
      if HasPredecessor(merge) {
        cur := merge;
      } else {
        region := region - {merge};
        cur := terminated;
      }
    }

    method GetOrCreateLabelBlock(l: Label) returns (b: BlockId)
      modifies this
      ensures State() == old(State()).WithLabel(l) && l in labels && b == labels[l] && loopStack == old(loopStack)
    {
      if l !in labels {
        b := CreateBlock(None);
        labels := labels[l := b];
      }
      b := labels[l];
    }

    // ------------------------------------------------------------ statements

    /** After a successful visit the graph is what `Gen` says; a visit fails exactly
      * when `Gen` has no result. Loops entered are left, either way. */
    ghost predicate Emitted(ok: bool, result: Option<BuildState>, loops: Loops)
      reads this
    {
      (ok <==> result.Some?) && (ok ==> State() == result.value) && loopStack == loops
    }

    method Visit(stmt: Stmt) returns (ok: bool)
      modifies this
      ensures Emitted(ok, Gen(stmt, old(loopStack), old(State())), old(loopStack))
      decreases stmt, 1
    {
      ok := true;
      match stmt
      case Null => Emit(INull);
      case Assign(x, e) => Emit(IAssign(x, e));
      case Return(value) => Emit(IReturn(value));
      case If(_) => ok := GenIf(stmt);
      case While(_, _, _) => ok := GenLoop(stmt);
      case Loop(_, _) => ok := GenLoop(stmt);
      case For(_, _, _, _, _, _, _) => ok := GenForLoop(stmt);
      case Exit(name, when) => ok := GenExit(name, when);
      case Goto(l) => GenGoto(l);
      case Labelled(l) => GenLabel(l);
      case Block(body) => ok := VisitAll(body);
    }

    /** What follows a terminator is unreachable, and skipped, up to a label. */
    method VisitAll(list: Stmts) returns (ok: bool)
      modifies this
      ensures Emitted(ok, GenStmts(list, old(loopStack), old(State())), old(loopStack))
      decreases list, 0
    {
      var rest := list;
      ok := true;
      while rest.Cons?
        invariant rest == list || rest < list
        invariant loopStack == old(loopStack)
        invariant GenStmts(list, loopStack, old(State())) == GenStmts(rest, loopStack, State())
        decreases rest
      {
        if !Terminated() || rest.head.Labelled? {
          ok := Visit(rest.head);
          if !ok { return; }
        }
        rest := rest.tail;
      }
    }

    method GenGoto(l: Label)
      modifies this
      ensures Emitted(true, Gen(Goto(l), old(loopStack), old(State())), old(loopStack))
    {
      var b := GetOrCreateLabelBlock(l);
      Emit(IBr(b, None));
    }

    method GenLabel(l: Label)
      modifies this
      ensures Emitted(true, Gen(Labelled(l), old(loopStack), old(State())), old(loopStack))
    {
      var b := GetOrCreateLabelBlock(l);
      BranchToMergeIfOpen(b);
      SetInsertionPoint(b);
      placed := placed + [l];
    }

    method GenIf(stmt: Stmt) returns (ok: bool)
      requires stmt.If?
      modifies this
      ensures Emitted(ok, Gen(stmt, old(loopStack), old(State())), old(loopStack))
      decreases stmt, 0
    {
      if !stmt.guards.Guard? { return false; }
      var condBlock := cur;
      var mergeBlock := CreateBlock(None);
      ok := GenGuardList(stmt.guards, mergeBlock);
      if ok { JoinOrErase(mergeBlock, condBlock); }
    }

    /** One guard after the other, then the else part. */
    method GenGuardList(guards: Guards, mergeBlock: BlockId) returns (ok: bool)
      modifies this
      ensures Emitted(ok, GenGuards(guards, mergeBlock, old(loopStack), old(State())), old(loopStack))
      decreases guards, 1
    {
      var rest := guards;
      while rest.Guard?
        invariant rest == guards || rest < guards
        invariant loopStack == old(loopStack)
        invariant GenGuards(guards, mergeBlock, loopStack, old(State()))
          == GenGuards(rest, mergeBlock, loopStack, State())
        decreases rest
      {
        ok := GenGuard(rest, mergeBlock);
        if !ok { return; }
        rest := rest.rest;
      }
      ok := true;
      if rest.Else? {
        ok := VisitAll(rest.body);
        if ok { BranchToMergeIfOpen(mergeBlock); }
      }
    }

    /** The first guard: its test, and its statements. */
    method GenGuard(guards: Guards, mergeBlock: BlockId) returns (ok: bool)
      requires guards.Guard?
      modifies this
      ensures if ok then GenGuards(guards, mergeBlock, old(loopStack), old(State()))
                      == GenGuards(guards.rest, mergeBlock, loopStack, State())
              else GenGuards(guards, mergeBlock, old(loopStack), old(State())).None?
      ensures loopStack == old(loopStack)
      decreases guards, 0
    {
      var falseBlock := GenTest(guards.cond, guards.rest.NoElse?, mergeBlock);
      ok := VisitAll(guards.body);
      if !ok { return; }
      BranchToMergeIfOpen(mergeBlock);
      SetInsertionPoint(falseBlock);
    }

    /** The test of a guard: the insertion point moves to its statements. */
    method GenTest(cond: Expr, last: bool, mergeBlock: BlockId) returns (falseBlock: BlockId)
      modifies this
      ensures forall rest: Guards :: rest.NoElse? == last ==>
        State() == GuardEntry(old(State()), cond, rest, mergeBlock)
      ensures falseBlock == (if last then mergeBlock else old(free) + 1) && loopStack == old(loopStack)
    {
      var thenBlock := CreateBlock(None);
      falseBlock := mergeBlock;
      if !last { falseBlock := CreateBlock(None); }
      Emit(ICondBr(Test(cond), thenBlock, falseBlock));
      SetInsertionPoint(thenBlock);
    }

    /** A while loop tests its condition in a header; a bare loop has none. */
    method GenLoop(stmt: Stmt) returns (ok: bool)
      requires stmt.While? || stmt.Loop?
      modifies this
      ensures Emitted(ok, Gen(stmt, old(loopStack), old(State())), old(loopStack))
      decreases stmt, 0
    {
      var mergeBlock, bodyBlock, headerBlock := EnterLoop(if stmt.While? then Some(stmt.cond) else None);
      var savedLoops := loopStack;
      ghost var entered := State();
      loopStack := loopStack + [LoopEntry(mergeBlock, stmt.name)];
      assert State() == entered;
      ok := VisitAll(stmt.body);
      loopStack := savedLoops;
      if ok { CloseLoop(mergeBlock, bodyBlock, headerBlock); }
    }

    method EnterLoop(cond: Option<Expr>) returns (mergeBlock: BlockId, bodyBlock: BlockId, headerBlock: BlockId)
      modifies this
      ensures State() == match cond case Some(e) => WhileEntry(old(State()), e) case None => LoopEntered(old(State()))
      ensures mergeBlock == old(free) && bodyBlock == old(free) + 1
      ensures headerBlock == old(free) + (if cond.Some? then 2 else 1)
      ensures loopStack == old(loopStack)
    {
      var entryBlock := cur;
      mergeBlock := CreateBlock(None);
      bodyBlock := CreateBlock(None);
      headerBlock := bodyBlock;
      if cond.Some? {
        headerBlock := CreateBlock(None);
        SetInsertionPoint(headerBlock);
        Emit(ICondBr(Test(cond.value), bodyBlock, mergeBlock));
        SetInsertionPoint(entryBlock);
      }
      Emit(IBr(headerBlock, None));
      SetInsertionPoint(bodyBlock);
    }

    method CloseLoop(mergeBlock: BlockId, bodyBlock: BlockId, headerBlock: BlockId)
      modifies this
      ensures State() == old(State()).BranchIfOpen(headerBlock).Join(mergeBlock, bodyBlock)
      ensures loopStack == old(loopStack)
    {
      BranchToMergeIfOpen(headerBlock);
      JoinOrErase(mergeBlock, bodyBlock);
    }

    method GenForLoop(stmt: Stmt) returns (ok: bool)
      requires stmt.For?
      modifies this
      ensures Emitted(ok, Gen(stmt, old(loopStack), old(State())), old(loopStack))
      decreases stmt, 0
    {
      var mergeBlock, stepBlock, bodyBlock := EnterFor(stmt.param, stmt.ty, stmt.low, stmt.high, stmt.reverse);
      var savedLoops := loopStack;
      ghost var entered := State();
      loopStack := loopStack + [LoopEntry(mergeBlock, stmt.name)];
      assert State() == entered;
      ok := VisitAll(stmt.body);
      loopStack := savedLoops;
      if ok { CloseFor(stmt.param, stmt.ty, stmt.reverse, mergeBlock, stepBlock, bodyBlock); }
    }

    method EnterFor(x: Param, ty: ParamType, low: Expr, high: Expr, rev: bool)
      returns (mergeBlock: BlockId, stepBlock: BlockId, bodyBlock: BlockId)
      modifies this
      ensures State() == ForEntry(old(State()), x, ty, low, high, rev) && loopStack == old(loopStack)
      ensures mergeBlock == old(free) && stepBlock == old(free) + 1 && bodyBlock == old(free) + 2
    {
      mergeBlock := CreateBlock(None);
      stepBlock := CreateBlock(None);
      bodyBlock := CreateBlock(Some(x));
      var initBlock := CreateBlock(None);
      EmitAll([IBound(Low(x), low), IBound(High(x), high), IConvert(Low(x), ty), IConvert(High(x), ty),
               ICondBr(NonEmpty(x), initBlock, mergeBlock)]);
      SetInsertionPoint(initBlock);
      Emit(IBr(bodyBlock, Some(if rev then High(x) else Low(x))));
      SetInsertionPoint(bodyBlock);
    }

    /** Past the body: the test for the last value and the step, or no step at all. */
    method CloseFor(x: Param, ty: ParamType, rev: bool, mergeBlock: BlockId, stepBlock: BlockId, bodyBlock: BlockId)
      modifies this
      ensures State() == ForEnd(old(State()), x, ty, rev, mergeBlock, stepBlock, bodyBlock)
      ensures loopStack == old(loopStack)
    {
      if !Terminated() {
        Emit(ICondBr(AtLast(x, rev), mergeBlock, stepBlock));
        SetInsertionPoint(stepBlock);
        EmitAll([IStep(x, ty, rev), IBr(bodyBlock, Some(Next(x)))]);
      } else {
        region := region - {stepBlock};
      }
      SetInsertionPoint(mergeBlock);
    }

    /** The search from the innermost loop outwards: `k` loops are on the stack up to the one to
      * leave, none if there is none. */
    method FindLoop(name: LoopName) returns (k: nat)
      ensures if k > 0 then CfgAccepts.Innermost(loopStack, name, k - 1)
              else forall j :: 0 <= j < |loopStack| ==> !CfgAccepts.ExitLeaves(loopStack[j].name, name)
    {
      k := |loopStack|;
      while k > 0 && !Catches(loopStack[k - 1].name, name)
        invariant k <= |loopStack|
        invariant forall j :: k <= j < |loopStack| ==> !CfgAccepts.ExitLeaves(loopStack[j].name, name)
      {
        k := k - 1;
      }
    }

    /** The loop to leave is the last one on the stack that the exit names, or the last one;
      * without one there is a diagnostic. */
    method GenExit(name: LoopName, when: Option<Expr>) returns (ok: bool)
      modifies this
      ensures Emitted(ok, Gen(Exit(name, when), old(loopStack), old(State())), old(loopStack))
      ensures ok <==> exists k :: CfgAccepts.Innermost(loopStack, name, k)
      ensures forall k :: CfgAccepts.Innermost(loopStack, name, k) ==>
        State() == LeftBy(old(State()), loopStack[k].merge, when)
    {
      CfgAccepts.ExitTargetIs(loopStack, name);
      var k := FindLoop(name);
      if k == 0 { return false; }
      ok := true;
      var target := loopStack[k - 1].merge;
      if when.None? {
        Emit(IBr(target, None));
      } else {
        var contBlock := CreateBlock(None);
        Emit(ICondBr(Test(when.value), target, contBlock));
        SetInsertionPoint(contBlock);
      }
    }

    /** A branch to `target`, or one past it when the condition fails. */
    static function LeftBy(b: BuildState, target: BlockId, when: Option<Expr>): BuildState {
      match when
      case None => b.Emit(IBr(target, None))
      case Some(e) => b.Create(None).Emit(ICondBr(Test(e), target, b.free)).MoveTo(b.free)
    }

    /** A whole subprogram body: the graph is well formed, and ends or runs on exactly as
      * the statements do. */
    method GenSubpBody(body: Stmts, isProc: bool) returns (ok: bool)
      requires State() == START && loopStack == []
      modifies this
      ensures ok <==> GenBody(body, isProc).Some?
      ensures CfgAccepts.LabelsOnceAll(body) ==> (ok <==> CfgAccepts.ListFlow(body, [], true).ok)
      ensures ok && GotosObeyAll(body, OwnLabels(body)) ==> CfgShape.WellFormed(State(), isProc)
      ensures ok && LegalAll(body) && GotosObeyAll(body, OwnLabels(body)) ==> MeansBody(body, isProc)
    {
      ok := VisitAll(body);
      if ok && isProc && !Terminated() { Emit(IReturn(None)); }
      if ok && GotosObeyAll(body, OwnLabels(body)) { MeansItsBody(body, isProc); }
      if CfgAccepts.LabelsOnceAll(body) { CfgAccepts.BodyAccepts(body, isProc); }
    }

    /** The graph ends in a way exactly when the statements do, and runs on when they do. */
    ghost predicate MeansBody(body: Stmts, isProc: bool)
      reads this
    {
      && (forall eval: Eval, s, f :: BodyEnds(eval, body, isProc, s, f) <==> Reaches(eval, region, s, f))
      && (forall eval: Eval, s :: RunsForever(eval, body, s) <==> GraphRunsForever(eval, region, s))
    }

    lemma MeansItsBody(body: Stmts, isProc: bool)
      requires GotosObeyAll(body, OwnLabels(body)) && GenBody(body, isProc) == Some(State())
      ensures CfgShape.WellFormed(State(), isProc) && (LegalAll(body) ==> MeansBody(body, isProc))
    {
      CfgShape.BodyShape(body, isProc, State());
      if LegalAll(body) {
        forall eval: Eval, s, f ensures BodyEnds(eval, body, isProc, s, f) <==> Reaches(eval, region, s, f) {
          BodyMeans(eval, body, isProc, region, s, f);
        }
        forall eval: Eval, s ensures RunsForever(eval, body, s) <==> GraphRunsForever(eval, region, s) {
          BodyDiverges(eval, body, isProc, region, s);
        }
      }
    }
  }
}
