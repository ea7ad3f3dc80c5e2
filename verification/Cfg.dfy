/** The control-flow graph that statements turn into, its execution, and the
  * builder's effect on it as functions of the builder's state.
  */
module Cfg {
  import opened Options
  import opened Statements

  type BlockId = nat

  /** Values of a for loop that live in the blocks: its converted bounds, and the next value. */
  datatype Temp = Low(param: Param) | High(param: Param) | Next(param: Param)

  datatype Cond = Test(e: Expr) | NonEmpty(param: Param) | AtLast(param: Param, reverse: bool)

  datatype Instr =
    | INull
    | IAssign(target: Var, source: Expr)
    | IBound(temp: Temp, source: Expr)
    | IConvert(temp: Temp, ty: ParamType)
    | IStep(param: Param, ty: ParamType, reverse: bool)  // unchecked
    // terminators
    | IBr(dest: BlockId, operand: Option<Temp>)
    | ICondBr(cond: Cond, onTrue: BlockId, onFalse: BlockId)
    | IReturn(value: Option<Expr>)

  predicate IsTerminator(i: Instr) { i.IBr? || i.ICondBr? || i.IReturn? }

  predicate Targets(i: Instr, b: BlockId) {
    match i
    case IBr(dest, _) => dest == b
    case ICondBr(_, t, f) => t == b || f == b
    case _ => false
  }

  /** A block may take one argument, a loop parameter. */
  datatype CfgBlock = CfgBlock(arg: Option<Param>, code: seq<Instr>)

  type Region = map<BlockId, CfgBlock>

  // -------------------------------------------------------------- execution

  type Temps = map<Temp, int>

  datatype Final = FReturned(value: Option<int>, store: Store) | FRaised(store: Store) | FStuck

  datatype Config = At(b: BlockId, k: nat, s: State, temps: Temps) | Ended(final: Final)

  /** Execute one instruction. */
  function Step(eval: Eval, g: Region, c: Config): Config {
    if c.Ended? then c
    else if c.b !in g || c.k >= |g[c.b].code| then Ended(FStuck)
    else
      var s, temps, next := c.s, c.temps, c.(k := c.k + 1);
      match g[c.b].code[c.k]
      case INull => next
      case IAssign(x, e) =>
        (match eval.value(e, s)
         case Raise(store) => Ended(FRaised(store))
         case Value(v, store) => next.(s := s.(store := store[x := v])))
      case IBound(t, e) =>
        (match eval.value(e, s)
         case Raise(store) => Ended(FRaised(store))
         case Value(v, store) => next.(s := s.(store := store), temps := temps[t := v]))
      case IConvert(t, ty) =>
        if t !in temps then Ended(FStuck)
        else if ty.Has(temps[t]) then next else Ended(FRaised(s.store))
      case IStep(x, ty, rev) =>
        if x !in s.params || !ty.machine.Valid() then Ended(FStuck)
        else next.(temps := temps[Next(x) := ty.machine.Wrap(if rev then s.params[x] - 1 else s.params[x] + 1)])
      case IBr(dest, operand) =>
        if dest in g && g[dest].arg.Some? && operand.Some? && operand.value in temps then
          At(dest, 0, s.(params := s.params[g[dest].arg.value := temps[operand.value]]), temps)
        else At(dest, 0, s, temps)
      case ICondBr(Test(e), t, f) =>
        (match eval.value(e, s)
         case Raise(store) => Ended(FRaised(store))
         case Value(v, store) => At(if v != 0 then t else f, 0, s.(store := store), temps))
      case ICondBr(NonEmpty(x), t, f) =>
        if Low(x) in temps && High(x) in temps then At(if temps[Low(x)] <= temps[High(x)] then t else f, 0, s, temps)
        else Ended(FStuck)
      case ICondBr(AtLast(x, rev), t, f) =>
        var last := if rev then Low(x) else High(x);
        if x in s.params && last in temps then At(if s.params[x] == temps[last] then t else f, 0, s, temps)
        else Ended(FStuck)
      case IReturn(None) => Ended(FReturned(None, s.store))
      case IReturn(Some(e)) =>
        match eval.value(e, s)
        case Raise(store) => Ended(FRaised(store))
        case Value(v, store) => Ended(FReturned(Some(v), store))
  }

  function Steps(eval: Eval, g: Region, c: Config, n: nat): Config
    decreases n
  {
    if n == 0 then c else Steps(eval, g, Step(eval, g, c), n - 1)
  }

  // ------------------------------------------------- the state of the builder

  /** The region built so far, the block instructions are appended to, the next
    * free block, the blocks of the labels met so far, and, in order, the labels
    * whose own place has been reached. */
  datatype BuildState = BuildState(
    region: Region,
    cur: BlockId,
    free: BlockId,
    labels: map<Label, BlockId>,
    placed: seq<Label>)
  {
    function BlockAt(b: BlockId): CfgBlock {
      if b in region then region[b] else CfgBlock(None, [])
    }

    function Code(): seq<Instr> {
      BlockAt(cur).code
    }

    predicate Terminated() {
      Code() != [] && IsTerminator(Code()[|Code()| - 1])
    }

    function EmitAll(code: seq<Instr>): BuildState {
      this.(region := region[cur := BlockAt(cur).(code := Code() + code)])
    }

    function Emit(i: Instr): BuildState {
      EmitAll([i])
    }

    /** A new empty block, numbered `free`. */
    function Create(arg: Option<Param>): BuildState {
      this.(region := region[free := CfgBlock(arg, [])], free := free + 1)
    }

    function MoveTo(b: BlockId): BuildState {
      this.(cur := b)
    }

    function Erase(b: BlockId): BuildState {
      this.(region := region - {b})
    }

    function BranchIfOpen(dest: BlockId): BuildState {
      if Terminated() then this else Emit(IBr(dest, None))
    }

    predicate HasPredecessor(b: BlockId) {
      exists p :: p in region && exists k :: 0 <= k < |region[p].code| && Targets(region[p].code[k], b)
    }

    /** Continue in the merge block, or drop it when nothing leads there. */
    function Join(merge: BlockId, terminated: BlockId): BuildState {
      if HasPredecessor(merge) then MoveTo(merge) else Erase(merge).MoveTo(terminated)
    }

    /** The block of a label, created on first reference. */
    function WithLabel(l: Label): BuildState {
      if l in labels then this else Create(None).(labels := labels[l := free])
    }
  }

  /** An enclosing loop: the block after it, and its name. */
  datatype LoopEntry = LoopEntry(merge: BlockId, name: LoopName)
  type Loops = seq<LoopEntry>

  /** The block an exit statement leads to: the innermost loop, or the innermost so named. */
  function ExitTarget(loops: Loops, name: LoopName): Option<BlockId> {
    if loops == [] then None
    else if Catches(loops[|loops| - 1].name, name) then Some(loops[|loops| - 1].merge)
    else ExitTarget(loops[..|loops| - 1], name)
  }

  // --------------------------------------------- what emitting a statement does

  /** The builder's state after emitting `stmt` inside `loops`, or none after a
    * diagnostic. */
  function Gen(stmt: Stmt, loops: Loops, b0: BuildState): Option<BuildState>
    decreases stmt, 0
  {
    match stmt
    case Null => Some(b0.Emit(INull))
    case Assign(x, e) => Some(b0.Emit(IAssign(x, e)))
    case Return(value) => Some(b0.Emit(IReturn(value)))
    case If(guards) =>
      if !guards.Guard? then None else
      var merge := b0.free;
      var b1 :- GenGuards(guards, merge, loops, b0.Create(None));
      Some(b1.Join(merge, b0.cur))
    case While(name, cond, body) =>
      var merge, bodyBlock, header := b0.free, b0.free + 1, b0.free + 2;
      var b2 :- GenStmts(body, loops + [LoopEntry(merge, name)], WhileEntry(b0, cond));
      Some(b2.BranchIfOpen(header).Join(merge, bodyBlock))
    case Loop(name, body) =>
      var merge, bodyBlock := b0.free, b0.free + 1;
      var b2 :- GenStmts(body, loops + [LoopEntry(merge, name)], LoopEntered(b0));
      Some(b2.BranchIfOpen(bodyBlock).Join(merge, bodyBlock))
    case For(name, x, ty, low, high, rev, body) =>
      var merge, step, bodyBlock, init := b0.free, b0.free + 1, b0.free + 2, b0.free + 3;
      var b1 := ForEntry(b0, x, ty, low, high, rev);
      var b2 :- GenStmts(body, loops + [LoopEntry(merge, name)], b1);
      Some(ForEnd(b2, x, ty, rev, merge, step, bodyBlock))
    case Exit(name, when) =>
      var dest :- ExitTarget(loops, name);
      (match when
       case None => Some(b0.Emit(IBr(dest, None)))
       case Some(e) =>
         var cont := b0.free;
         Some(b0.Create(None).Emit(ICondBr(Test(e), dest, cont)).MoveTo(cont)))
    case Goto(l) =>
      var b1 := b0.WithLabel(l);
      Some(b1.Emit(IBr(b1.labels[l], None)))
    case Labelled(l) =>
      var b1 := b0.WithLabel(l);
      Some(b1.BranchIfOpen(b1.labels[l]).MoveTo(b1.labels[l]).(placed := b1.placed + [l]))
    case Block(body) => GenStmts(body, loops, b0)
  }

  /** The blocks of a while loop, up to its body. */
  function WhileEntry(b0: BuildState, cond: Expr): BuildState {
    var merge, bodyBlock, header := b0.free, b0.free + 1, b0.free + 2;
    b0.Create(None).Create(None).Create(None)
      .MoveTo(header).Emit(ICondBr(Test(cond), bodyBlock, merge))
      .MoveTo(b0.cur).Emit(IBr(header, None))
      .MoveTo(bodyBlock)
  }

  /** The blocks of a bare loop, up to its body. */
  function LoopEntered(b0: BuildState): BuildState {
    b0.Create(None).Create(None).Emit(IBr(b0.free + 1, None)).MoveTo(b0.free + 1)
  }

  /** The blocks of a for loop, up to its body: bounds, guard against the empty
    * range, entry with the first value. */
  function ForEntry(b0: BuildState, x: Param, ty: ParamType, low: Expr, high: Expr, rev: bool): BuildState {
    var merge, bodyBlock, init := b0.free, b0.free + 2, b0.free + 3;
    b0.Create(None).Create(None).Create(Some(x)).Create(None)
      .EmitAll([IBound(Low(x), low), IBound(High(x), high), IConvert(Low(x), ty), IConvert(High(x), ty),
                ICondBr(NonEmpty(x), init, merge)])
      .MoveTo(init).Emit(IBr(bodyBlock, Some(if rev then High(x) else Low(x))))
      .MoveTo(bodyBlock)
  }

  /** Past the body of a for loop: test for the last value, then step. */
  function ForEnd(b2: BuildState, x: Param, ty: ParamType, rev: bool, merge: BlockId, step: BlockId,
                  bodyBlock: BlockId): BuildState {
    var b3 :=
      if b2.Terminated() then b2.Erase(step)
      else b2.Emit(ICondBr(AtLast(x, rev), merge, step))
             .MoveTo(step).EmitAll([IStep(x, ty, rev), IBr(bodyBlock, Some(Next(x)))]);
    b3.MoveTo(merge)
  }

  /** From the block that tests the first of `guards`: every branch left open
    * leads to `merge`, and so does a last guard that fails without an else. */
  function GenGuards(guards: Guards, merge: BlockId, loops: Loops, b0: BuildState): Option<BuildState>
    decreases guards, 0
  {
    match guards
    case NoElse => Some(b0)
    case Else(body) =>
      var b1 :- GenStmts(body, loops, b0);
      Some(b1.BranchIfOpen(merge))
    case Guard(cond, body, rest) =>
      var b1 :- GenStmts(body, loops, GuardEntry(b0, cond, rest, merge));
      GenGuards(rest, merge, loops, b1.BranchIfOpen(merge).MoveTo(if rest.NoElse? then merge else b0.free + 1))
  }

  /** Test a guard: its statements in a new block, and, unless it is the last and
    * there is no else, another one for what follows when it fails. */
  function GuardEntry(b0: BuildState, cond: Expr, rest: Guards, merge: BlockId): BuildState {
    var b1 := if rest.NoElse? then b0.Create(None) else b0.Create(None).Create(None);
    b1.Emit(ICondBr(Test(cond), b0.free, if rest.NoElse? then merge else b0.free + 1)).MoveTo(b0.free)
  }

  /** A sequence: what follows a terminator is unreachable, and skipped, up to a label. */
  function GenStmts(list: Stmts, loops: Loops, b0: BuildState): Option<BuildState>
    decreases list, 0
  {
    match list
    case Nil => Some(b0)
    case Cons(head, tail) =>
      if b0.Terminated() && !head.Labelled? then GenStmts(tail, loops, b0)
      else
        var b1 :- Gen(head, loops, b0);
        GenStmts(tail, loops, b1)
  }

  /** Where the emission of a body starts: an empty entry block. */
  const START := BuildState(map[0 := CfgBlock(None, [])], 0, 1, map[], [])

  /** The state after a subprogram body: a procedure left open returns. */
  function GenBody(body: Stmts, isProc: bool): Option<BuildState> {
    var b :- GenStmts(body, [], START);
    Some(if isProc && !b.Terminated() then b.Emit(IReturn(None)) else b)
  }
}
