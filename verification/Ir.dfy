/** The dialect's intermediate representation, and what running it means.
  *
  * A module is a forest of subprograms. Each subprogram's body is a region of
  * basic blocks; a body may use the SSA values of every lexically enclosing
  * subprogram. `Exec` gives the lexically scoped meaning with explicit static
  * links: an activation carries the chain of the frames that enclose it.
  */
module Ir {
  import opened Options

  /** Symbols and SSA values are identified by number: neither the text of a
    * name nor the type of a value matters to the passes modelled over this IR. */
  type Sym = nat
  type Value = nat

  /** What an SSA value holds at run time. `Undef` is a value that has not been
    * computed yet in the frame it belongs to. `Bounds` is a range descriptor. */
  datatype Val = Undef | Int(i: int) | Bounds(lo: int, hi: int) | Ref(loc: nat)

  type Store = seq<Val>
  type Frame = map<Value, Val>

  /** What the semantics takes as given: the value of a value-computing operation, by its
    * number, none being a raise; and what an external subprogram does with the values
    * passed in. It answers with its results, then the final values of its writable formals. */
  datatype Prim = Prim(value: (nat, seq<Val>) -> Option<Val>, external: (Sym, seq<Val>, Store) -> Answer)
  datatype Answer = Answer(values: seq<Val>, store: Store) | Throws(store: Store)

  datatype Mode = In | InOut | Out

  /** A source formal; `defaulted` holds when its type has a default value, so
    * that even an `out` formal starts from the actual's value. */
  datatype Formal = Formal(mode: Mode, defaulted: bool) {
    predicate Writable() { mode != In }
    predicate NeedsInput() { mode != Out || defaulted }
  }

  /** The index-valued attributes of a call, and for each source formal the
    * conversion to the nominal subtype of its actual. */
  datatype CallInfo = CallInfo(
    initialFormals: seq<int>,
    rangeFormals: seq<int>,
    actualOrder: Option<seq<int>>,
    targets: seq<nat>)

  datatype Op =
    | Eval(res: Value, fn: nat, args: seq<Value>)
    | Object(res: Value, initial: Option<Value>)
    | Read(res: Value, ref: Value)
    | Write(val: Value, ref: Value)
    // ada.call: logical arguments (source formals, then captures), the values
    // snapshotted for formals that need one, and the dynamic copy-back ranges
    | AdaCall(results: seq<Value>, callee: Sym, inputs: seq<Value>,
              initials: seq<Value>, ranges: seq<Value>, info: CallInfo)
    // func.call: values in, a tuple of values out
    | FuncCall(results: seq<Value>, callee: Sym, inputs: seq<Value>)

  /** The operations of a block, up to its terminator. */
  datatype Code =
    | Do(op: Op, rest: Code)
    | Br(target: nat, args: seq<Value>)
    | CondBr(cond: Value, onTrue: nat, trueArgs: seq<Value>, onFalse: nat, falseArgs: seq<Value>)
    | Return(values: seq<Value>)

  datatype Block = Block(args: seq<Value>, code: Code)

  /** The parameters are the source formals, then the captures: a parameter at
    * or after `|formals|` is one that carries the capture attribute. A subprogram
    * without blocks is external. */
  datatype Subp = Subp(params: seq<Value>, formals: seq<Formal>, blocks: seq<Block>)

  /** `path[f]` lists the subprograms around `f`, outermost first, ending in `f`;
    * `home[v]` is the subprogram whose region defines `v`. */
  datatype Module = Module(subps: map<Sym, Subp>, path: map<Sym, seq<Sym>>, home: map<Value, Sym>)

  // ---------------------------------------------------------------- meaning

  datatype Outcome =
    | Returned(values: seq<Val>, store: Store)
    | Raised(store: Store)
    | Timeout
    | Stuck

  /** The frame on the chain that holds the values of subprogram `f`. */
  function Depth(m: Module, f: Sym): int {
    if f in m.path then |m.path[f]| - 1 else -1
  }

  function Look(m: Module, chain: seq<Frame>, v: Value): Val {
    if v !in m.home then Undef else
    var d := Depth(m, m.home[v]);
    if 0 <= d < |chain| && v in chain[d] then chain[d][v] else Undef
  }

  function Looks(m: Module, chain: seq<Frame>, vs: seq<Value>): (r: seq<Val>)
    ensures |r| == |vs|
    ensures forall i :: 0 <= i < |vs| ==> r[i] == Look(m, chain, vs[i])
  {
    seq(|vs|, i requires 0 <= i < |vs| => Look(m, chain, vs[i]))
  }

  function Bind(frame: Frame, names: seq<Value>, vals: seq<Val>): Frame
    decreases |names|
  {
    if names == [] || vals == [] then frame
    else Bind(frame[names[0] := vals[0]], names[1..], vals[1..])
  }

  /** The chain with its innermost frame extended. */
  function Extend(chain: seq<Frame>, names: seq<Value>, vals: seq<Val>): (r: seq<Frame>)
    requires |chain| > 0
    ensures |r| == |chain|
  {
    chain[|chain| - 1 := Bind(chain[|chain| - 1], names, vals)]
  }

  /** The position of `i` in `indices`, or its length. */
  function Find(indices: seq<int>, i: int): (k: nat)
    ensures k <= |indices|
    ensures k < |indices| ==> indices[k] == i
    ensures i in indices ==> k < |indices|
    ensures forall j :: 0 <= j < k ==> indices[j] != i
  {
    if indices == [] || indices[0] == i then 0 else 1 + Find(indices[1..], i)
  }

  /** The operand that an index attribute assigns to formal `i`. */
  function Assigned<T>(indices: seq<int>, operands: seq<T>, i: int): Option<T> {
    var k := Find(indices, i);
    if k < |indices| && k < |operands| then Some(operands[k]) else None
  }

  /** By-copy entry (section 6.4.1 of the Ada Reference Manual): every writable
    * formal denotes a fresh object, initialised from its snapshot if it has one.
    * Yields what the callee's formals denote, and the extended store. */
  function Enter(formals: seq<Formal>, args: seq<Val>, initials: seq<Val>, info: CallInfo,
                 store: Store, i: nat): (r: (seq<Val>, Store))
    requires i <= |formals| <= |args|
    ensures |r.0| == |formals| - i
    ensures |r.1| >= |store|
    ensures r.1[..|store|] == store
    decreases |formals| - i
  {
    if i == |formals| then ([], store)
    else if !formals[i].Writable() then
      var rest := Enter(formals, args, initials, info, store, i + 1);
      ([args[i]] + rest.0, rest.1)
    else
      var init := Assigned(info.initialFormals, initials, i);
      var rest := Enter(formals, args, initials, info,
                        store + [if init.Some? then init.value else Undef], i + 1);
      ([Ref(|store|)] + rest.0, rest.1)
  }

  /** The operands of the conversion into the nominal subtype of actual `i`. */
  function ConvArgs(info: CallInfo, ranges: seq<Val>, i: int, value: Val): seq<Val> {
    match Assigned(info.rangeFormals, ranges, i)
    case None => [value]
    case Some(range) => [value, range]
  }

  /** What is passed for formal `i`: its snapshot, or for an `in` formal the argument. */
  function Passed<T>(formals: seq<Formal>, args: seq<T>, initials: seq<T>, info: CallInfo, i: nat): T
    requires i < |formals| <= |args|
  {
    var init := Assigned(info.initialFormals, initials, i);
    if formals[i].Writable() && init.Some? then init.value else args[i]
  }

  /** What is passed by value from formal `i` on: for the formals that need an input, then
    * the captures. */
  function AbiArgs<T>(formals: seq<Formal>, args: seq<T>, initials: seq<T>, info: CallInfo, i: nat): seq<T>
    requires i <= |formals| <= |args|
    decreases |formals| - i
  {
    if i == |formals| then args[i..]
    else if formals[i].NeedsInput() then
      [Passed(formals, args, initials, info, i)] + AbiArgs(formals, args, initials, info, i + 1)
    else AbiArgs(formals, args, initials, info, i + 1)
  }

  datatype Copied = Copied(store: Store) | CopyRaised(store: Store) | CopyStuck

  /** How many of the first `i` formals are writable: the position of the final
    * value of formal `i` among the outputs. */
  function Rank(formals: seq<Formal>, i: nat): (r: nat)
    requires i <= |formals|
    ensures r <= i
  {
    if i == 0 then 0 else Rank(formals, i - 1) + if formals[i - 1].Writable() then 1 else 0
  }

  function FinalOf(denoted: Val, store: Store): Val {
    if denoted.Ref? && denoted.loc < |store| then store[denoted.loc] else Undef
  }

  /** The final values of the writable formals from `i` on. */
  function Finals(formals: seq<Formal>, denoted: seq<Val>, store: Store, i: nat): (r: seq<Val>)
    requires i <= |formals| <= |denoted|
    decreases |formals| - i
  {
    if i == |formals| then []
    else if formals[i].Writable() then [FinalOf(denoted[i], store)] + Finals(formals, denoted, store, i + 1)
    else Finals(formals, denoted, store, i + 1)
  }

  /** By-copy return: in association order, convert the final value of each writable
    * formal to the actual's subtype, and assign it. */
  function CopyBack(prim: Prim, formals: seq<Formal>, order: seq<int>, finals: seq<Val>,
                    args: seq<Val>, ranges: seq<Val>, info: CallInfo, store: Store): (r: Copied)
    ensures r.Copied? ==> |r.store| == |store|
    ensures r.CopyRaised? ==> |r.store| == |store|
  {
    if order == [] then Copied(store) else
    var i := order[0];
    if !(0 <= i < |formals| && i < |args| && i < |info.targets|) then CopyStuck
    else if !formals[i].Writable() then
      CopyBack(prim, formals, order[1..], finals, args, ranges, info, store)
    else if !(Rank(formals, i) < |finals| && args[i].Ref? && args[i].loc < |store|) then CopyStuck
    else match prim.value(info.targets[i], ConvArgs(info, ranges, i, finals[Rank(formals, i)]))
      case None => CopyRaised(store)
      case Some(x) =>
        CopyBack(prim, formals, order[1..], finals, args, ranges, info, store[args[i].loc := x])
  }

  /** Absence of an association order means formal order. */
  function Order(info: CallInfo, count: nat): seq<int> {
    match info.actualOrder
    case Some(order) => order
    case None => seq(count, i => i)
  }

  /** Every writable actual designates an object that exists at the call. */
  predicate ActualsExist(formals: seq<Formal>, args: seq<Val>, store: Store)
    requires |formals| <= |args|
  {
    forall i :: 0 <= i < |formals| && formals[i].Writable() ==> args[i].Ref? && args[i].loc < |store|
  }

  /** What an operation other than a call does, given its operands' values:
    * the values of its results and the store it leaves. */
  datatype Step = Next(results: seq<Val>, store: Store) | StepRaises | StepStuck

  function Effect(prim: Prim, op: Op, operands: seq<Val>, store: Store): (s: Step)
    requires !IsCall(op) && |operands| == |OpUses(op)|
    ensures s.Next? ==> |s.store| >= |store|
  {
    match op
    case Eval(_, fn, _) =>
      (match prim.value(fn, operands)
       case None => StepRaises
       case Some(x) => Next([x], store))
    case Object(_, initial) =>
      Next([Ref(|store|)], store + [if initial.Some? then operands[0] else Undef])
    case Read(_, _) =>
      var r := operands[0];
      if r.Ref? && r.loc < |store| then Next([store[r.loc]], store) else StepStuck
    case Write(_, _) =>
      var r := operands[1];
      if r.Ref? && r.loc < |store| then Next([], store[r.loc := operands[0]]) else StepStuck
  }

  /** Run `code` of subprogram `f` in the activation on top of `chain`. Fuel is
    * spent by branches and calls. */
  function Exec(m: Module, prim: Prim, f: Sym, code: Code, chain: seq<Frame>, store: Store, fuel: nat): (o: Outcome)
    requires |chain| > 0
    ensures o.Returned? ==> |o.store| >= |store|
    ensures o.Raised? ==> |o.store| >= |store|
    decreases fuel, 2, code
  {
    match code
    case Return(values) => Returned(Looks(m, chain, values), store)
    case Br(target, args) => Jump(m, prim, f, target, Looks(m, chain, args), chain, store, fuel)
    case CondBr(cond, t, targs, e, eargs) =>
      if Look(m, chain, cond) == Int(1) then Jump(m, prim, f, t, Looks(m, chain, targs), chain, store, fuel)
      else if Look(m, chain, cond) == Int(0) then Jump(m, prim, f, e, Looks(m, chain, eargs), chain, store, fuel)
      else Stuck
    case Do(op, rest) =>
      if IsCall(op) then
        var o := Perform(m, prim, op, chain, store, fuel);
        if o.Returned? then Exec(m, prim, f, rest, Extend(chain, OpDefs(op), o.values), o.store, fuel) else o
      else
        match Effect(prim, op, Looks(m, chain, OpUses(op)), store)
        case Next(results, store') => Exec(m, prim, f, rest, Extend(chain, OpDefs(op), results), store', fuel)
        case StepRaises => Raised(store)
        case StepStuck => Stuck
  }

  /** Perform a call: by copy for `ada.call`, plainly for `func.call`. */
  function Perform(m: Module, prim: Prim, op: Op, chain: seq<Frame>, store: Store, fuel: nat): (o: Outcome)
    requires IsCall(op)
    ensures o.Returned? ==> |o.store| >= |store|
    ensures o.Raised? ==> |o.store| >= |store|
    decreases fuel, 1
  {
    var args := Looks(m, chain, op.inputs);
    if op.FuncCall? then Invoke(m, prim, op.callee, args, chain, store, fuel)
    else if op.callee !in m.subps then Stuck else
    var formals := m.subps[op.callee].formals;
    if |args| < |formals| || !ActualsExist(formals, args, store) then Stuck else
    Leave(prim, formals, op.info, |op.results|, args, Looks(m, chain, op.ranges),
          Activate(m, prim, op.callee, op.info, args, Looks(m, chain, op.initials), chain, store, fuel))
  }

  /** What a by-copy call of `callee` makes it do: its results, then the final values of
    * its writable formals. */
  function Activate(m: Module, prim: Prim, callee: Sym, info: CallInfo, args: seq<Val>, initials: seq<Val>,
                    chain: seq<Frame>, store: Store, fuel: nat): (o: Outcome)
    requires callee in m.subps && |m.subps[callee].formals| <= |args|
    ensures o.Returned? ==> |o.store| >= |store|
    ensures o.Raised? ==> |o.store| >= |store|
    decreases fuel, 0, 1
  {
    var formals := m.subps[callee].formals;
    if m.subps[callee].blocks == [] then
      if fuel == 0 then Timeout else External(prim, callee, AbiArgs(formals, args, initials, info, 0), store)
    else
      var entry := Enter(formals, args, initials, info, store, 0);
      WithFinals(formals, entry.0, Invoke(m, prim, callee, entry.0 + args[|formals|..], chain, entry.1, fuel))
  }

  /** A subprogram whose writable formals denote `denoted` also yields their final values. */
  function WithFinals(formals: seq<Formal>, denoted: seq<Val>, o: Outcome): (r: Outcome)
    requires |formals| <= |denoted|
    ensures r.Returned? || r.Raised? ==> (o.Returned? || o.Raised?) && r.store == o.store
  {
    if o.Returned? then Returned(o.values + Finals(formals, denoted, o.store, 0), o.store) else o
  }

  /** Finish a by-copy call whose callee ended in `o`: only a normal return copies back. */
  function Leave(prim: Prim, formals: seq<Formal>, info: CallInfo, results: nat, args: seq<Val>, ranges: seq<Val>,
                 o: Outcome): (r: Outcome)
    ensures r.Returned? || r.Raised? ==> (o.Returned? || o.Raised?) && |r.store| == |o.store|
  {
    if !o.Returned? then o
    else if |o.values| != results + Rank(formals, |formals|) then Stuck
    else match CopyBack(prim, formals, Order(info, |formals|), o.values[results..], args, ranges, info, o.store)
      case Copied(store') => Returned(o.values[..results], store')
      case CopyRaised(store') => Raised(store')
      case CopyStuck => Stuck
  }

  /** An external subprogram: whatever it does, objects stay. */
  function External(prim: Prim, callee: Sym, vals: seq<Val>, store: Store): (o: Outcome)
    ensures o.Returned? ==> |o.store| >= |store|
    ensures o.Raised? ==> |o.store| >= |store|
  {
    match prim.external(callee, vals, store)
    case Answer(values, store') => if |store'| >= |store| then Returned(values, store') else Stuck
    case Throws(store') => if |store'| >= |store| then Raised(store') else Stuck
  }

  function Jump(m: Module, prim: Prim, f: Sym, target: nat, vals: seq<Val>, chain: seq<Frame>, store: Store,
                fuel: nat): (o: Outcome)
    requires |chain| > 0
    ensures o.Returned? ==> |o.store| >= |store|
    ensures o.Raised? ==> |o.store| >= |store|
    decreases fuel, 0, 0
  {
    if fuel == 0 then Timeout
    else if f !in m.subps || target >= |m.subps[f].blocks| then Stuck
    else
      var block := m.subps[f].blocks[target];
      Exec(m, prim, f, block.code, Extend(chain, block.args, vals), store, fuel - 1)
  }

  /** Enter `callee`: its static link is the caller's chain cut at the callee's
    * own depth, and its frame binds the parameters. */
  function Invoke(m: Module, prim: Prim, callee: Sym, vals: seq<Val>, chain: seq<Frame>, store: Store,
                  fuel: nat): (o: Outcome)
    ensures o.Returned? ==> |o.store| >= |store|
    ensures o.Raised? ==> |o.store| >= |store|
    decreases fuel, 0, 0
  {
    if fuel == 0 then Timeout
    else if callee !in m.subps then Stuck
    else if m.subps[callee].blocks == [] then External(prim, callee, vals, store)
    else
      var d := Depth(m, callee);
      if !(0 <= d <= |chain|) then Stuck else
      var subp := m.subps[callee];
      Exec(m, prim, callee, subp.blocks[0].code, chain[..d] + [Bind(map[], subp.params, vals)], store, fuel - 1)
  }

  // ---------------------------------------------------------- uses and calls

  function OpUses(op: Op): seq<Value> {
    match op
    case Eval(_, _, args) => args
    case Object(_, initial) => if initial.Some? then [initial.value] else []
    case Read(_, ref) => [ref]
    case Write(val, ref) => [val, ref]
    case AdaCall(_, _, inputs, initials, ranges, _) => inputs + initials + ranges
    case FuncCall(_, _, inputs) => inputs
  }

  function OpDefs(op: Op): seq<Value> {
    match op
    case Eval(res, _, _) => [res]
    case Object(res, _) => [res]
    case Read(res, _) => [res]
    case Write(_, _) => []
    case AdaCall(results, _, _, _, _, _) => results
    case FuncCall(results, _, _) => results
  }

  /** The operands in `code`, in order. */
  function Uses(code: Code): seq<Value> {
    match code
    case Do(op, rest) => OpUses(op) + Uses(rest)
    case Br(_, args) => args
    case CondBr(cond, _, targs, _, eargs) => [cond] + targs + eargs
    case Return(values) => values
  }

  function Defs(code: Code): seq<Value> {
    match code
    case Do(op, rest) => OpDefs(op) + Defs(rest)
    case _ => []
  }

  predicate IsCall(op: Op) { op.AdaCall? || op.FuncCall? }

  predicate Calls(code: Code, g: Sym) {
    code.Do? && ((IsCall(code.op) && code.op.callee == g) || Calls(code.rest, g))
  }

  /** Whether some block of `blocks` uses `v`, defines `v`, or calls `g`. */
  predicate UsedIn(blocks: seq<Block>, v: Value) {
    exists b :: 0 <= b < |blocks| && v in Uses(blocks[b].code)
  }

  predicate DefinedIn(blocks: seq<Block>, v: Value) {
    exists b :: 0 <= b < |blocks| && (v in blocks[b].args || v in Defs(blocks[b].code))
  }

  predicate CalledIn(blocks: seq<Block>, g: Sym) {
    exists b :: 0 <= b < |blocks| && Calls(blocks[b].code, g)
  }
}
