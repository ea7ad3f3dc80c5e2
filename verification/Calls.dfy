/** Lowering calls to a value ABI, as functions, and why it keeps the meaning.
  *
  * A lowered subprogram takes snapshots in and returns final values out; the
  * caller converts and assigns them in association order. `CallsKeepMeaning`
  * shows that this is by-copy parameter passing (section 6.4.1 of the Ada
  * Reference Manual), whatever the modes, the order and the aliasing of actuals.
  */
module Calls {
  import opened Options
  import opened Ir
  import opened Lifting

  // --------------------------------------------------------- verified calls

  predicate Increasing(indices: seq<int>) {
    forall i, j :: 0 <= i < j < |indices| ==> indices[i] < indices[j]
  }

  /** Formal `i` gets a snapshot of its actual. */
  predicate Snapshot(formals: seq<Formal>, i: int) {
    0 <= i < |formals| && formals[i].Writable() && formals[i].NeedsInput()
  }

  /** Formal `i` is copied back through a dynamic range, given the actuals that have one. */
  predicate Ranged(formals: seq<Formal>, dynamic: seq<bool>, i: int) {
    0 <= i < |formals| && i < |dynamic| && formals[i].Writable() && dynamic[i]
  }

  /** The indices are in increasing order, and are exactly the formals in question. */
  ghost predicate MapsSnapshots(info: CallInfo, formals: seq<Formal>, count: nat) {
    && |info.initialFormals| == count && Increasing(info.initialFormals)
    && forall i :: i in info.initialFormals <==> Snapshot(formals, i)
  }

  ghost predicate MapsRanges(info: CallInfo, formals: seq<Formal>, dynamic: seq<bool>, count: nat) {
    && |info.rangeFormals| == count && Increasing(info.rangeFormals)
    && forall i :: i in info.rangeFormals <==> Ranged(formals, dynamic, i)
  }

  /** Every formal occurs exactly once. */
  ghost predicate Permutes(order: seq<int>, count: nat) {
    && |order| == count && (forall i :: i in order <==> 0 <= i < count)
    && forall i, j :: 0 <= i < j < |order| ==> order[i] != order[j]
  }

  /** What the verifiers promise about a call, with the actuals that have dynamic ranges. */
  ghost predicate Verified(op: Op, callee: Subp, dynamic: seq<bool>)
    requires op.AdaCall?
  {
    && |op.inputs| == |callee.params| && |op.info.targets| == |callee.formals|
    && (op.info.actualOrder.Some? ==> Permutes(op.info.actualOrder.value, |callee.formals|))
    && MapsSnapshots(op.info, callee.formals, |op.initials|)
    && MapsRanges(op.info, callee.formals, dynamic, |op.ranges|)
  }

  lemma FoundIn(indices: seq<int>, i: int)
    ensures Find(indices, i) < |indices| <==> i in indices
  {
  }

  // ----------------------------------------------------------- the value ABI

  /** The parameter that carries formal or capture `i`: a snapshot has a new name. */
  function ParamName(subp: Subp, p: Value, i: nat): Value
    requires i < |subp.params|
  {
    if i < |subp.formals| && subp.formals[i].Writable() then p + i else subp.params[i]
  }

  /** The parameters from formal `i` on: the formals that need an input, then the captures. */
  function AbiParams(subp: Subp, p: Value, i: nat): seq<Value>
    requires i <= |subp.formals| <= |subp.params|
    decreases |subp.formals| - i
  {
    if i == |subp.formals| then subp.params[i..]
    else if subp.formals[i].NeedsInput() then [ParamName(subp, p, i)] + AbiParams(subp, p, i + 1)
    else AbiParams(subp, p, i + 1)
  }

  /** On entry every writable formal denotes a new object. */
  function EntryCode(subp: Subp, p: Value, i: nat, rest: Code): Code
    requires i <= |subp.formals| <= |subp.params|
    decreases |subp.formals| - i
  {
    if i == |subp.formals| then rest
    else if subp.formals[i].Writable() then
      Do(Object(subp.params[i], if subp.formals[i].NeedsInput() then Some(p + i) else None),
         EntryCode(subp, p, i + 1, rest))
    else EntryCode(subp, p, i + 1, rest)
  }

  /** A return also returns the final value of every writable formal, in formal order. */
  function ReturnCode(subp: Subp, n: Value, i: nat, values: seq<Value>): Code
    requires i <= |subp.formals| <= |subp.params|
    decreases |subp.formals| - i
  {
    if i == |subp.formals| then Return(values)
    else if subp.formals[i].Writable() then
      var out := n + Rank(subp.formals, i);
      Do(Read(out, subp.params[i]), ReturnCode(subp, n, i + 1, values + [out]))
    else ReturnCode(subp, n, i + 1, values)
  }

  /** The conversion and the assignment of each output, in association order. */
  function CopyCode(formals: seq<Formal>, order: seq<int>, op: Op, n: Value, c: Value, rest: Code): Code
    requires op.AdaCall?
    decreases |order|
  {
    if order == [] then rest else
    var i := order[0];
    if 0 <= i < |formals| && i < |op.inputs| && i < |op.info.targets| && formals[i].Writable() then
      var range := Assigned(op.info.rangeFormals, op.ranges, i);
      Do(Eval(c, op.info.targets[i], [n + Rank(formals, i)] + if range.Some? then [range.value] else []),
         Do(Write(c, op.inputs[i]), CopyCode(formals, order[1..], op, n, c + 1, rest)))
    else CopyCode(formals, order[1..], op, n, c, rest)
  }

  /** A call, whose outputs are named from `n` on. */
  function CallCode(formals: seq<Formal>, op: Op, n: Value, rest: Code): Code
    requires op.AdaCall? && |formals| <= |op.inputs|
  {
    var w := Rank(formals, |formals|);
    Do(FuncCall(op.results + FreshFrom(n, w), op.callee, AbiArgs(formals, op.inputs, op.initials, op.info, 0)),
       CopyCode(formals, Order(op.info, |formals|), op, n, n + w, rest))
  }

  /** How many new values a call needs. */
  function CallNames(formals: seq<Formal>): nat { 2 * |formals| }

  /** The code of `f`, with new values numbered from `n`; also the next number. */
  function LowerCode(m: Module, f: Sym, code: Code, n: Value): (r: (Code, Value))
    requires f in m.subps && |m.subps[f].formals| <= |m.subps[f].params|
    ensures r.1 >= n
    decreases code
  {
    match code
    case Return(values) => (ReturnCode(m.subps[f], n, 0, values), n + |m.subps[f].formals|)
    case Do(op, rest) =>
      if op.AdaCall? && op.callee in m.subps && |m.subps[op.callee].formals| <= |op.inputs| then
        var formals := m.subps[op.callee].formals;
        var r := LowerCode(m, f, rest, n + CallNames(formals));
        (CallCode(formals, op, n, r.0), r.1)
      else
        var r := LowerCode(m, f, rest, n);
        (Do(op, r.0), r.1)
    case _ => (code, n)
  }

  // ----------------------------------------------------- sources and results

  /** An operation's results are not among its operands, and the entry block is not a
    * branch target. */
  ghost predicate CodeShape(m: Module, code: Code) {
    match code
    case Return(_) => true
    case Do(op, rest) =>
      && (op.AdaCall? && op.callee in m.subps ==> forall v :: v in op.results ==> v !in op.inputs && v !in op.ranges)
      && CodeShape(m, rest)
    case Br(target, _) => target != 0
    case CondBr(_, t, _, e, _) => t != 0 && e != 0
  }

  /** Every call has been verified, whichever of its actuals have dynamic ranges. */
  ghost predicate CodeVerified(m: Module, code: Code) {
    code.Do? ==>
      && (code.op.AdaCall? && code.op.callee in m.subps ==>
            exists dynamic :: Verified(code.op, m.subps[code.op.callee], dynamic))
      && CodeVerified(m, code.rest)
  }

  ghost predicate CodeTyped(m: Module, code: Code) {
    CodeShape(m, code) && CodeVerified(m, code)
  }

  /** The entry block is not a branch target, and parameters are not defined again. */
  ghost predicate SubpTyped(m: Module, f: Sym)
    requires f in m.subps
  {
    && (forall v :: v in m.subps[f].params ==> !DefinedIn(m.subps[f].blocks, v))
    && forall b :: 0 <= b < |m.subps[f].blocks| ==> CodeTyped(m, m.subps[f].blocks[b].code)
  }

  /** A flat module whose calls have all been verified. */
  ghost predicate Source(m: Module) {
    && WellFormed(m)
    && (forall f {:trigger LibraryLevel(m, f)} :: f in m.subps ==> LibraryLevel(m, f))
    && (forall f {:trigger SubpTyped(m, f)} :: f in m.subps ==> SubpTyped(m, f))
  }

  /** The numbers `lo .. hi - 1` are new values of `f`. */
  ghost predicate Fresh(m: Module, m': Module, f: Sym, lo: Value, hi: Value) {
    forall v :: lo <= v < hi ==> v !in m.home && v in m'.home && m'.home[v] == f
  }

  /** Where the numbering of new values starts: for the snapshots, and in each block. */
  datatype Names = Names(snapshots: Value, blocks: seq<Value>)

  function LowerBlock(m: Module, f: Sym, names: Names, b: nat): Block
    requires f in m.subps && |m.subps[f].formals| <= |m.subps[f].params| && b < |m.subps[f].blocks| == |names.blocks|
  {
    var block := m.subps[f].blocks[b];
    var code := LowerCode(m, f, block.code, names.blocks[b]).0;
    Block(block.args, if b == 0 then EntryCode(m.subps[f], names.snapshots, 0, code) else code)
  }

  ghost predicate SubpLowered(m: Module, m': Module, names: map<Sym, Names>, f: Sym)
    requires f in m.subps
  {
    && f in names && f in m'.subps
    && var subp, subp', at := m.subps[f], m'.subps[f], names[f];
    && |subp.formals| <= |subp.params| && |subp'.blocks| == |subp.blocks| == |at.blocks|
    && subp'.params == AbiParams(subp, at.snapshots, 0)
    && (forall b :: 0 <= b < |subp.blocks| ==> subp'.blocks[b] == LowerBlock(m, f, at, b))
    && Fresh(m, m', f, at.snapshots, at.snapshots + |subp.formals|)
    && forall b {:trigger at.blocks[b]} :: 0 <= b < |subp.blocks| ==>
         Fresh(m, m', f, at.blocks[b], LowerCode(m, f, subp.blocks[b].code, at.blocks[b]).1)
  }

  ghost predicate CallsLowered(m: Module, m': Module, names: map<Sym, Names>) {
    && m'.subps.Keys == m.subps.Keys && m'.path == m.path
    && (forall v {:trigger v in m'.home} {:trigger m'.home[v]} :: v in m.home ==>
          v in m'.home && m'.home[v] == m.home[v])
    && forall f {:trigger SubpLowered(m, m', names, f)} :: f in m.subps ==> SubpLowered(m, m', names, f)
  }
}
