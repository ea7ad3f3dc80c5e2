/** Lambda lifting as a relation between modules, and why it keeps the meaning.
  *
  * `LiftedFrom` relates a module of nested subprograms to a flat one in which
  * every subprogram takes the values it used from above as extra parameters.
  * `LiftingKeepsMeaning` shows that both run alike, whatever the input, store,
  * recursion depth and operations.
  */
module Lifting {
  import opened Options
  import opened Ir

  ghost predicate NoDup(vs: seq<Value>) {
    forall i, j :: 0 <= i < j < |vs| ==> vs[i] != vs[j]
  }

  /** The `count` values numbered from `next` on. */
  function FreshFrom(next: nat, count: nat): (r: seq<Value>)
    ensures |r| == count && forall i :: 0 <= i < count ==> r[i] == next + i
  {
    seq(count, i => next + i)
  }

  // --------------------------------------------------- the two code rewrites

  function Index(vs: seq<Value>, v: Value): (k: nat)
    requires v in vs
    ensures k < |vs| && vs[k] == v
  {
    if vs[0] == v then 0 else 1 + Index(vs[1..], v)
  }

  /** Replace the i-th of `from` by the i-th of `to`. */
  function Ren(from: seq<Value>, to: seq<Value>, v: Value): Value
    requires |from| == |to|
  {
    if v in from then to[Index(from, v)] else v
  }

  function RenAll(from: seq<Value>, to: seq<Value>, vs: seq<Value>): (r: seq<Value>)
    requires |from| == |to|
    ensures |r| == |vs|
    ensures forall i :: 0 <= i < |vs| ==> r[i] == Ren(from, to, vs[i])
  {
    seq(|vs|, i requires 0 <= i < |vs| => Ren(from, to, vs[i]))
  }

  function RenOp(from: seq<Value>, to: seq<Value>, op: Op): Op
    requires |from| == |to|
  {
    match op
    case Eval(res, fn, args) => Eval(res, fn, RenAll(from, to, args))
    case Object(res, initial) =>
      Object(res, if initial.Some? then Some(Ren(from, to, initial.value)) else None)
    case Read(res, ref) => Read(res, Ren(from, to, ref))
    case Write(val, ref) => Write(Ren(from, to, val), Ren(from, to, ref))
    case AdaCall(results, callee, inputs, initials, ranges, info) =>
      AdaCall(results, callee, RenAll(from, to, inputs), RenAll(from, to, initials), RenAll(from, to, ranges), info)
    case FuncCall(results, callee, inputs) => FuncCall(results, callee, RenAll(from, to, inputs))
  }

  function RenCode(from: seq<Value>, to: seq<Value>, code: Code): Code
    requires |from| == |to|
  {
    match code
    case Do(op, rest) => Do(RenOp(from, to, op), RenCode(from, to, rest))
    case Br(target, args) => Br(target, RenAll(from, to, args))
    case CondBr(cond, t, targs, e, eargs) =>
      CondBr(Ren(from, to, cond), t, RenAll(from, to, targs), e, RenAll(from, to, eargs))
    case Return(values) => Return(RenAll(from, to, values))
  }

  function RenBlocks(from: seq<Value>, to: seq<Value>, blocks: seq<Block>): (r: seq<Block>)
    requires |from| == |to|
    ensures |r| == |blocks|
    ensures forall b :: 0 <= b < |blocks| ==> r[b] == Block(blocks[b].args, RenCode(from, to, blocks[b].code))
  {
    seq(|blocks|, b requires 0 <= b < |blocks| => Block(blocks[b].args, RenCode(from, to, blocks[b].code)))
  }

  type Captures = map<Sym, seq<Value>>

  function CapturesOf(caps: Captures, g: Sym): seq<Value> {
    if g in caps then caps[g] else []
  }

  /** Pass the captures of each callee at every call to it. */
  function PassOp(caps: Captures, op: Op): Op {
    match op
    case AdaCall(results, callee, inputs, initials, ranges, info) =>
      AdaCall(results, callee, inputs + CapturesOf(caps, callee), initials, ranges, info)
    case _ => op
  }

  function PassCode(caps: Captures, code: Code): Code {
    match code
    case Do(op, rest) => Do(PassOp(caps, op), PassCode(caps, rest))
    case _ => code
  }

  function PassBlocks(caps: Captures, blocks: seq<Block>): (r: seq<Block>)
    ensures |r| == |blocks|
    ensures forall b :: 0 <= b < |blocks| ==> r[b] == Block(blocks[b].args, PassCode(caps, blocks[b].code))
  {
    seq(|blocks|, b requires 0 <= b < |blocks| => Block(blocks[b].args, PassCode(caps, blocks[b].code)))
  }

  /** A subprogram with capture values `own` lifted to parameters `lifted`. */
  function LiftSubp(caps: Captures, own: seq<Value>, lifted: seq<Value>, subp: Subp): Subp
    requires |own| == |lifted|
  {
    Subp(subp.params + lifted, subp.formals, RenBlocks(own, lifted, PassBlocks(caps, subp.blocks)))
  }

  // ------------------------------------------------------- well-formed input

  /** The lexical nesting is a forest: a prefix of a path is again a path. */
  ghost predicate ValidPath(m: Module, f: Sym)
    requires f in m.path
  {
    var p := m.path[f];
    && |p| > 0 && p[|p| - 1] == f
    && forall d :: 0 <= d < |p| ==> p[d] in m.path && m.path[p[d]] == p[..d + 1]
  }

  /** A callee is visible where everything around it is around the caller too. */
  ghost predicate Visible(m: Module, f: Sym, g: Sym)
    requires f in m.path && g in m.path && |m.path[g]| > 0
  {
    m.path[g][..|m.path[g]| - 1] <= m.path[f]
  }

  ghost predicate OpCallOk(m: Module, f: Sym, op: Op) {
    match op
    case AdaCall(_, g, inputs, _, _, _) =>
      && f in m.path && g in m.path && g in m.subps && |m.path[g]| > 0
      && Visible(m, f, g)
      && |inputs| == |m.subps[g].params|
    case FuncCall(_, _, _) => false
    case _ => true
  }

  ghost predicate CallsOk(m: Module, f: Sym, code: Code) {
    code.Do? ==> OpCallOk(m, f, code.op) && CallsOk(m, f, code.rest)
  }

  ghost predicate SubpOk(m: Module, f: Sym)
    requires f in m.subps && f in m.path
  {
    var subp := m.subps[f];
    && NoDup(subp.params)
    && |subp.formals| <= |subp.params|
    && (forall v :: v in subp.params ==> v in m.home && m.home[v] == f)
    && (forall v :: DefinedIn(subp.blocks, v) ==> v in m.home && m.home[v] == f)
    && (forall v :: UsedIn(subp.blocks, v) ==> v in m.home && m.home[v] in m.path[f])
    && (forall b :: 0 <= b < |subp.blocks| ==> CallsOk(m, f, subp.blocks[b].code))
  }

  /** What the dialect's verifiers and SSA form guarantee of a nested module. */
  ghost predicate WellFormed(m: Module) {
    && m.subps.Keys == m.path.Keys
    && (forall f {:trigger ValidPath(m, f)} :: f in m.path ==> ValidPath(m, f))
    && (forall f {:trigger SubpOk(m, f)} :: f in m.subps ==> SubpOk(m, f))
  }

  /** `f` is at library level, with nothing above it to capture from. */
  ghost predicate LibraryLevel(m: Module, f: Sym) {
    f in m.path && m.path[f] == [f]
  }

  // ------------------------------------------------------ the lifting relation

  /** Every value `f` uses, with the captures its callees need, is its own or captured. */
  ghost predicate Closed(m: Module, caps: Captures, f: Sym)
    requires f in m.subps
  {
    forall v :: UsedIn(PassBlocks(caps, m.subps[f].blocks), v) ==>
      (v in m.home && m.home[v] == f) || v in CapturesOf(caps, f)
  }

  /** The captures of `f` come from above it; its new parameters are new names. */
  ghost predicate NamesOk(m: Module, m': Module, caps: Captures, lifts: Captures, f: Sym)
    requires f in m.path
  {
    var own, lifted := CapturesOf(caps, f), CapturesOf(lifts, f);
    && |own| == |lifted| && NoDup(own) && NoDup(lifted)
    && (forall i :: 0 <= i < |lifted| ==> lifted[i] !in m.home && lifted[i] in m'.home && m'.home[lifted[i]] == f)
    && (forall v :: v in own ==> v in m.home && m.home[v] in m.path[f] && m.home[v] != f)
    && (LibraryLevel(m, f) || (f in m.subps && m.subps[f].blocks == []) ==> own == [])
    && LibraryLevel(m', f)
  }

  ghost predicate CodeLifted(m: Module, m': Module, caps: Captures, lifts: Captures, f: Sym)
    requires f in m.subps && f in m'.subps
  {
    var own, lifted := CapturesOf(caps, f), CapturesOf(lifts, f);
    |own| == |lifted| && m'.subps[f] == LiftSubp(caps, own, lifted, m.subps[f])
  }

  /** `m'` is `m` with the captures `caps` turned into the parameters `lifts`
    * and every subprogram at module level. */
  ghost predicate LiftedFrom(m: Module, m': Module, caps: Captures, lifts: Captures) {
    && m'.subps.Keys == m'.path.Keys == m.subps.Keys == m.path.Keys
    && (forall v {:trigger v in m'.home} {:trigger m'.home[v]} :: v in m.home ==>
          v in m'.home && m'.home[v] == m.home[v])
    && (forall f {:trigger NamesOk(m, m', caps, lifts, f)} :: f in m.subps ==> NamesOk(m, m', caps, lifts, f))
    && (forall f {:trigger Closed(m, caps, f)} :: f in m.subps ==> Closed(m, caps, f))
    && (forall f {:trigger CodeLifted(m, m', caps, lifts, f)} :: f in m.subps ==> CodeLifted(m, m', caps, lifts, f))
  }

  // ----------------------------------------------------------- binding frames

  lemma {:induction false} BindOther(frame: Frame, names: seq<Value>, vals: seq<Val>, v: Value)
    requires v !in names
    ensures v in Bind(frame, names, vals) <==> v in frame
    ensures v in frame ==> Bind(frame, names, vals)[v] == frame[v]
    decreases |names|
  {
    if names != [] && vals != [] {
      BindOther(frame[names[0] := vals[0]], names[1..], vals[1..], v);
    }
  }

  lemma {:induction false} BindAgree(a: Frame, b: Frame, names: seq<Value>, vals: seq<Val>, v: Value)
    requires (v in a <==> v in b) && (v in a ==> a[v] == b[v])
    ensures v in Bind(a, names, vals) <==> v in Bind(b, names, vals)
    ensures v in Bind(a, names, vals) ==> Bind(a, names, vals)[v] == Bind(b, names, vals)[v]
    decreases |names|
  {
    if names != [] && vals != [] {
      BindAgree(a[names[0] := vals[0]], b[names[0] := vals[0]], names[1..], vals[1..], v);
    }
  }

  lemma {:induction false} BindAt(frame: Frame, names: seq<Value>, vals: seq<Val>, i: nat)
    requires NoDup(names) && i < |names| == |vals|
    ensures names[i] in Bind(frame, names, vals) && Bind(frame, names, vals)[names[i]] == vals[i]
    decreases |names|
  {
    if i == 0 {
      BindOther(frame[names[0] := vals[0]], names[1..], vals[1..], names[0]);
    } else {
      BindAt(frame[names[0] := vals[0]], names[1..], vals[1..], i - 1);
    }
  }

  lemma {:induction false} BindConcat(frame: Frame, n1: seq<Value>, v1: seq<Val>, n2: seq<Value>, v2: seq<Val>)
    requires |n1| == |v1|
    ensures Bind(frame, n1 + n2, v1 + v2) == Bind(Bind(frame, n1, v1), n2, v2)
    decreases |n1|
  {
    if n1 == [] {
      assert n1 + n2 == n2 && v1 + v2 == v2;
    } else {
      assert (n1 + n2)[1..] == n1[1..] + n2 && (v1 + v2)[1..] == v1[1..] + v2;
      BindConcat(frame[n1[0] := v1[0]], n1[1..], v1[1..], n2, v2);
    }
  }

  // -------------------------------------------------------------- simulation

  /** An activation of nested `f` and one of lifted `f` agree: on the values of
    * `f` itself, and each lifted parameter holds what the capture denotes. */
  ghost predicate Related(m: Module, caps: Captures, lifts: Captures, f: Sym, chain: seq<Frame>, chain': seq<Frame>)
    requires f in m.path
  {
    var own, lifted := CapturesOf(caps, f), CapturesOf(lifts, f);
    && |chain| == |m.path[f]| > 0 && |chain'| == 1
    && (forall v :: v in m.home && m.home[v] == f ==>
        (v in chain[|chain| - 1] <==> v in chain'[0])
        && (v in chain'[0] ==> chain[|chain| - 1][v] == chain'[0][v]))
    && |own| == |lifted|
    && (forall i :: 0 <= i < |own| ==> lifted[i] in chain'[0] && chain'[0][lifted[i]] == Look(m, chain, own[i]))
  }

  /** What `f` uses in `code`, once its calls pass captures, is its own or captured. */
  ghost predicate CodeOk(m: Module, caps: Captures, f: Sym, code: Code)
    requires f in m.path
  {
    && (forall v :: v in Uses(PassCode(caps, code)) ==>
        (v in m.home && m.home[v] == f) || v in CapturesOf(caps, f))
    && (forall v :: v in Defs(code) ==> v in m.home && m.home[v] == f)
    && CallsOk(m, f, code)
  }

  lemma SameLook(m: Module, m': Module, caps: Captures, lifts: Captures, f: Sym,
                 chain: seq<Frame>, chain': seq<Frame>, v: Value)
    requires WellFormed(m) && LiftedFrom(m, m', caps, lifts) && f in m.subps
    requires Related(m, caps, lifts, f, chain, chain')
    requires (v in m.home && m.home[v] == f) || v in CapturesOf(caps, f)
    ensures Look(m', chain', Ren(CapturesOf(caps, f), CapturesOf(lifts, f), v)) == Look(m, chain, v)
  {
    var own, lifted := CapturesOf(caps, f), CapturesOf(lifts, f);
    assert NamesOk(m, m', caps, lifts, f);
    if v in own {
      var i := Index(own, v);
      assert chain'[0][lifted[i]] == Look(m, chain, own[i]) && m'.home[lifted[i]] == f;
    }
  }

  lemma SameLooks(m: Module, m': Module, caps: Captures, lifts: Captures, f: Sym,
                  chain: seq<Frame>, chain': seq<Frame>, vs: seq<Value>)
    requires WellFormed(m) && LiftedFrom(m, m', caps, lifts) && f in m.subps
    requires Related(m, caps, lifts, f, chain, chain')
    requires forall v :: v in vs ==> (v in m.home && m.home[v] == f) || v in CapturesOf(caps, f)
    ensures Looks(m', chain', RenAll(CapturesOf(caps, f), CapturesOf(lifts, f), vs)) == Looks(m, chain, vs)
  {
    forall i | 0 <= i < |vs| {
      SameLook(m, m', caps, lifts, f, chain, chain', vs[i]);
    }
  }

  /** Growing the innermost frames alike keeps activations related. */
  lemma ExtendRelated(m: Module, m': Module, caps: Captures, lifts: Captures, f: Sym,
                      chain: seq<Frame>, chain': seq<Frame>, names: seq<Value>, vals: seq<Val>)
    requires WellFormed(m) && LiftedFrom(m, m', caps, lifts) && f in m.subps
    requires Related(m, caps, lifts, f, chain, chain')
    requires forall v :: v in names ==> v in m.home && m.home[v] == f
    ensures Related(m, caps, lifts, f, Extend(chain, names, vals), Extend(chain', names, vals))
  {
    var own, lifted := CapturesOf(caps, f), CapturesOf(lifts, f);
    var top := |chain| - 1;
    assert NamesOk(m, m', caps, lifts, f);
    forall v | v in m.home && m.home[v] == f
      ensures (v in Bind(chain[top], names, vals) <==> v in Bind(chain'[0], names, vals))
           && (v in Bind(chain[top], names, vals) ==>
                 Bind(chain[top], names, vals)[v] == Bind(chain'[0], names, vals)[v])
    {
      BindAgree(chain[top], chain'[0], names, vals, v);
    }
    forall i | 0 <= i < |own|
      ensures lifted[i] in Bind(chain'[0], names, vals)
      ensures Bind(chain'[0], names, vals)[lifted[i]] == Look(m, Extend(chain, names, vals), own[i])
    {
      BindOther(chain'[0], names, vals, lifted[i]);
      AboveLook(m, f, chain, Extend(chain, names, vals), own[i]);
    }
  }

  /** A value from above `f` is looked up below the innermost frame. */
  lemma AboveLook(m: Module, f: Sym, chain: seq<Frame>, other: seq<Frame>, v: Value)
    requires WellFormed(m) && f in m.path
    requires v in m.home && m.home[v] in m.path[f] && m.home[v] != f
    requires |chain| >= |m.path[f]| - 1 && |other| >= |m.path[f]| - 1
    requires chain[..|m.path[f]| - 1] == other[..|m.path[f]| - 1]
    ensures Look(m, chain, v) == Look(m, other, v)
    ensures 0 <= Depth(m, m.home[v]) < |m.path[f]| - 1
  {
    assert ValidPath(m, f);
    var p := m.path[f];
    var d :| 0 <= d < |p| && p[d] == m.home[v];
    assert m.path[p[d]] == p[..d + 1];
    assert d < |p| - 1;
    assert chain[..|p| - 1][d] == other[..|p| - 1][d];
  }

  /** The rewrites only touch the operands of an operation. */
  lemma LiftOp(caps: Captures, from: seq<Value>, to: seq<Value>, op: Op)
    requires |from| == |to|
    ensures var op' := RenOp(from, to, PassOp(caps, op));
            && IsCall(op') == IsCall(op) && OpDefs(op') == OpDefs(op)
            && OpUses(op') == RenAll(from, to, OpUses(PassOp(caps, op)))
  {
  }

  lemma SameEffect(m: Module, m': Module, caps: Captures, lifts: Captures, prim: Prim, f: Sym, op: Op,
                   chain: seq<Frame>, chain': seq<Frame>, store: Store)
    requires WellFormed(m) && LiftedFrom(m, m', caps, lifts) && f in m.subps
    requires Related(m, caps, lifts, f, chain, chain') && !IsCall(op)
    requires forall v :: v in OpUses(op) ==> (v in m.home && m.home[v] == f) || v in CapturesOf(caps, f)
    ensures var op' := RenOp(CapturesOf(caps, f), CapturesOf(lifts, f), op);
            !IsCall(op') && Effect(prim, op', Looks(m', chain', OpUses(op')), store)
                         == Effect(prim, op, Looks(m, chain, OpUses(op)), store)
  {
    LiftOp(caps, CapturesOf(caps, f), CapturesOf(lifts, f), op);
    SameLooks(m, m', caps, lifts, f, chain, chain', OpUses(op));
  }

  /** The two runs of `code` agree step by step, over branches and calls. */
  lemma {:induction false} Simulates(m: Module, m': Module, caps: Captures, lifts: Captures, prim: Prim, f: Sym,
                  code: Code, chain: seq<Frame>, chain': seq<Frame>, store: Store, fuel: nat)
    requires WellFormed(m) && LiftedFrom(m, m', caps, lifts) && f in m.subps
    requires Related(m, caps, lifts, f, chain, chain')
    requires CodeOk(m, caps, f, code)
    ensures Exec(m, prim, f, code, chain, store, fuel)
         == Exec(m', prim, f, RenCode(CapturesOf(caps, f), CapturesOf(lifts, f), PassCode(caps, code)), chain', store,
                 fuel)
    decreases fuel, 2, code, 1
  {
    match code
    case Return(values) => SameLooks(m, m', caps, lifts, f, chain, chain', values);
    case Br(target, args) =>
      SameLooks(m, m', caps, lifts, f, chain, chain', args);
      SimulatesJump(m, m', caps, lifts, prim, f, target, Looks(m, chain, args), chain, chain', store, fuel);
    case CondBr(cond, t, targs, e, eargs) =>
      SameLook(m, m', caps, lifts, f, chain, chain', cond);
      SameLooks(m, m', caps, lifts, f, chain, chain', targs);
      SameLooks(m, m', caps, lifts, f, chain, chain', eargs);
      SimulatesJump(m, m', caps, lifts, prim, f, t, Looks(m, chain, targs), chain, chain', store, fuel);
      SimulatesJump(m, m', caps, lifts, prim, f, e, Looks(m, chain, eargs), chain, chain', store, fuel);
    case Do(op, rest) => SimulatesDo(m, m', caps, lifts, prim, f, op, rest, chain, chain', store, fuel);
  }

  /** One operation, then the rest. */
  lemma {:induction false} SimulatesDo(m: Module, m': Module, caps: Captures, lifts: Captures, prim: Prim, f: Sym,
                  op: Op, rest: Code, chain: seq<Frame>, chain': seq<Frame>, store: Store, fuel: nat)
    requires WellFormed(m) && LiftedFrom(m, m', caps, lifts) && f in m.subps
    requires Related(m, caps, lifts, f, chain, chain')
    requires CodeOk(m, caps, f, Do(op, rest))
    ensures Exec(m, prim, f, Do(op, rest), chain, store, fuel)
         == Exec(m', prim, f, RenCode(CapturesOf(caps, f), CapturesOf(lifts, f), PassCode(caps, Do(op, rest))), chain',
                 store, fuel)
    decreases fuel, 2, rest, 2
  {
    LiftOp(caps, CapturesOf(caps, f), CapturesOf(lifts, f), op);
    assert CodeOk(m, caps, f, rest);
    forall v | v in OpUses(PassOp(caps, op)) ensures v in Uses(PassCode(caps, Do(op, rest))) {}
    if IsCall(op) {
      SimulatesPerform(m, m', caps, lifts, prim, f, op, chain, chain', store, fuel);
      var o := Perform(m, prim, op, chain, store, fuel);
      if o.Returned? {
        ExtendRelated(m, m', caps, lifts, f, chain, chain', OpDefs(op), o.values);
        Simulates(m, m', caps, lifts, prim, f, rest,
                  Extend(chain, OpDefs(op), o.values), Extend(chain', OpDefs(op), o.values), o.store, fuel);
      }
    } else {
      SameEffect(m, m', caps, lifts, prim, f, op, chain, chain', store);
      var s := Effect(prim, op, Looks(m, chain, OpUses(op)), store);
      if s.Next? {
        ExtendRelated(m, m', caps, lifts, f, chain, chain', OpDefs(op), s.results);
        Simulates(m, m', caps, lifts, prim, f, rest,
                  Extend(chain, OpDefs(op), s.results), Extend(chain', OpDefs(op), s.results), s.store, fuel);
      }
    }
  }

  lemma {:induction false} SimulatesPerform(m: Module, m': Module, caps: Captures, lifts: Captures, prim: Prim, f: Sym,
                  op: Op, chain: seq<Frame>, chain': seq<Frame>, store: Store, fuel: nat)
    requires WellFormed(m) && LiftedFrom(m, m', caps, lifts) && f in m.subps
    requires Related(m, caps, lifts, f, chain, chain')
    requires op.AdaCall? && OpCallOk(m, f, op)
    requires forall v :: v in OpUses(PassOp(caps, op)) ==>
      (v in m.home && m.home[v] == f) || v in CapturesOf(caps, f)
    requires |CapturesOf(caps, f)| == |CapturesOf(lifts, f)|
    ensures Perform(m, prim, op, chain, store, fuel)
         == Perform(m', prim, RenOp(CapturesOf(caps, f), CapturesOf(lifts, f), PassOp(caps, op)), chain', store, fuel)
    decreases fuel, 1
  {
    var g, extra := op.callee, CapturesOf(caps, op.callee);
    SameLooks(m, m', caps, lifts, f, chain, chain', op.inputs + extra);
    SameLooks(m, m', caps, lifts, f, chain, chain', op.initials);
    SameLooks(m, m', caps, lifts, f, chain, chain', op.ranges);
    LooksConcat(m, chain, op.inputs, extra);
    var args := Looks(m, chain, op.inputs);
    assert SubpOk(m, g) && CodeLifted(m, m', caps, lifts, g);
    if ActualsExist(m.subps[g].formals, args, store) {
      var initials, formals := Looks(m, chain, op.initials), m.subps[g].formals;
      SimulatesActivate(m, m', caps, lifts, prim, f, g, op.info, args, initials, chain, chain', store, fuel);
      LeavePrefix(prim, formals, op.info, |op.results|, args, args + Looks(m, chain, extra), Looks(m, chain, op.ranges),
                  Activate(m, prim, g, op.info, args, initials, chain, store, fuel));
    }
  }

  lemma LooksConcat(m: Module, chain: seq<Frame>, vs: seq<Value>, ws: seq<Value>)
    ensures Looks(m, chain, vs + ws) == Looks(m, chain, vs) + Looks(m, chain, ws)
  {
  }

  lemma {:induction false} SimulatesActivate(m: Module, m': Module, caps: Captures, lifts: Captures, prim: Prim, f: Sym,
                                             g: Sym, info: CallInfo, args: seq<Val>, initials: seq<Val>,
                                             chain: seq<Frame>, chain': seq<Frame>, store: Store, fuel: nat)
    requires WellFormed(m) && LiftedFrom(m, m', caps, lifts) && f in m.subps && g in m.subps
    requires Related(m, caps, lifts, f, chain, chain')
    requires |m.path[g]| > 0 && Visible(m, f, g) && |m.subps[g].formals| <= |args| == |m.subps[g].params|
    requires m'.subps[g].formals == m.subps[g].formals
    ensures Activate(m, prim, g, info, args, initials, chain, store, fuel)
         == Activate(m', prim, g, info, args + Looks(m, chain, CapturesOf(caps, g)), initials, chain', store, fuel)
    decreases fuel, 0, 1
  {
    var formals := m.subps[g].formals;
    var extra := Looks(m, chain, CapturesOf(caps, g));
    assert NamesOk(m, m', caps, lifts, g) && CodeLifted(m, m', caps, lifts, g);
    if m.subps[g].blocks == [] {
      assert args + extra == args;
    } else {
      EnterPrefix(formals, args, args + extra, initials, info, store, 0);
      var entry := Enter(formals, args, initials, info, store, 0);
      var vals := entry.0 + args[|formals|..];
      assert entry.0 + (args + extra)[|formals|..] == vals + extra;
      SimulatesInvoke(m, m', caps, lifts, prim, f, g, vals, chain, chain', entry.1, fuel);
    }
  }

  lemma LeavePrefix(prim: Prim, formals: seq<Formal>, info: CallInfo, results: nat, args: seq<Val>, args': seq<Val>,
                    ranges: seq<Val>, o: Outcome)
    requires |formals| <= |args| && args <= args'
    ensures Leave(prim, formals, info, results, args', ranges, o)
      == Leave(prim, formals, info, results, args, ranges, o)
  {
    if o.Returned? && |o.values| >= results {
      CopyBackPrefix(prim, formals, Order(info, |formals|), o.values[results..], args, args', ranges, info, o.store);
    }
  }

  /** Captures appended after the source formals play no part in by-copy entry. */
  lemma {:induction false} EnterPrefix(formals: seq<Formal>, args: seq<Val>, args': seq<Val>, initials: seq<Val>,
                    info: CallInfo, store: Store, i: nat)
    requires i <= |formals| <= |args| && args <= args'
    ensures Enter(formals, args', initials, info, store, i) == Enter(formals, args, initials, info, store, i)
    decreases |formals| - i
  {
    if i < |formals| {
      var init := Assigned(info.initialFormals, initials, i);
      EnterPrefix(formals, args, args', initials, info, store, i + 1);
      EnterPrefix(formals, args, args', initials, info, store + [if init.Some? then init.value else Undef], i + 1);
    }
  }

  lemma {:induction false} CopyBackPrefix(prim: Prim, formals: seq<Formal>, order: seq<int>, finals: seq<Val>,
                       args: seq<Val>, args': seq<Val>, ranges: seq<Val>, info: CallInfo, store: Store)
    requires |formals| <= |args| && args <= args'
    ensures CopyBack(prim, formals, order, finals, args', ranges, info, store)
         == CopyBack(prim, formals, order, finals, args, ranges, info, store)
    decreases |order|
  {
    if order != [] {
      var i := order[0];
      CopyBackPrefix(prim, formals, order[1..], finals, args, args', ranges, info, store);
      if 0 <= i < |formals| && i < |info.targets| && Rank(formals, i) < |finals|
         && args[i].Ref? && args[i].loc < |store|
      {
        var x := prim.value(info.targets[i], ConvArgs(info, ranges, i, finals[Rank(formals, i)]));
        if x.Some? {
          CopyBackPrefix(prim, formals, order[1..], finals, args, args', ranges, info, store[args[i].loc := x.value]);
        }
      }
    }
  }

  lemma {:induction false} SimulatesJump(m: Module, m': Module, caps: Captures, lifts: Captures, prim: Prim, f: Sym,
                      target: nat, vals: seq<Val>, chain: seq<Frame>, chain': seq<Frame>, store: Store, fuel: nat)
    requires WellFormed(m) && LiftedFrom(m, m', caps, lifts) && f in m.subps
    requires Related(m, caps, lifts, f, chain, chain')
    ensures Jump(m, prim, f, target, vals, chain, store, fuel) == Jump(m', prim, f, target, vals, chain', store, fuel)
    decreases fuel, 0, 0
  {
    var blocks := m.subps[f].blocks;
    assert SubpOk(m, f) && CodeLifted(m, m', caps, lifts, f);
    if fuel > 0 && target < |blocks| {
      BlockOk(m, m', caps, lifts, f, target);
      assert forall v :: v in blocks[target].args ==> DefinedIn(blocks, v);
      ExtendRelated(m, m', caps, lifts, f, chain, chain', blocks[target].args, vals);
      Simulates(m, m', caps, lifts, prim, f, blocks[target].code,
                Extend(chain, blocks[target].args, vals), Extend(chain', blocks[target].args, vals), store, fuel - 1);
    }
  }

  lemma BlockOk(m: Module, m': Module, caps: Captures, lifts: Captures, f: Sym, b: nat)
    requires WellFormed(m) && LiftedFrom(m, m', caps, lifts) && f in m.subps
    requires b < |m.subps[f].blocks|
    ensures |CapturesOf(caps, f)| == |CapturesOf(lifts, f)| && |m'.subps[f].blocks| == |m.subps[f].blocks|
    ensures CodeOk(m, caps, f, m.subps[f].blocks[b].code)
    ensures m'.subps[f].blocks[b] == Block(m.subps[f].blocks[b].args,
              RenCode(CapturesOf(caps, f), CapturesOf(lifts, f), PassCode(caps, m.subps[f].blocks[b].code)))
  {
    var subp := m.subps[f];
    assert SubpOk(m, f) && Closed(m, caps, f) && CodeLifted(m, m', caps, lifts, f);
    forall v | v in Uses(PassCode(caps, subp.blocks[b].code))
      ensures (v in m.home && m.home[v] == f) || v in CapturesOf(caps, f)
    {
      var passed := PassBlocks(caps, subp.blocks);
      assert v in Uses(passed[b].code);
      assert UsedIn(passed, v);
    }
    forall v | v in Defs(subp.blocks[b].code) ensures v in m.home && m.home[v] == f {
      assert DefinedIn(subp.blocks, v);
    }
  }

  /** Entering a callee: the caller passes for each capture what the callee
    * would have found through its static link. */
  lemma {:induction false} SimulatesInvoke(m: Module, m': Module, caps: Captures, lifts: Captures, prim: Prim, f: Sym,
                                           g: Sym, vals: seq<Val>, chain: seq<Frame>, chain': seq<Frame>, store: Store,
                                           fuel: nat)
    requires WellFormed(m) && LiftedFrom(m, m', caps, lifts) && f in m.subps && g in m.subps
    requires Related(m, caps, lifts, f, chain, chain')
    requires |m.path[g]| > 0 && Visible(m, f, g) && |vals| == |m.subps[g].params|
    ensures Invoke(m, prim, g, vals, chain, store, fuel)
         == Invoke(m', prim, g, vals + Looks(m, chain, CapturesOf(caps, g)), chain', store, fuel)
    decreases fuel, 0, 0
  {
    assert CodeLifted(m, m', caps, lifts, g) && NamesOk(m, m', caps, lifts, g);
    if m.subps[g].blocks == [] {
      assert vals + Looks(m, chain, CapturesOf(caps, g)) == vals;
    } else if fuel > 0 {
      var own, lifted := CapturesOf(caps, g), CapturesOf(lifts, g);
      var params, captured := m.subps[g].params, Looks(m, chain, own);
      var d := Depth(m, g);
      assert d <= |chain| by { assert m.path[g][..d] <= m.path[f]; }
      var callee := chain[..d] + [Bind(map[], params, vals)];
      var callee' := [Bind(map[], params + lifted, vals + captured)];
      EnteredRelated(m, m', caps, lifts, f, g, vals, chain, chain');
      BlockOk(m, m', caps, lifts, g, 0);
      Simulates(m, m', caps, lifts, prim, g, m.subps[g].blocks[0].code, callee, callee', store, fuel - 1);
      assert chain'[..0] + callee' == callee';
      InvokeIs(m, prim, g, vals, chain, store, fuel);
      InvokeIs(m', prim, g, vals + captured, chain', store, fuel);
    }
  }

  lemma InvokeIs(m: Module, prim: Prim, g: Sym, vals: seq<Val>, chain: seq<Frame>, store: Store, fuel: nat)
    requires g in m.subps && m.subps[g].blocks != [] && 0 <= Depth(m, g) <= |chain| && fuel > 0
    ensures Invoke(m, prim, g, vals, chain, store, fuel)
         == Exec(m, prim, g, m.subps[g].blocks[0].code, chain[..Depth(m, g)] + [Bind(map[], m.subps[g].params, vals)],
                 store, fuel - 1)
  {
  }

  lemma EnteredRelated(m: Module, m': Module, caps: Captures, lifts: Captures, f: Sym, g: Sym,
                       vals: seq<Val>, chain: seq<Frame>, chain': seq<Frame>)
    requires WellFormed(m) && LiftedFrom(m, m', caps, lifts) && f in m.subps && g in m.subps
    requires Related(m, caps, lifts, f, chain, chain')
    requires |m.path[g]| > 0 && Visible(m, f, g) && |vals| == |m.subps[g].params|
    requires |m.path[g]| - 1 <= |chain|
    ensures Related(m, caps, lifts, g, chain[..|m.path[g]| - 1] + [Bind(map[], m.subps[g].params, vals)],
                    [Bind(map[], m.subps[g].params + CapturesOf(lifts, g),
                          vals + Looks(m, chain, CapturesOf(caps, g)))])
  {
    var own, lifted := CapturesOf(caps, g), CapturesOf(lifts, g);
    var params, captured := m.subps[g].params, Looks(m, chain, own);
    var d := |m.path[g]| - 1;
    var callee := chain[..d] + [Bind(map[], params, vals)];
    var callee' := [Bind(map[], params + lifted, vals + captured)];
    assert NamesOk(m, m', caps, lifts, g) && SubpOk(m, g);
    BindConcat(map[], params, vals, lifted, captured);
    forall v | v in m.home && m.home[v] == g
      ensures (v in callee[d] <==> v in callee'[0]) && (v in callee[d] ==> callee[d][v] == callee'[0][v])
    {
      BindOther(callee[d], lifted, captured, v);
    }
    forall i | 0 <= i < |own|
      ensures lifted[i] in callee'[0] && callee'[0][lifted[i]] == Look(m, callee, own[i])
    {
      BindAt(callee[d], lifted, captured, i);
      AboveLook(m, g, chain, callee, own[i]);
    }
  }

  /** Lambda lifting preserves meaning: a library-level subprogram returns the
    * same values, leaves the same objects, raises, or runs on, exactly as in
    * the nested program. */
  lemma LiftingKeepsMeaning(m: Module, m': Module, caps: Captures, lifts: Captures, prim: Prim, f: Sym,
                            vals: seq<Val>, store: Store, fuel: nat)
    requires WellFormed(m) && LiftedFrom(m, m', caps, lifts) && f in m.subps
    requires LibraryLevel(m, f) && |vals| == |m.subps[f].params|
    ensures Invoke(m, prim, f, vals, [], store, fuel) == Invoke(m', prim, f, vals, [], store, fuel)
  {
    var own, lifted := CapturesOf(caps, f), CapturesOf(lifts, f);
    assert NamesOk(m, m', caps, lifts, f) && CodeLifted(m, m', caps, lifts, f);
    if fuel > 0 && m.subps[f].blocks != [] {
      var chain := [Bind(map[], m.subps[f].params, vals)];
      assert m.subps[f].params + lifted == m.subps[f].params;
      var none: seq<Frame> := [];
      assert none[..0] + chain == chain;
      BlockOk(m, m', caps, lifts, f, 0);
      Simulates(m, m', caps, lifts, prim, f, m.subps[f].blocks[0].code, chain, chain, store, fuel - 1);
    }
  }

  /** So does a by-copy call of a library-level subprogram with formals. */
  lemma LiftingKeepsActivations(m: Module, m': Module, caps: Captures, lifts: Captures, prim: Prim, f: Sym,
                                info: CallInfo, args: seq<Val>, initials: seq<Val>, store: Store, fuel: nat)
    requires WellFormed(m) && LiftedFrom(m, m', caps, lifts) && f in m.subps
    requires LibraryLevel(m, f) && |m.subps[f].formals| <= |args| == |m.subps[f].params|
    ensures f in m'.subps && m'.subps[f].formals == m.subps[f].formals && |m'.subps[f].params| == |m.subps[f].params|
    ensures Activate(m, prim, f, info, args, initials, [], store, fuel)
      == Activate(m', prim, f, info, args, initials, [], store, fuel)
  {
    var formals := m.subps[f].formals;
    assert NamesOk(m, m', caps, lifts, f) && CodeLifted(m, m', caps, lifts, f);
    var entry := Enter(formals, args, initials, info, store, 0);
    LiftingKeepsMeaning(m, m', caps, lifts, prim, f, entry.0 + args[|formals|..], entry.1, fuel);
  }

  // ------------------------------------------------------------- flat result

  lemma {:induction false} LiftedCalls(m: Module, m': Module, caps: Captures, lifts: Captures, f: Sym,
                                       own: seq<Value>, lifted: seq<Value>, code: Code)
    requires WellFormed(m) && LiftedFrom(m, m', caps, lifts) && f in m.subps && |own| == |lifted|
    requires CallsOk(m, f, code)
    ensures CallsOk(m', f, RenCode(own, lifted, PassCode(caps, code)))
  {
    if code.Do? {
      LiftedCalls(m, m', caps, lifts, f, own, lifted, code.rest);
      if code.op.AdaCall? {
        var g := code.op.callee;
        assert NamesOk(m, m', caps, lifts, g) && CodeLifted(m, m', caps, lifts, g) && NamesOk(m, m', caps, lifts, f);
      }
    }
  }

  lemma RenamedAmong(from: seq<Value>, to: seq<Value>, vs: seq<Value>, v: Value)
    requires |from| == |to| && v in RenAll(from, to, vs)
    ensures v in to || (v in vs && v !in from)
  {
    var i :| 0 <= i < |vs| && RenAll(from, to, vs)[i] == v;
    if vs[i] in from { assert to[Index(from, vs[i])] in to; }
  }

  lemma {:induction false} RenamedUses(from: seq<Value>, to: seq<Value>, code: Code, v: Value)
    requires |from| == |to| && v in Uses(RenCode(from, to, code))
    ensures v in to || (v in Uses(code) && v !in from)
  {
    match code
    case Do(op, rest) =>
      if v in Uses(RenCode(from, to, rest)) {
        RenamedUses(from, to, rest, v);
      } else {
        assert OpUses(RenOp(from, to, op)) == RenAll(from, to, OpUses(op));
        RenamedAmong(from, to, OpUses(op), v);
      }
    case Br(_, args) => RenamedAmong(from, to, args, v);
    case CondBr(cond, _, targs, _, eargs) =>
      assert Uses(RenCode(from, to, code)) == RenAll(from, to, [cond] + targs + eargs);
      RenamedAmong(from, to, [cond] + targs + eargs, v);
    case Return(values) => RenamedAmong(from, to, values, v);
  }

  lemma {:induction false} RenamedDefs(caps: Captures, from: seq<Value>, to: seq<Value>, code: Code)
    requires |from| == |to|
    ensures Defs(RenCode(from, to, PassCode(caps, code))) == Defs(code)
  {
    if code.Do? { RenamedDefs(caps, from, to, code.rest); }
  }

  /** A lifted module is flat: no value is used outside the subprogram that
    * defines it, and every call passes as many arguments as its callee takes. */
  lemma LiftedIsFlat(m: Module, m': Module, caps: Captures, lifts: Captures)
    requires WellFormed(m) && LiftedFrom(m, m', caps, lifts)
    ensures WellFormed(m')
    ensures forall f :: f in m'.subps ==> LibraryLevel(m', f)
    ensures forall f, v :: f in m'.subps && UsedIn(m'.subps[f].blocks, v) ==> v in m'.home && m'.home[v] == f
  {
    forall f | f in m'.subps
      ensures ValidPath(m', f) && SubpOk(m', f) && LibraryLevel(m', f)
      ensures forall v :: UsedIn(m'.subps[f].blocks, v) ==> v in m'.home && m'.home[v] == f
    {
      assert NamesOk(m, m', caps, lifts, f);
      FlatSubp(m, m', caps, lifts, f);
    }
  }

  lemma FlatSubp(m: Module, m': Module, caps: Captures, lifts: Captures, f: Sym)
    requires WellFormed(m) && LiftedFrom(m, m', caps, lifts) && f in m.subps
    ensures SubpOk(m', f)
    ensures forall v :: UsedIn(m'.subps[f].blocks, v) ==> v in m'.home && m'.home[v] == f
  {
    var own, lifted := CapturesOf(caps, f), CapturesOf(lifts, f);
    var blocks, blocks' := m.subps[f].blocks, m'.subps[f].blocks;
    assert NamesOk(m, m', caps, lifts, f) && SubpOk(m, f) && CodeLifted(m, m', caps, lifts, f);
    forall b | 0 <= b < |blocks| ensures CallsOk(m', f, blocks'[b].code) {
      LiftedCalls(m, m', caps, lifts, f, own, lifted, blocks[b].code);
    }
    forall v | DefinedIn(blocks', v) || UsedIn(blocks', v) ensures v in m'.home && m'.home[v] == f {
      FlatValue(m, m', caps, lifts, f, v);
    }
  }

  /** What a lifted body defines or uses is its own. */
  lemma FlatValue(m: Module, m': Module, caps: Captures, lifts: Captures, f: Sym, v: Value)
    requires WellFormed(m) && LiftedFrom(m, m', caps, lifts) && f in m.subps
    requires DefinedIn(m'.subps[f].blocks, v) || UsedIn(m'.subps[f].blocks, v)
    ensures v in m'.home && m'.home[v] == f
  {
    var own, lifted := CapturesOf(caps, f), CapturesOf(lifts, f);
    var blocks, blocks' := m.subps[f].blocks, m'.subps[f].blocks;
    assert NamesOk(m, m', caps, lifts, f) && SubpOk(m, f) && CodeLifted(m, m', caps, lifts, f);
    if DefinedIn(blocks', v) {
      var b :| 0 <= b < |blocks'| && (v in blocks'[b].args || v in Defs(blocks'[b].code));
      RenamedDefs(caps, own, lifted, blocks[b].code);
      assert DefinedIn(blocks, v);
    } else {
      var b :| 0 <= b < |blocks'| && v in Uses(blocks'[b].code);
      RenamedUses(own, lifted, PassCode(caps, blocks[b].code), v);
      if v in lifted {
        var i :| 0 <= i < |lifted| && lifted[i] == v;
      } else {
        assert v in Uses(PassBlocks(caps, blocks)[b].code);
        assert UsedIn(PassBlocks(caps, blocks), v);
        assert Closed(m, caps, f);
      }
    }
  }
}
