/** For loops run exactly once for each value of their range, in order, and their
  * step never leaves the range of the machine type.
  */
module ForLoops {
  import C = Conversions
  import Operators = Modular
  import opened Options
  import opened Words
  import opened Statements
  import opened Cfg
  import opened CfgSimulation
  import opened CfgBody
  import opened NullRanges
  import opened Outcomes

  /** The values of `lo .. hi` in the order of the iterations. */
  function Values(lo: int, hi: int, reverse: bool): (vals: seq<int>)
    ensures |vals| == if lo <= hi then hi - lo + 1 else 0
    ensures forall k :: 0 <= k < |vals| ==> vals[k] == if reverse then hi - k else lo + k
    decreases hi - lo + 1
  {
    if lo > hi then [] else if reverse then [hi] + Values(lo, hi - 1, true) else [lo] + Values(lo + 1, hi, false)
  }

  /** Run `step` once for each of `vals`, the parameter holding that value. */
  function Iterate(step: State -> State, x: Param, vals: seq<int>, s: State): State {
    if vals == [] then s else Iterate(step, x, vals[1..], step(s.(params := s.params[x := vals[0]])))
  }

  /** From `s` the body falls through, in its own time, having changed the state by `step`. */
  ghost predicate FallsThrough(rules: Rules, body: Stmts, step: State -> State, s: State) {
    exists fuel: nat :: RunStmts(rules, body, body, s, fuel) == Normal(step(s))
  }

  /** So does it from every state that the iterations with the parameter at `vals` meet. */
  ghost predicate AllFallThrough(rules: Rules, body: Stmts, step: State -> State, x: Param, vals: seq<int>, s: State) {
    vals != [] ==>
      var s1 := s.(params := s.params[x := vals[0]]);
      FallsThrough(rules, body, step, s1) && AllFallThrough(rules, body, step, x, vals[1..], step(s1))
  }

  /** The values from `i` on. */
  function ValuesFrom(i: int, lo: int, hi: int, rev: bool): seq<int> {
    if rev then Values(lo, i, true) else Values(i, hi, false)
  }

  /** From the value `i` on: one iteration for each value left, in order. */
  lemma {:induction false} ForRuns(rules: Rules, name: LoopName, x: Param, i: int, lo: int, hi: int, rev: bool,
                                   body: Stmts, step: State -> State, s: State)
    returns (fuel: nat)
    requires if rev then lo - 1 <= i <= hi else lo <= i <= hi + 1
    requires AllFallThrough(rules, body, step, x, ValuesFrom(i, lo, hi, rev), s)
    ensures RunFor(rules, name, x, i, lo, hi, rev, body, s, fuel)
      == Normal(Iterate(step, x, ValuesFrom(i, lo, hi, rev), s))
    decreases if rev then i - lo + 1 else hi - i + 1
  {
    fuel := 0;
    if lo <= i <= hi {
      var s1, vals := s.(params := s.params[x := i]), ValuesFrom(i, lo, hi, rev);
      var i' := if rev then i - 1 else i + 1;
      assert vals[0] == i && vals[1..] == ValuesFrom(i', lo, hi, rev);
      var m: nat :| RunStmts(rules, body, body, s1, m) == Normal(step(s1));
      var n := ForRuns(rules, name, x, i', lo, hi, rev, body, step, step(s1));
      fuel := m + n + 1;
      StmtsStay(rules, rules, body, body, s1, m, fuel);
      ForStays(rules, rules, name, x, i', lo, hi, rev, body, step(s1), n, fuel - 1);
    }
  }

  /** How section 5.5 ends a procedure with just this loop, whose iterations end in `last`. */
  function StandardEnd(ty: ParamType, lo: int, hi: int, store: Store, last: Store): Final {
    if lo > hi then FReturned(None, store)
    else if !ty.Has(lo) || !ty.Has(hi) then FRaised(store)
    else FReturned(None, last)
  }

  /** A for loop whose bounds are values of its subtype executes a body that falls
    * through once for each value between them, in order, and so does its graph, at the
    * end of a procedure; other bounds raise. That is what section 5.5 says exactly when
    * the range is not null or its bounds are values of the subtype. */
  lemma ForExact(eval: Eval, stmt: Stmt, step: State -> State, g: Region, s: State, lo: int, hi: int, store: Store)
    requires stmt.For? && BoundsAre(eval, stmt, s, lo, hi, store)
    requires stmt.ty.Has(lo) && stmt.ty.Has(hi) ==>
               AllFallThrough(eval, stmt.body, step, stmt.param, Values(lo, hi, stmt.reverse), s.(store := store))
    requires Legal(stmt) && GotosObey(stmt, {}) && GenBody(Cons(stmt, Nil), true).Some?
    requires g == GenBody(Cons(stmt, Nil), true).value.region
    ensures var last := Iterate(step, stmt.param, Values(lo, hi, stmt.reverse), s.(store := store)).store;
            var inside := stmt.ty.first <= lo <= stmt.ty.last && stmt.ty.first <= hi <= stmt.ty.last;
            && Reaches(eval, g, s, if inside then FReturned(None, last) else FRaised(store))
            && (Reaches(eval, g, s, StandardEnd(stmt.ty, lo, hi, store, last)) <==> lo <= hi || inside)
  {
    var program := Cons(stmt, Nil);
    var s1, first := s.(store := store), if stmt.reverse then hi else lo;
    var last := Iterate(step, stmt.param, Values(lo, hi, stmt.reverse), s1);
    var fuel, f := 0, FRaised(store);
    if stmt.ty.Has(lo) && stmt.ty.Has(hi) {
      f := FReturned(None, last.store);
      if lo <= hi { fuel := ForRuns(eval, stmt.name, stmt.param, first, lo, hi, stmt.reverse, stmt.body, step, s1); }
      assert RunStmt(eval, stmt, s, fuel) == Normal(last);
      assert RunStmts(eval, program, Nil, last, fuel) == Normal(last);
    } else {
      assert RunStmt(eval, stmt, s, fuel) == Raised(s1);
    }
    assert EndsWith(RunStmts(eval, program, program, s, fuel), true, f);
    assert OwnLabels(program) == {};
    BodyMeans(eval, program, true, g, s, f);
    EndsOnce(eval, g, s, f);
  }

  /** A graph ends in one way. */
  lemma EndsOnce(eval: Eval, g: Region, s: State, f: Final)
    requires Reaches(eval, g, s, f)
    ensures forall f' :: Reaches(eval, g, s, f') ==> f' == f
  {
    var n: nat :| Steps(eval, g, At(0, 0, s, map[]), n) == Ended(f);
    forall f' | Reaches(eval, g, s, f') ensures f' == f {
      var m: nat :| Steps(eval, g, At(0, 0, s, map[]), m) == Ended(f');
      EndedOnce(eval, g, At(0, 0, s, map[]), m, n);
    }
  }

  // -------------------------------------------------------------- the bounds

  /** Converting a bound to the subtype of the parameter, by whatever the conversion is
    * lowered to: it raises exactly when the bound is not in the subtype's range, and so
    * does the instruction in the graph. */
  lemma BoundConverted(ty: ParamType, source: C.IntType, target: C.IntType, constant: Option<int>, steps: seq<C.Step>,
                       v: int, d: C.Descriptor, eval: Eval, g: Region, c: Config, temp: Temp)
    requires target.bounds == Some(C.Bounds(ty.first, ty.last))
    requires C.ValueOf(source, constant, v) && C.Exact(source, target, steps, v, d)
    requires c.At? && c.b in g && c.k < |g[c.b].code| && g[c.b].code[c.k] == IConvert(temp, ty)
    requires temp in c.temps && c.temps[temp] == v
    ensures var r := C.Run(steps, Encode(v, source.width), d);
            && (r.Some? <==> ty.first <= v <= ty.last)
            && (r.Some? ==> Decode(r.value, target.width, target.unsigned) == v)
            && Step(eval, g, c) == if r.Some? then c.(k := c.k + 1) else Ended(FRaised(c.s.store))
  {
  }

  /** The values of a machine type are those its words stand for. */
  lemma MachineValues(machine: Machine, w: nat, x: int)
    requires machine.Valid() && HeldIn(machine, w)
    ensures machine.First() <= x <= machine.Last() <==>
              if machine.Signed? then Fits(x, w, false) else 0 <= x < machine.modulus
  {
  }

  // ---------------------------------------------------------------- the step

  /** The word that the unchecked step computes from the word of the parameter. */
  function StepWord(machine: Machine, w: nat, reverse: bool, word: nat): nat
    requires machine.Valid()
  {
    match machine
    case Signed(_) => Encode(Decode(word, w, false) + if reverse then -1 else 1, w)
    case Modular(m) =>
      Operators.Value(Operators.LowerBinary(if reverse then Operators.Minus else Operators.Plus, m, w), w, word, 1)
  }

  /** The word of the machine type can hold its values. */
  predicate HeldIn(machine: Machine, w: nat) {
    w > 0 && match machine case Signed(n) => n == w case Modular(m) => m <= Pow2(w)
  }

  /** The step in the graph is the step on words, from every value of the machine type: it
    * wraps around at the extreme ones. */
  lemma StepWraps(machine: Machine, w: nat, rev: bool, x: int)
    requires machine.Valid() && HeldIn(machine, w) && machine.First() <= x <= machine.Last()
    ensures Decode(StepWord(machine, w, rev, Encode(x, w)), w, machine.Modular?)
         == machine.Wrap(if rev then x - 1 else x + 1)
  {
    var y := if rev then x - 1 else x + 1;
    match machine
    case Signed(_) =>
      DecodeEncode(x, w, false);
      SignedWraps(y, w);
    case Modular(m) =>
      ModNear(x, Pow2(w));
      ModularSteps(m, w, rev, x);
  }

  lemma ModularSteps(m: nat, w: nat, rev: bool, x: nat)
    requires w > 0 && 1 <= m <= Pow2(w) && x < m
    ensures StepWord(Modular(m), w, rev, x) == Mod(if rev then x - 1 else x + 1, m)
  {
    if m == 1 {
      OnlyZero(w, rev);
    } else {
      Operators.BinaryExact(if rev then Operators.Minus else Operators.Plus, m, w, x, 1);
    }
  }

  lemma SignedWraps(y: int, w: nat)
    requires w > 0 && 0 - Pow2(w - 1) - 1 <= y <= Pow2(w - 1)
    ensures Decode(Encode(y, w), w, false) == Mod(y + Pow2(w - 1), Pow2(w)) - Pow2(w - 1)
  {
    ModNear(y, Pow2(w));
    ModNear(y + Pow2(w - 1), Pow2(w));
  }

  /** Modulo 1 the step masks everything. */
  lemma OnlyZero(w: nat, rev: bool)
    requires w > 0
    ensures StepWord(Modular(1), w, rev, 0) == 0
  {
    Operators.AndZero(Encode(if rev then -1 else 1, w));
    assert Operators.Log2(1) == Some(0);
  }

  /** As the last value is never stepped from, the step yields the next value of the
    * range, for every width, also where the range ends at an extreme value of its type. */
  lemma StepExact(ty: ParamType, w: nat, i: int, lo: int, hi: int, rev: bool)
    requires ty.Valid() && HeldIn(ty.machine, w) && ty.Has(lo) && ty.Has(hi)
    requires lo <= i <= hi && i != if rev then lo else hi
    ensures var next := if rev then i - 1 else i + 1;
            && lo <= next <= hi && ty.machine.Wrap(next) == next
            && Decode(StepWord(ty.machine, w, rev, Encode(i, w)), w, ty.machine.Modular?) == next
  {
    var next := if rev then i - 1 else i + 1;
    match ty.machine
    case Signed(_) =>
      DecodeEncode(i, w, false);
      DecodeEncode(next, w, false);
    case Modular(m) =>
      ModNear(i, Pow2(w));
      Operators.BinaryExact(if rev then Operators.Minus else Operators.Plus, m, w, i, 1);
      ModNear(next, m);
  }
}
