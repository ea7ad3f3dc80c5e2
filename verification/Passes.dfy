/** Closure conversion, then call lowering: a nested program, and the flat program
  * over values that the two passes make of it, mean the same.
  */
module Passes {
  import opened Options
  import opened Ir
  import opened Lifting
  import opened ClosureConversion
  import opened Calls
  import opened CallMeaning

  /** No call defines a value that its callee needs from above: the declaration of the
    * callee comes before the call. */
  ghost predicate ResultsAfter(m: Module, code: Code) {
    code.Do? ==>
      && (code.op.AdaCall? ==> forall v :: v in code.op.results ==> !Needs(m, code.op.callee, v))
      && ResultsAfter(m, code.rest)
  }

  ghost predicate AllResultsAfter(m: Module, f: Sym)
    requires f in m.subps
  {
    forall b {:trigger m.subps[f].blocks[b]} :: 0 <= b < |m.subps[f].blocks| ==>
      ResultsAfter(m, m.subps[f].blocks[b].code)
  }

  /** A nested module whose calls have all been verified. */
  ghost predicate NestedSource(m: Module) {
    && WellFormed(m)
    && (forall f {:trigger SubpTyped(m, f)} :: f in m.subps ==> SubpTyped(m, f))
    && (forall f {:trigger AllResultsAfter(m, f)} :: f in m.subps ==> AllResultsAfter(m, f))
  }

  ghost predicate CapturesNeeds(m: Module, caps: Captures) {
    forall f, v :: f in m.subps ==> (v in CapturesOf(caps, f) <==> Needs(m, f, v))
  }

  /** A call stays verified when captures are passed to it and renamed. */
  lemma CallStaysVerified(m: Module, m': Module, caps: Captures, lifts: Captures, f: Sym, op: Op, dynamic: seq<bool>)
    requires WellFormed(m) && LiftedFrom(m, m', caps, lifts) && f in m.subps
    requires op.AdaCall? && op.callee in m.subps && Verified(op, m.subps[op.callee], dynamic)
    ensures NamesOk(m, m', caps, lifts, f) && op.callee in m'.subps
    ensures Verified(RenOp(CapturesOf(caps, f), CapturesOf(lifts, f), PassOp(caps, op)), m'.subps[op.callee], dynamic)
  {
    assert NamesOk(m, m', caps, lifts, f);
    assert NamesOk(m, m', caps, lifts, op.callee) && CodeLifted(m, m', caps, lifts, op.callee);
  }

  /** The results of a call are not among its operands after lifting either. */
  lemma ResultsStayApart(m: Module, m': Module, caps: Captures, lifts: Captures, f: Sym, op: Op, v: Value)
    requires WellFormed(m) && LiftedFrom(m, m', caps, lifts) && f in m.subps
    requires op.AdaCall? && v in op.results && v in m.home && v !in op.inputs && v !in op.ranges
    requires v !in CapturesOf(caps, op.callee)
    ensures NamesOk(m, m', caps, lifts, f)
    ensures var op' := RenOp(CapturesOf(caps, f), CapturesOf(lifts, f), PassOp(caps, op));
            v !in op'.inputs && v !in op'.ranges
  {
    assert NamesOk(m, m', caps, lifts, f);
    var own, lifted := CapturesOf(caps, f), CapturesOf(lifts, f);
    var passed := PassOp(caps, op);
    assert v !in lifted;
    if v in RenAll(own, lifted, passed.inputs) { RenamedAmong(own, lifted, passed.inputs, v); }
    if v in RenAll(own, lifted, passed.ranges) { RenamedAmong(own, lifted, passed.ranges, v); }
  }

  lemma {:induction false} CodeStaysTyped(m: Module, m': Module, caps: Captures, lifts: Captures, f: Sym, code: Code)
    requires WellFormed(m) && LiftedFrom(m, m', caps, lifts) && CapturesNeeds(m, caps) && f in m.subps
    requires CodeTyped(m, code) && ResultsAfter(m, code) && forall v :: v in Defs(code) ==> v in m.home
    ensures NamesOk(m, m', caps, lifts, f)
    ensures CodeTyped(m', RenCode(CapturesOf(caps, f), CapturesOf(lifts, f), PassCode(caps, code)))
  {
    assert NamesOk(m, m', caps, lifts, f);
    if code.Do? {
      CodeStaysTyped(m, m', caps, lifts, f, code.rest);
      var op := code.op;
      if op.AdaCall? && op.callee in m.subps {
        var dynamic :| Verified(op, m.subps[op.callee], dynamic);
        CallStaysVerified(m, m', caps, lifts, f, op, dynamic);
        forall v | v in op.results
          ensures var op' := RenOp(CapturesOf(caps, f), CapturesOf(lifts, f), PassOp(caps, op));
                  v !in op'.inputs && v !in op'.ranges
        {
          ResultsStayApart(m, m', caps, lifts, f, op, v);
        }
      }
    }
  }

  lemma SubpStaysTyped(m: Module, m': Module, caps: Captures, lifts: Captures, f: Sym)
    requires NestedSource(m) && LiftedFrom(m, m', caps, lifts) && CapturesNeeds(m, caps) && f in m.subps
    ensures f in m'.subps && SubpTyped(m', f)
  {
    assert SubpOk(m, f) && SubpTyped(m, f) && AllResultsAfter(m, f);
    assert NamesOk(m, m', caps, lifts, f) && CodeLifted(m, m', caps, lifts, f);
    var own, lifted := CapturesOf(caps, f), CapturesOf(lifts, f);
    var blocks, blocks' := m.subps[f].blocks, m'.subps[f].blocks;
    forall b | 0 <= b < |blocks'| ensures CodeTyped(m', blocks'[b].code) {
      forall v | v in Defs(blocks[b].code) ensures v in m.home { assert DefinedIn(blocks, v); }
      CodeStaysTyped(m, m', caps, lifts, f, blocks[b].code);
    }
    forall v | v in m'.subps[f].params ensures !DefinedIn(blocks', v) {
      LiftedDefines(m, m', caps, lifts, f, v);
    }
  }

  /** A lifted body defines what it did before. */
  lemma LiftedDefines(m: Module, m': Module, caps: Captures, lifts: Captures, f: Sym, v: Value)
    requires WellFormed(m) && LiftedFrom(m, m', caps, lifts) && f in m.subps
    ensures DefinedIn(m'.subps[f].blocks, v) ==> DefinedIn(m.subps[f].blocks, v) && v in m.home
  {
    assert SubpOk(m, f) && NamesOk(m, m', caps, lifts, f) && CodeLifted(m, m', caps, lifts, f);
    var blocks, blocks' := m.subps[f].blocks, m'.subps[f].blocks;
    if DefinedIn(blocks', v) {
      var b :| 0 <= b < |blocks'| && (v in blocks'[b].args || v in Defs(blocks'[b].code));
      RenamedDefs(caps, CapturesOf(caps, f), CapturesOf(lifts, f), blocks[b].code);
      assert DefinedIn(blocks, v);
    }
  }

  /** What closure conversion leaves is what call lowering expects. */
  lemma LiftedIsSource(m: Module, m': Module, caps: Captures, lifts: Captures)
    requires NestedSource(m) && LiftedFrom(m, m', caps, lifts) && CapturesNeeds(m, caps)
    ensures Source(m')
  {
    LiftedIsFlat(m, m', caps, lifts);
    forall f | f in m'.subps ensures SubpTyped(m', f) { SubpStaysTyped(m, m', caps, lifts, f); }
  }

  /** A by-copy call of a library-level subprogram of the nested program, and a call of
    * the flat one with the values that the value ABI passes, end alike: the same results and
    * final values of formals, objects and exception, with the same fuel. */
  lemma PassesKeepMeaning(m: Module, m1: Module, m2: Module, caps: Captures, lifts: Captures, names: map<Sym, Names>,
                          prim: Prim, f: Sym, info: CallInfo, args: seq<Val>, initials: seq<Val>, store: Store,
                          fuel: nat)
    requires NestedSource(m) && LiftedFrom(m, m1, caps, lifts) && CapturesNeeds(m, caps) && CallsLowered(m1, m2, names)
    requires f in m.subps && LibraryLevel(m, f) && |m.subps[f].formals| <= |args| == |m.subps[f].params|
    requires MapsSnapshots(info, m.subps[f].formals, |initials|)
    ensures var o := Activate(m, prim, f, info, args, initials, [], store, fuel);
            o.Stuck? || Invoke(m2, prim, f, AbiArgs(m.subps[f].formals, args, initials, info, 0), [], store, fuel) == o
  {
    LiftedIsSource(m, m1, caps, lifts);
    LiftingKeepsActivations(m, m1, caps, lifts, prim, f, info, args, initials, store, fuel);
    CallsKeepMeaning(m1, m2, names, prim, f, info, args, initials, store, fuel);
  }

  /** A main procedure ends as in the nested program. */
  lemma MainPassesKeepMeaning(m: Module, m1: Module, m2: Module, caps: Captures, lifts: Captures,
                              names: map<Sym, Names>, prim: Prim, f: Sym, vals: seq<Val>, store: Store, fuel: nat)
    requires NestedSource(m) && LiftedFrom(m, m1, caps, lifts) && CapturesNeeds(m, caps) && CallsLowered(m1, m2, names)
    requires f in m.subps && LibraryLevel(m, f) && m.subps[f].formals == [] && |vals| == |m.subps[f].params|
    ensures var o := Invoke(m, prim, f, vals, [], store, fuel);
            o.Stuck? || Invoke(m2, prim, f, vals, [], store, fuel) == o
  {
    PlainActivation(m, prim, f, vals, store, fuel);
    PassesKeepMeaning(m, m1, m2, caps, lifts, names, prim, f, CallInfo([], [], None, []), vals, [], store, fuel);
  }
}
