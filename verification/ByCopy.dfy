/** What by-copy parameter passing (section 6.4.1 of the Ada Reference Manual) comes to,
  * mode by mode: which formals take a value in, what they start from, and which objects
  * are assigned at the end, in which order.
  */
module ByCopy {
  import opened Options
  import opened Ir
  import opened Calls

  /** Whether a formal starts from the value of its actual. */
  predicate TakesValue(formal: Formal) {
    match formal.mode case In => true case InOut => true case Out => formal.defaulted
  }

  lemma AssignedIs<T>(indices: seq<int>, operands: seq<T>, k: nat)
    requires k < |indices| == |operands| && Increasing(indices)
    ensures Assigned(indices, operands, indices[k]) == Some(operands[k])
  {
  }

  lemma NotAssigned<T>(indices: seq<int>, operands: seq<T>, i: int)
    requires |indices| == |operands|
    ensures Assigned(indices, operands, i).Some? <==> i in indices
  {
    FoundIn(indices, i);
  }

  /** A verified call carries a snapshot for every `in out` formal, for the `out` formals
    * that are defaulted, and for no other; and a range for the writable formals whose
    * actual has a dynamic one, and for no other. */
  lemma VerifiedCarries(op: Op, callee: Subp, dynamic: seq<bool>, i: nat)
    requires op.AdaCall? && Verified(op, callee, dynamic) && i < |callee.formals| && i < |dynamic|
    ensures Assigned(op.info.initialFormals, op.initials, i).Some? <==>
              callee.formals[i].mode != In && TakesValue(callee.formals[i])
    ensures Assigned(op.info.rangeFormals, op.ranges, i).Some? <==> callee.formals[i].mode != In && dynamic[i]
  {
    NotAssigned(op.info.initialFormals, op.initials, i);
    NotAssigned(op.info.rangeFormals, op.ranges, i);
    assert i in op.info.initialFormals <==> Snapshot(callee.formals, i);
    assert i in op.info.rangeFormals <==> Ranged(callee.formals, dynamic, i);
  }

  // ------------------------------------------------------------------- entry

  /** How many of the formals from `from` on, before `i`, are writable. */
  function WritableCount(formals: seq<Formal>, from: nat, i: nat): nat
    requires from <= i <= |formals|
  {
    if from == i then 0 else WritableCount(formals, from, i - 1) + if formals[i - 1].mode == In then 0 else 1
  }

  lemma {:induction false} CountFromFront(formals: seq<Formal>, from: nat, i: nat)
    requires from < i <= |formals|
    ensures WritableCount(formals, from, i)
         == (if formals[from].mode == In then 0 else 1) + WritableCount(formals, from + 1, i)
    decreases i
  {
    if from + 1 < i { CountFromFront(formals, from, i - 1); }
  }

  /** Inside, an `in` formal is the argument, and every other formal a new object, the next
    * free one, which holds the snapshot if there is one. */
  lemma {:induction false} EntryDenotes(formals: seq<Formal>, args: seq<Val>, initials: seq<Val>, info: CallInfo,
                                        store: Store, from: nat, i: nat)
    requires from <= i < |formals| <= |args|
    ensures var r, at := Enter(formals, args, initials, info, store, from),
                         |store| + WritableCount(formals, from, i);
            if formals[i].mode == In then r.0[i - from] == args[i]
            else r.0[i - from] == Ref(at) && at < |r.1|
                 && var init := Assigned(info.initialFormals, initials, i);
                    r.1[at] == if init.Some? then init.value else Undef
    decreases i - from
  {
    var init := Assigned(info.initialFormals, initials, from);
    var store1 := if formals[from].mode == In then store else store + [if init.Some? then init.value else Undef];
    var rest := Enter(formals, args, initials, info, store1, from + 1);
    if from == i {
      assert rest.1[..|store1|] == store1;
      if formals[i].mode != In { assert rest.1[|store|] == store1[|store|]; }
    } else {
      EntryDenotes(formals, args, initials, info, store1, from + 1, i);
      CountFromFront(formals, from, i);
    }
  }

  /** In a verified call every formal that takes a value starts from it, and every other is
    * undefined at first; its object is a new one. */
  lemma EntryOfVerified(op: Op, callee: Subp, dynamic: seq<bool>, args: seq<Val>, initials: seq<Val>, store: Store,
                        i: nat)
    requires op.AdaCall? && Verified(op, callee, dynamic)
    requires i < |callee.formals| <= |args| && i < |dynamic| && |initials| == |op.initials|
    ensures var r := Enter(callee.formals, args, initials, op.info, store, 0);
            var init := Assigned(op.info.initialFormals, initials, i);
            if callee.formals[i].mode == In then r.0[i] == args[i]
            else
              && r.0[i].Ref? && |store| <= r.0[i].loc < |r.1|
              && if TakesValue(callee.formals[i]) then init.Some? && r.1[r.0[i].loc] == init.value
                 else r.1[r.0[i].loc] == Undef
  {
    VerifiedCarries(op, callee, dynamic, i);
    NotAssigned(op.info.initialFormals, op.initials, i);
    NotAssigned(op.info.initialFormals, initials, i);
    EntryDenotes(callee.formals, args, initials, op.info, store, 0, i);
  }

  // --------------------------------------------------------------- the ABI

  /** How many of the formals from `from` on, before `i`, take a value. */
  function InputCount(formals: seq<Formal>, from: nat, i: nat): nat
    requires from <= i <= |formals|
    decreases i
  {
    if from == i then 0 else InputCount(formals, from, i - 1) + if TakesValue(formals[i - 1]) then 1 else 0
  }

  lemma {:induction false} InputsFromFront(formals: seq<Formal>, from: nat, i: nat)
    requires from < i <= |formals|
    ensures InputCount(formals, from, i)
         == (if TakesValue(formals[from]) then 1 else 0) + InputCount(formals, from + 1, i)
    decreases i
  {
    if from + 1 < i { InputsFromFront(formals, from, i - 1); }
  }

  /** The value ABI has one input for each formal that takes a value, in formal order: the
    * argument of an `in` formal, the snapshot of another one; then the captures. */
  lemma {:induction false} InputsAre<T>(formals: seq<Formal>, args: seq<T>, initials: seq<T>, info: CallInfo, from: nat,
                                        i: nat)
    requires from <= i <= |formals| <= |args|
    ensures var inputs, n := AbiArgs(formals, args, initials, info, from), InputCount(formals, from, |formals|);
            var init := Assigned(info.initialFormals, initials, i);
            && |inputs| == n + |args| - |formals| && inputs[n..] == args[|formals|..]
            && InputCount(formals, from, i) <= n
            && (i < |formals| && TakesValue(formals[i]) ==>
                  && InputCount(formals, from, i) < n
                  && inputs[InputCount(formals, from, i)]
                     == if formals[i].mode != In && init.Some? then init.value else args[i])
    decreases |formals| - from
  {
    if from < |formals| {
      var rest := AbiArgs(formals, args, initials, info, from + 1);
      var here := if TakesValue(formals[from]) then [Passed(formals, args, initials, info, from)] else [];
      assert AbiArgs(formals, args, initials, info, from) == here + rest;
      InputsFromFront(formals, from, |formals|);
      InputsAre(formals, args, initials, info, from + 1, if i == from then from + 1 else i);
      if i > from { InputsFromFront(formals, from, i); }
    }
  }

  // ------------------------------------------------------------------ return

  /** The position of the final value of a formal counts the writable ones before it. */
  lemma {:induction false} RankCounts(formals: seq<Formal>, i: nat)
    requires i <= |formals|
    ensures Rank(formals, i) == WritableCount(formals, 0, i)
  {
    if i > 0 { RankCounts(formals, i - 1); }
  }

  /** The final values are those of the objects that the writable formals denote, in formal
    * order. */
  lemma {:induction false} FinalsAre(formals: seq<Formal>, denoted: seq<Val>, store: Store, from: nat, i: nat)
    requires from <= i <= |formals| <= |denoted|
    ensures var finals, at := Finals(formals, denoted, store, from), WritableCount(formals, from, i);
            && |finals| == WritableCount(formals, from, |formals|) && at <= |finals|
            && (i < |formals| && formals[i].mode != In && denoted[i].Ref? && denoted[i].loc < |store| ==>
                  at < |finals| && finals[at] == store[denoted[i].loc])
    decreases |formals| - from
  {
    if from < |formals| {
      FinalsAre(formals, denoted, store, from + 1, if i == from then from + 1 else i);
      CountFromFront(formals, from, |formals|);
      if i > from { CountFromFront(formals, from, i); }
    }
  }

  /** Formal `i` is copied back to the object `l`. */
  predicate CopiedTo(formals: seq<Formal>, args: seq<Val>, i: int, l: nat) {
    0 <= i < |formals| && i < |args| && formals[i].mode != In && args[i] == Ref(l)
  }

  /** The final value of formal `i`, converted to the subtype of its actual. */
  function Converted(prim: Prim, formals: seq<Formal>, finals: seq<Val>, ranges: seq<Val>, info: CallInfo, i: nat)
    : Option<Val>
    requires i < |formals| && i < |info.targets| && WritableCount(formals, 0, i) < |finals|
  {
    var range := Assigned(info.rangeFormals, ranges, i);
    var final := finals[WritableCount(formals, 0, i)];
    prim.value(info.targets[i], if range.Some? then [final, range.value] else [final])
  }

  /** When formals were copied back: each object holds the converted final value of the
    * last formal, in that order, whose actual it is, and any other is as it was. */
  lemma {:induction false} CopyBackIs(prim: Prim, formals: seq<Formal>, order: seq<int>, finals: seq<Val>,
                                      args: seq<Val>, ranges: seq<Val>, info: CallInfo, store: Store, l: nat)
    requires CopyBack(prim, formals, order, finals, args, ranges, info, store).Copied? && l < |store|
    ensures var store' := CopyBack(prim, formals, order, finals, args, ranges, info, store).store;
            && |store'| == |store|
            && ((forall k :: 0 <= k < |order| ==> !CopiedTo(formals, args, order[k], l)) ==> store'[l] == store[l])
            && forall k {:trigger order[k]} ::
                 0 <= k < |order| && CopiedTo(formals, args, order[k], l)
                 && (forall j :: k < j < |order| ==> !CopiedTo(formals, args, order[j], l)) ==>
                   && order[k] < |info.targets| && WritableCount(formals, 0, order[k]) < |finals|
                   && Converted(prim, formals, finals, ranges, info, order[k]) == Some(store'[l])
  {
    if order != [] {
      var i, rest := order[0], order[1..];
      RankCounts(formals, i);
      var store1 := store;
      if formals[i].Writable() {
        store1 := store[args[i].loc :=
          prim.value(info.targets[i], ConvArgs(info, ranges, i, finals[Rank(formals, i)])).value];
      }
      CopyBackIs(prim, formals, rest, finals, args, ranges, info, store1, l);
      assert forall k :: 0 < k < |order| ==> order[k] == rest[k - 1];
      assert forall k :: 0 <= k < |rest| ==> rest[k] == order[k + 1];
    }
  }

  /** A conversion that fails raises after the formals before it were copied back. */
  lemma {:induction false} CopyBackRaises(prim: Prim, formals: seq<Formal>, order: seq<int>, finals: seq<Val>,
                                          args: seq<Val>, ranges: seq<Val>, info: CallInfo, store: Store)
    returns (k: nat)
    requires CopyBack(prim, formals, order, finals, args, ranges, info, store).CopyRaised?
    ensures k < |order| && 0 <= order[k] < |formals| && formals[order[k]].mode != In
    ensures CopyBack(prim, formals, order[..k], finals, args, ranges, info, store)
         == Copied(CopyBack(prim, formals, order, finals, args, ranges, info, store).store)
    ensures order[k] < |info.targets| && WritableCount(formals, 0, order[k]) < |finals|
    ensures Converted(prim, formals, finals, ranges, info, order[k]) == None
  {
    var i, rest := order[0], order[1..];
    RankCounts(formals, i);
    var x := if formals[i].Writable() then
        prim.value(info.targets[i], ConvArgs(info, ranges, i, finals[Rank(formals, i)]))
      else None;
    if formals[i].Writable() && x.None? {
      k := 0;
    } else {
      var store1 := if formals[i].Writable() then store[args[i].loc := x.value] else store;
      var j := CopyBackRaises(prim, formals, rest, finals, args, ranges, info, store1);
      k := j + 1;
      assert order[..k][0] == i && order[..k][1..] == rest[..j];
    }
  }

  /** Without an association order, the formals are copied back in formal order: of two
    * formals with one actual, the later one decides its value. */
  lemma LastFormalDecides(prim: Prim, formals: seq<Formal>, info: CallInfo, results: nat, args: seq<Val>,
                          ranges: seq<Val>, o: Outcome, i: nat, l: nat)
    requires o.Returned? && Leave(prim, formals, info, results, args, ranges, o).Returned? && info.actualOrder.None?
    requires l < |o.store| && CopiedTo(formals, args, i, l)
    requires forall j :: i < j < |formals| ==> !CopiedTo(formals, args, j, l)
    ensures results <= |o.values| && i < |info.targets| && WritableCount(formals, 0, i) < |o.values[results..]|
    ensures l < |Leave(prim, formals, info, results, args, ranges, o).store|
    ensures Converted(prim, formals, o.values[results..], ranges, info, i)
         == Some(Leave(prim, formals, info, results, args, ranges, o).store[l])
  {
    var order := Order(info, |formals|);
    assert order[i] == i;
    CopyBackIs(prim, formals, order, o.values[results..], args, ranges, info, o.store, l);
  }
}
