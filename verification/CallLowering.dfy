/** The pass itself: the verifiers' scans, and the rewriting of calls and bodies
  * with running indices, proved against the functions of module Calls.
  */
module CallLowering {
  import opened Options
  import opened Ir
  import opened Lifting
  import opened Calls

  // ------------------------------------------------------ the verifiers' scans

  /** Distinct numbers below their count are all of them. */
  lemma {:induction false} DistinctCover(s: seq<int>, i: int)
    requires (forall k :: 0 <= k < |s| ==> 0 <= s[k] < |s|) && (forall j, k :: 0 <= j < k < |s| ==> s[j] != s[k])
    requires 0 <= i < |s|
    ensures i in s
  {
    var all, used := set k {:trigger Id(k)} | 0 <= k < |s| :: Id(k), set k | 0 <= k < |s| :: s[k];
    CountImage(s, |s|);
    CountUpTo(|s|);
    assert used <= all by { forall x | x in used ensures x in all { assert Id(x) == x; } }
    SubsetFull(used, all);
    assert Id(i) in all;
  }

  function Id(k: int): int { k }

  lemma {:induction false} CountUpTo(n: nat)
    ensures |set k {:trigger Id(k)} | 0 <= k < n :: Id(k)| == n
  {
    if n > 0 {
      CountUpTo(n - 1);
      var less, all := set k {:trigger Id(k)} | 0 <= k < n - 1 :: Id(k), set k {:trigger Id(k)} | 0 <= k < n :: Id(k);
      assert Id(n - 1) in all;
      assert all == less + {n - 1};
    }
  }

  lemma {:induction false} CountImage(s: seq<int>, n: nat)
    requires n <= |s| && forall j, k :: 0 <= j < k < |s| ==> s[j] != s[k]
    ensures |set k | 0 <= k < n :: s[k]| == n
  {
    if n > 0 {
      CountImage(s, n - 1);
      assert (set k | 0 <= k < n :: s[k]) == (set k | 0 <= k < n - 1 :: s[k]) + {s[n - 1]};
    }
  }

  lemma SubsetFull(a: set<int>, b: set<int>)
    requires a <= b && |a| == |b|
    ensures a == b
  {
    assert a - b == {} && a * b == a && a + b == b;
    assert |b - a| == 0;
    forall x | x in b ensures x in a { assert x !in a ==> x in b - a; }
  }

  /** The association order visits every formal once. */
  method VerifyOrder(order: seq<int>) returns (ok: bool)
    ensures ok <==> Permutes(order, |order|)
  {
    var seen := new bool[|order|](_ => false);
    for k := 0 to |order|
      invariant forall j :: 0 <= j < k ==> 0 <= order[j] < |order|
      invariant forall i, j :: 0 <= i < j < k ==> order[i] != order[j]
      invariant forall x :: 0 <= x < |order| ==> (seen[x] <==> x in order[..k])
    {
      var index := order[k];
      if index < 0 || index >= |order| || seen[index] {
        assert order[k] in order;
        return false;
      }
      seen[index] := true;
      assert order[..k + 1] == order[..k] + [order[k]];
    }
    forall i | 0 <= i < |order| ensures i in order { DistinctCover(order, i); }
    ok := true;
  }

  /** Indices are in increasing order, one for each operand, and within the arguments. */
  method VerifyIndices(indices: seq<int>, operands: nat, inputs: nat) returns (ok: bool)
    ensures ok <==> |indices| == operands && Increasing(indices) && forall i :: i in indices ==> 0 <= i < inputs
  {
    if |indices| != operands { return false; }
    var previous := -1;
    for k := 0 to |indices|
      invariant previous == if k == 0 then -1 else indices[k - 1]
      invariant Increasing(indices[..k]) && forall j :: 0 <= j < k ==> 0 <= indices[j] < inputs
    {
      if indices[k] <= previous || indices[k] >= inputs {
        assert indices[k] in indices;
        if 0 <= indices[k] < inputs { assert k > 0 && !Increasing(indices); }
        return false;
      }
      forall j | 0 <= j < k ensures indices[j] < indices[k] { assert indices[..k][j] <= previous; }
      previous := indices[k];
    }
    assert indices[..|indices|] == indices;
    ok := true;
  }

  // -------------------------------------------------------- cursor alignment

  /** The cursor has passed the wanted formals before `i`, and nothing else. */
  ghost predicate Aligned(indices: seq<int>, pos: nat, want: set<int>, i: int) {
    pos <= |indices| && forall x :: x in indices[..pos] <==> x in want && x < i
  }

  ghost predicate Lists(indices: seq<int>, want: set<int>) { forall x :: x in indices <==> x in want }

  lemma NotBefore(indices: seq<int>, pos: nat, k: nat)
    requires Increasing(indices) && pos <= k < |indices|
    ensures indices[k] !in indices[..pos]
  {
  }

  /** At a formal, the cursor tells whether it is listed: if it does not match
    * what is wanted, the list is wrong. */
  lemma CursorTells(indices: seq<int>, pos: nat, want: set<int>, i: int)
    requires Increasing(indices) && Aligned(indices, pos, want, i)
    requires (pos < |indices| && indices[pos] == i) != (i in want)
    ensures !Lists(indices, want)
  {
    forall k | 0 <= k < pos ensures indices[k] < i { assert indices[..pos][k] in indices[..pos]; }
    if pos < |indices| {
      NotBefore(indices, pos, pos);
      assert indices[pos] in indices;
    }
    if i in indices {
      var k :| 0 <= k < |indices| && indices[k] == i;
      assert pos <= k;
    }
  }

  lemma CursorSays(indices: seq<int>, pos: nat, want: set<int>, i: int)
    requires Increasing(indices) && Aligned(indices, pos, want, i) && Lists(indices, want)
    ensures (pos < |indices| && indices[pos] == i) <==> i in want
  {
    if (pos < |indices| && indices[pos] == i) != (i in want) { CursorTells(indices, pos, want, i); }
  }

  lemma CursorMoves(indices: seq<int>, pos: nat, want: set<int>, i: int)
    requires Aligned(indices, pos, want, i)
    requires (pos < |indices| && indices[pos] == i) <==> i in want
    ensures Aligned(indices, if i in want then pos + 1 else pos, want, i + 1)
  {
    if i in want { assert indices[..pos + 1] == indices[..pos] + [i]; }
  }

  /** Past the last formal, the list is right when the cursor is at its end. */
  lemma CursorEnds(indices: seq<int>, pos: nat, want: set<int>, i: int)
    requires Increasing(indices) && Aligned(indices, pos, want, i) && forall x :: x in want ==> x < i
    ensures Lists(indices, want) <==> pos == |indices|
  {
    if pos == |indices| {
      assert indices[..pos] == indices;
    } else {
      NotBefore(indices, pos, pos);
      assert indices[pos] in indices;
    }
  }

  function Snapshots(formals: seq<Formal>): set<int> { set i | 0 <= i < |formals| && Snapshot(formals, i) }
  function Rangeds(formals: seq<Formal>, dynamic: seq<bool>): set<int> {
    set i | 0 <= i < |formals| && Ranged(formals, dynamic, i)
  }

  /** The scan over the logical arguments, with a cursor in each list. */
  method VerifyCursors(formals: seq<Formal>, dynamic: seq<bool>, info: CallInfo, inputs: nat) returns (ok: bool)
    requires |formals| <= inputs == |dynamic| && Increasing(info.initialFormals) && Increasing(info.rangeFormals)
    ensures ok <==>
      Lists(info.initialFormals, Snapshots(formals)) && Lists(info.rangeFormals, Rangeds(formals, dynamic))
  {
    var initialPos, rangePos := 0, 0;
    for i := 0 to inputs
      invariant Aligned(info.initialFormals, initialPos, Snapshots(formals), i)
      invariant Aligned(info.rangeFormals, rangePos, Rangeds(formals, dynamic), i)
    {
      var writable := i < |formals| && formals[i].Writable();
      var hasInitial := initialPos < |info.initialFormals| && info.initialFormals[initialPos] == i;
      var hasRange := rangePos < |info.rangeFormals| && info.rangeFormals[rangePos] == i;
      var wantsInitial := writable && formals[i].NeedsInput();
      var wantsRange := writable && dynamic[i];
      assert wantsInitial <==> i in Snapshots(formals);
      assert wantsRange <==> i in Rangeds(formals, dynamic);
      if hasInitial != wantsInitial {
        CursorTells(info.initialFormals, initialPos, Snapshots(formals), i);
        return false;
      }
      if hasRange != wantsRange {
        CursorTells(info.rangeFormals, rangePos, Rangeds(formals, dynamic), i);
        return false;
      }
      CursorMoves(info.initialFormals, initialPos, Snapshots(formals), i);
      CursorMoves(info.rangeFormals, rangePos, Rangeds(formals, dynamic), i);
      if hasInitial { initialPos := initialPos + 1; }
      if hasRange { rangePos := rangePos + 1; }
    }
    CursorEnds(info.initialFormals, initialPos, Snapshots(formals), inputs);
    CursorEnds(info.rangeFormals, rangePos, Rangeds(formals, dynamic), inputs);
    ok := initialPos == |info.initialFormals| && rangePos == |info.rangeFormals|;
  }

  /** A call is accepted exactly when its order is a permutation of the source
    * formals, and its lists name, in order, the formals that get a snapshot or a
    * dynamic range. */
  method VerifyCall(op: Op, callee: Subp, dynamic: seq<bool>) returns (ok: bool)
    requires op.AdaCall? && |dynamic| == |op.inputs| && |callee.formals| <= |callee.params|
    ensures ok <==> Verified(op, callee, dynamic)
  {
    var info, formals := op.info, callee.formals;
    ok := VerifyIndices(info.initialFormals, |op.initials|, |op.inputs|);
    Members(info.initialFormals, Snapshots(formals), |op.inputs|);
    Members(info.rangeFormals, Rangeds(formals, dynamic), |op.inputs|);
    assert |op.inputs| == |callee.params| && MapsSnapshots(info, formals, |op.initials|) ==>
      Lists(info.initialFormals, Snapshots(formals));
    if !ok { return; }
    ok := VerifyIndices(info.rangeFormals, |op.ranges|, |op.inputs|);
    if !ok { return; }
    if info.actualOrder.Some? {
      ok := VerifyOrder(info.actualOrder.value);
      if !ok || |info.actualOrder.value| != |formals| { return false; }
    }
    if |op.inputs| != |callee.params| || |info.targets| != |formals| { return false; }
    ok := VerifyCursors(formals, dynamic, info, |op.inputs|);
  }

  lemma Members(indices: seq<int>, want: set<int>, inputs: nat)
    requires forall x :: x in want ==> 0 <= x
    ensures Lists(indices, want) && (forall x :: x in want ==> x < inputs) ==>
      forall i :: i in indices ==> 0 <= i < inputs
  {
  }

  // --------------------------------------------------------------- rewriting

  function Prepend(ops: seq<Op>, rest: Code): Code {
    if ops == [] then rest else Do(ops[0], Prepend(ops[1..], rest))
  }

  lemma {:induction false} PrependBoth(a: seq<Op>, b: seq<Op>, rest: Code)
    ensures Prepend(a + b, rest) == Prepend(a, Prepend(b, rest))
  {
    if a == [] {
      assert a + b == b;
    } else {
      assert (a + b)[1..] == a[1..] + b;
      PrependBoth(a[1..], b, rest);
    }
  }

  lemma PrependTwo(a: Op, b: Op, rest: Code)
    ensures Prepend([a, b], rest) == Do(a, Do(b, rest))
  {
    assert [a, b][1..] == [b] && [b][1..] == [];
    assert Prepend([b], rest) == Do(b, rest);
  }

  lemma FindAt(indices: seq<int>, k: nat)
    requires Increasing(indices) && k < |indices|
    ensures Find(indices, indices[k]) == k
  {
  }

  /** What a call passes: a running index takes the snapshots one after the other. */
  method LowerInputs(formals: seq<Formal>, op: Op) returns (inputs: seq<Value>)
    requires op.AdaCall? && |formals| <= |op.inputs| && MapsSnapshots(op.info, formals, |op.initials|)
    ensures inputs == AbiArgs(formals, op.inputs, op.initials, op.info, 0)
  {
    var initial := 0;
    ghost var want, indices := Snapshots(formals), op.info.initialFormals;
    inputs := [];
    for i := 0 to |formals|
      invariant Aligned(indices, initial, want, i)
      invariant inputs + AbiArgs(formals, op.inputs, op.initials, op.info, i)
        == AbiArgs(formals, op.inputs, op.initials, op.info, 0)
    {
      CursorSays(indices, initial, want, i);
      CursorMoves(indices, initial, want, i);
      if formals[i].NeedsInput() {
        var x;
        if formals[i].mode == In {
          x := op.inputs[i];
        } else {
          FindAt(indices, initial);
          x := op.initials[initial];
          initial := initial + 1;
        }
        assert x == Passed(formals, op.inputs, op.initials, op.info, i);
        assert (inputs + [x]) + AbiArgs(formals, op.inputs, op.initials, op.info, i + 1)
            == inputs + ([x] + AbiArgs(formals, op.inputs, op.initials, op.info, i + 1));
        inputs := inputs + [x];
      }
    }
    inputs := inputs + op.inputs[|formals|..];
  }

  /** The call result that a writable formal comes back in. */
  function Output(formals: seq<Formal>, n: Value, j: nat): Option<Value>
    requires j < |formals|
  {
    if formals[j].Writable() then Some(n + Rank(formals, j)) else None
  }

  /** Call results follow formal order. */
  method LowerOutputs(formals: seq<Formal>, n: Value) returns (outputs: array<Option<Value>>, result: nat)
    ensures outputs.Length == |formals| && result == Rank(formals, |formals|) && fresh(outputs)
    ensures forall j :: 0 <= j < |formals| ==> outputs[j] == Output(formals, n, j)
  {
    outputs := new Option<Value>[|formals|](_ => None);
    result := 0;
    for i := 0 to |formals|
      invariant result == Rank(formals, i)
      invariant forall j :: 0 <= j < i ==> outputs[j] == Output(formals, n, j)
      invariant forall j :: i <= j < |formals| ==> outputs[j] == None
    {
      if formals[i].mode != In {
        outputs[i] := Some(n + result);
        result := result + 1;
      }
    }
  }

  /** The copy-back ranges, by the formal each of them is for. */
  method LowerRanges(formals: seq<Formal>, op: Op) returns (ranges: array<Option<Value>>)
    requires op.AdaCall? && |op.info.rangeFormals| == |op.ranges| && Increasing(op.info.rangeFormals)
    requires forall i :: i in op.info.rangeFormals ==> 0 <= i < |formals|
    ensures ranges.Length == |formals| && fresh(ranges)
    ensures forall j :: 0 <= j < |formals| ==> ranges[j] == Assigned(op.info.rangeFormals, op.ranges, j)
  {
    ranges := new Option<Value>[|formals|](_ => None);
    for k := 0 to |op.info.rangeFormals|
      invariant forall j :: 0 <= j < |formals| ==>
        ranges[j] == if Find(op.info.rangeFormals, j) < k then Some(op.ranges[Find(op.info.rangeFormals, j)]) else None
    {
      FindAt(op.info.rangeFormals, k);
      assert op.info.rangeFormals[k] in op.info.rangeFormals;
      ranges[op.info.rangeFormals[k]] := Some(op.ranges[k]);
    }
  }

  /** A call and its copy-back: the outputs and the ranges are found by formal. */
  method LowerCaller(formals: seq<Formal>, op: Op, n: Value, ghost rest: Code) returns (ops: seq<Op>)
    requires op.AdaCall? && |formals| <= |op.inputs| && |op.info.targets| == |formals|
    requires MapsSnapshots(op.info, formals, |op.initials|)
    requires op.info.actualOrder.Some? ==> Permutes(op.info.actualOrder.value, |formals|)
    requires |op.info.rangeFormals| == |op.ranges| && Increasing(op.info.rangeFormals)
    requires forall i :: i in op.info.rangeFormals ==> 0 <= i < |formals|
    ensures Prepend(ops, rest) == CallCode(formals, op, n, rest)
  {
    var inputs := LowerInputs(formals, op);
    var outputs, result := LowerOutputs(formals, n);
    var ranges := LowerRanges(formals, op);
    var order := Order(op.info, |formals|);
    var copies := LowerCopies(formals, order, op, outputs, ranges, n, n + result, rest);
    ops := [FuncCall(op.results + FreshFrom(n, result), op.callee, inputs)] + copies;
    PrependBoth([FuncCall(op.results + FreshFrom(n, result), op.callee, inputs)], copies, rest);
  }

  /** In association order, each conversion immediately before its write. */
  method LowerCopies(formals: seq<Formal>, order: seq<int>, op: Op, outputs: array<Option<Value>>,
                     ranges: array<Option<Value>>, n: Value, first: Value, ghost rest: Code)
    returns (ops: seq<Op>)
    requires op.AdaCall? && |formals| <= |op.inputs|
    requires |op.info.targets| == |formals| == outputs.Length == ranges.Length
    requires forall i :: i in order ==> 0 <= i < |formals|
    requires forall j :: 0 <= j < |formals| ==> outputs[j] == Output(formals, n, j)
    requires forall j :: 0 <= j < |formals| ==> ranges[j] == Assigned(op.info.rangeFormals, op.ranges, j)
    ensures Prepend(ops, rest) == CopyCode(formals, order, op, n, first, rest)
  {
    var c := first;
    ops := [];
    for k := 0 to |order|
      invariant Prepend(ops, CopyCode(formals, order[k..], op, n, c, rest))
        == CopyCode(formals, order, op, n, first, rest)
    {
      var i := order[k];
      assert i in order && order[k..][0] == i && order[k..][1..] == order[k + 1..];
      if outputs[i].Some? {
        var uses := [outputs[i].value] + if ranges[i].Some? then [ranges[i].value] else [];
        var copy := [Eval(c, op.info.targets[i], uses), Write(c, op.inputs[i])];
        ghost var tail := CopyCode(formals, order[k + 1..], op, n, c + 1, rest);
        PrependTwo(copy[0], copy[1], tail);
        assert CopyCode(formals, order[k..], op, n, c, rest) == Prepend(copy, tail);
        PrependBoth(ops, copy, tail);
        ops := ops + copy;
        c := c + 1;
      }
    }
    assert order[|order|..] == [];
  }

  method LowerReturn(subp: Subp, n: Value, values: seq<Value>) returns (ops: seq<Op>, returned: seq<Value>)
    requires |subp.formals| <= |subp.params|
    ensures Prepend(ops, Return(returned)) == ReturnCode(subp, n, 0, values)
  {
    var count := 0;
    ops, returned := [], values;
    for i := 0 to |subp.formals|
      invariant count == Rank(subp.formals, i)
      invariant Prepend(ops, ReturnCode(subp, n, i, returned)) == ReturnCode(subp, n, 0, values)
    {
      if subp.formals[i].mode != In {
        var read := Read(n + count, subp.params[i]);
        ghost var tail := ReturnCode(subp, n, i + 1, returned + [n + count]);
        assert Prepend([read], tail) == Do(read, tail);
        PrependBoth(ops, [read], tail);
        ops, returned, count := ops + [read], returned + [n + count], count + 1;
      }
    }
  }

  method LowerEntry(subp: Subp, p: Value, ghost rest: Code) returns (params: seq<Value>, ops: seq<Op>)
    requires |subp.formals| <= |subp.params|
    ensures params == AbiParams(subp, p, 0) && Prepend(ops, rest) == EntryCode(subp, p, 0, rest)
  {
    params, ops := [], [];
    for i := 0 to |subp.formals|
      invariant params + AbiParams(subp, p, i) == AbiParams(subp, p, 0)
      invariant Prepend(ops, EntryCode(subp, p, i, rest)) == EntryCode(subp, p, 0, rest)
    {
      var formal := subp.formals[i];
      if formal.NeedsInput() {
        var name := if formal.mode == In then subp.params[i] else p + i;
        assert (params + [name]) + AbiParams(subp, p, i + 1) == params + ([name] + AbiParams(subp, p, i + 1));
        params := params + [name];
      }
      if formal.mode != In {
        var object' := Object(subp.params[i], if formal.NeedsInput() then Some(p + i) else None);
        ghost var tail := EntryCode(subp, p, i + 1, rest);
        assert Prepend([object'], tail) == Do(object', tail);
        PrependBoth(ops, [object'], tail);
        ops := ops + [object'];
      }
    }
    params := params + subp.params[|subp.formals|..];
  }

  // ---------------------------------------------------------------- the pass

  /** Which actuals of a call have dynamic ranges, a matter of their types. */
  function DynamicOf(dynamic: Value -> bool, op: Op): (r: seq<bool>)
    requires op.AdaCall?
    ensures |r| == |op.inputs|
  {
    seq(|op.inputs|, i requires 0 <= i < |op.inputs| => dynamic(op.inputs[i]))
  }

  /** Every call has a callee in the module, and passes the verifiers. */
  ghost predicate OpAccepted(m: Module, dynamic: Value -> bool, op: Op) {
    op.AdaCall? ==> op.callee in m.subps && Verified(op, m.subps[op.callee], DynamicOf(dynamic, op))
  }

  ghost predicate Accepted(m: Module, dynamic: Value -> bool, code: Code) {
    code.Do? ==> OpAccepted(m, dynamic, code.op) && Accepted(m, dynamic, code.rest)
  }

  ghost predicate AllAccepted(m: Module, dynamic: Value -> bool, f: Sym)
    requires f in m.subps
  {
    forall b {:trigger m.subps[f].blocks[b]} :: 0 <= b < |m.subps[f].blocks| ==>
      Accepted(m, dynamic, m.subps[f].blocks[b].code)
  }

  lemma {:induction false} AcceptedVerified(m: Module, dynamic: Value -> bool, code: Code)
    requires Accepted(m, dynamic, code)
    ensures CodeVerified(m, code)
  {
    if code.Do? { AcceptedVerified(m, dynamic, code.rest); }
  }

  /** The new values `lo .. hi - 1` belong to `f`. */
  function OwnedBy(f: Sym, lo: Value, hi: Value): (r: map<Value, Sym>)
    ensures forall v :: v in r <==> lo <= v < hi
    ensures forall v :: v in r ==> r[v] == f
    decreases hi
  {
    if lo >= hi then map[] else OwnedBy(f, lo, hi - 1)[hi - 1 := f]
  }

  /** `lowered` is the lowering of `f`, with new values from `lo` on, below `hi`. */
  ghost predicate LoweredAs(m: Module, f: Sym, lowered: Subp, at: Names, lo: Value, hi: Value)
    requires f in m.subps && Signatures(m)
  {
    && |lowered.blocks| == |m.subps[f].blocks| == |at.blocks| && at.snapshots == lo
    && lowered.params == AbiParams(m.subps[f], lo, 0) && hi >= lo + |m.subps[f].formals|
    && forall b {:trigger at.blocks[b]} :: 0 <= b < |at.blocks| ==>
         && lowered.blocks[b] == LowerBlock(m, f, at, b)
         && at.blocks[b] >= lo && LowerCode(m, f, m.subps[f].blocks[b].code, at.blocks[b]).1 <= hi
  }

  ghost predicate Signatures(m: Module) { forall f :: f in m.subps ==> |m.subps[f].formals| <= |m.subps[f].params| }

  /** With `ops` emitted for what comes before `rest`, numbering goes on from `n`. */
  ghost predicate Emitted(m: Module, f: Sym, code: Code, start: Value, ops: seq<Op>, rest: Code, n: Value)
    requires f in m.subps && Signatures(m)
  {
    var tail := LowerCode(m, f, rest, n);
    LowerCode(m, f, code, start) == (Prepend(ops, tail.0), tail.1)
  }

  lemma EmittedMore(m: Module, f: Sym, code: Code, start: Value, ops: seq<Op>, rest: Code, n: Value, added: seq<Op>,
                    rest': Code, n': Value)
    requires f in m.subps && Signatures(m) && Emitted(m, f, code, start, ops, rest, n)
    requires LowerCode(m, f, rest, n) == (Prepend(added, LowerCode(m, f, rest', n').0), LowerCode(m, f, rest', n').1)
    ensures Emitted(m, f, code, start, ops + added, rest', n')
  {
    PrependBoth(ops, added, LowerCode(m, f, rest', n').0);
  }

  /** One operation: only a call is verified, and changed. */
  method LowerOp(m: Module, dynamic: Value -> bool, f: Sym, op: Op, ghost rest: Code, n: Value)
    returns (ok: bool, added: seq<Op>, n': Value)
    requires f in m.subps && Signatures(m)
    ensures n' >= n && (ok <==> OpAccepted(m, dynamic, op))
    ensures ok ==>
      LowerCode(m, f, Do(op, rest), n) == (Prepend(added, LowerCode(m, f, rest, n').0), LowerCode(m, f, rest, n').1)
  {
    ok, added, n' := true, [op], n;
    if op.AdaCall? {
      if op.callee !in m.subps { return false, [], n; }
      var callee := m.subps[op.callee];
      ok := VerifyCall(op, callee, DynamicOf(dynamic, op));
      if !ok { return; }
      n' := n + CallNames(callee.formals);
      added := LowerCaller(callee.formals, op, n, LowerCode(m, f, rest, n').0);
    } else {
      assert Prepend([op], LowerCode(m, f, rest, n).0) == Do(op, LowerCode(m, f, rest, n).0);
    }
  }

  /** The end of a block: only a return is changed. */
  method LowerTerminator(m: Module, f: Sym, code: Code, n: Value) returns (finals: seq<Op>, last: Code, n': Value)
    requires f in m.subps && Signatures(m) && !code.Do?
    ensures n' >= n && (Prepend(finals, last), n') == LowerCode(m, f, code, n)
  {
    finals, last, n' := [], code, n;
    if code.Return? {
      var returned;
      finals, returned := LowerReturn(m.subps[f], n, code.values);
      last, n' := Return(returned), n + |m.subps[f].formals|;
    }
  }

  class Pass {
    var ir: Module
    var next: Value  // no SSA value has this number or a greater one

    constructor (m: Module, next: Value)
      ensures ir == m && this.next == next
    {
      ir, this.next := m, next;
    }

    /** The calls and the terminator of one block. */
    method LowerBody(m: Module, dynamic: Value -> bool, f: Sym, code: Code) returns (ok: bool, lowered: Code)
      requires f in m.subps && Signatures(m)
      modifies this`next
      ensures next >= old(next) && (ok <==> Accepted(m, dynamic, code))
      ensures ok ==> (lowered, next) == LowerCode(m, f, code, old(next))
    {
      var rest := code;
      var ops: seq<Op> := [];
      while rest.Do?
        invariant next >= old(next) && (Accepted(m, dynamic, code) <==> Accepted(m, dynamic, rest))
        invariant Emitted(m, f, code, old(next), ops, rest, next)
        decreases rest
      {
        var added, n;
        ok, added, n := LowerOp(m, dynamic, f, rest.op, rest.rest, next);
        if !ok { return false, code; }
        EmittedMore(m, f, code, old(next), ops, rest, next, added, rest.rest, n);
        ops, next, rest := ops + added, n, rest.rest;
      }
      var finals, last, n := LowerTerminator(m, f, rest, next);
      PrependBoth(ops, finals, last);
      ok, lowered, next := true, Prepend(ops + finals, last), n;
    }

    /** One subprogram: its parameters, the objects of its writable formals, its blocks. */
    method LowerSubp(m: Module, dynamic: Value -> bool, f: Sym) returns (ok: bool, lowered: Subp, ghost at: Names)
      requires f in m.subps && Signatures(m)
      modifies this`next
      ensures ok <==> AllAccepted(m, dynamic, f)
      ensures next >= old(next) && (ok ==> LoweredAs(m, f, lowered, at, old(next), next))
    {
      var subp, p := m.subps[f], next;
      next := next + |subp.formals|;
      var blocks: seq<Block> := [];
      ghost var starts: seq<Value> := [];
      at := Names(p, []);
      for b := 0 to |subp.blocks|
        invariant |blocks| == |starts| == b && next >= p + |subp.formals|
        invariant forall k :: 0 <= k < b ==> Accepted(m, dynamic, subp.blocks[k].code)
        invariant forall k {:trigger starts[k]} :: 0 <= k < b ==>
          && starts[k] >= p && LowerCode(m, f, subp.blocks[k].code, starts[k]).1 <= next
          && blocks[k] == Block(subp.blocks[k].args, LowerCode(m, f, subp.blocks[k].code, starts[k]).0)
      {
        ghost var start := next;
        var code;
        ok, code := LowerBody(m, dynamic, f, subp.blocks[b].code);
        if !ok {
          assert !Accepted(m, dynamic, m.subps[f].blocks[b].code);
          return false, subp, Names(p, starts);
        }
        blocks, starts := blocks + [Block(subp.blocks[b].args, code)], starts + [start];
      }
      ok := true;
      at := Names(p, starts);
      var params, objects := LowerEntry(subp, p, if blocks == [] then Return([]) else blocks[0].code);
      ghost var before := blocks;
      if blocks != [] {
        blocks := [Block(blocks[0].args, Prepend(objects, blocks[0].code))] + blocks[1..];
      }
      forall b | 0 <= b < |starts| ensures blocks[b] == LowerBlock(m, f, at, b) {
        assert starts[b] == at.blocks[b] && (b > 0 ==> blocks[b] == before[b]);
      }
      lowered := Subp(params, [], blocks);
    }

    /** Replace one subprogram by its lowering. */
    method LowerInPlace(m: Module, dynamic: Value -> bool, f: Sym)
      returns (ok: bool, ghost lowered: Subp, ghost at: Names)
      requires f in m.subps && Signatures(m)
      modifies this
      ensures next >= old(next) && (ok <==> AllAccepted(m, dynamic, f))
      ensures ok ==> LoweredAs(m, f, lowered, at, old(next), next)
      ensures ok ==> ir == Module(old(ir).subps[f := lowered], old(ir).path, old(ir).home + OwnedBy(f, old(next), next))
    {
      var first := next;
      var subp;
      ok, subp, at := LowerSubp(m, dynamic, f);
      lowered := subp;
      if ok { ir := Module(ir.subps[f := subp], ir.path, ir.home + OwnedBy(f, first, next)); }
    }

    method LowerNext(m: Module, dynamic: Value -> bool, walk: seq<Sym>, k: nat, ghost names: map<Sym, Names>)
      returns (ok: bool, ghost names': map<Sym, Names>)
      requires k < |walk| && walk[k] in m.subps && forall i, j :: 0 <= i < j < |walk| ==> walk[i] != walk[j]
      requires Signatures(m) && Lowered(m, ir, names, walk, k, next)
      modifies this
      ensures ok <==> AllAccepted(m, dynamic, walk[k])
      ensures ok ==> Lowered(m, ir, names', walk, k + 1, next)
    {
      ghost var first, was := next, ir;
      ghost var lowered, at;
      ok, lowered, at := LowerInPlace(m, dynamic, walk[k]);
      names' := names[walk[k] := at];
      if ok { LoweredNext(m, was, ir, names, at, walk, k, first, next, lowered); }
    }

    /** Lower every subprogram. The pass fails exactly when some call is not
      * accepted; otherwise the module it leaves lowers the one it found. */
    method Run(walk: seq<Sym>, dynamic: Value -> bool) returns (ok: bool, ghost names: map<Sym, Names>)
      requires Signatures(ir) && (forall v :: v in ir.home ==> v < next)
      requires (forall f :: f in walk <==> f in ir.subps) && forall i, j :: 0 <= i < j < |walk| ==> walk[i] != walk[j]
      modifies this
      ensures ok <==> forall f :: f in old(ir).subps ==> AllAccepted(old(ir), dynamic, f)
      ensures ok ==> CallsLowered(old(ir), ir, names)
    {
      var m := ir;
      names := map[];
      for k := 0 to |walk|
        invariant Lowered(m, ir, names, walk, k, next)
        invariant forall j :: 0 <= j < k ==> AllAccepted(m, dynamic, walk[j])
      {
        ok, names := LowerNext(m, dynamic, walk, k, names);
        if !ok {
          assert walk[k] in walk && !AllAccepted(m, dynamic, walk[k]);
          return;
        }
      }
      ok := true;
      AllLowered(m, ir, names, walk, next);
      WalkAccepted(m, dynamic, walk);
    }
  }

  lemma WalkAccepted(m: Module, dynamic: Value -> bool, walk: seq<Sym>)
    requires forall j :: 0 <= j < |walk| ==> walk[j] in m.subps && AllAccepted(m, dynamic, walk[j])
    requires forall f :: f in walk <==> f in m.subps
    ensures forall f :: f in m.subps ==> AllAccepted(m, dynamic, f)
  {
    forall f | f in m.subps ensures AllAccepted(m, dynamic, f) {
      var j :| 0 <= j < |walk| && walk[j] == f;
    }
  }

  lemma AllLowered(m: Module, now: Module, names: map<Sym, Names>, walk: seq<Sym>, next: Value)
    requires Lowered(m, now, names, walk, |walk|, next) && forall f :: f in walk <==> f in m.subps
    ensures CallsLowered(m, now, names)
  {
    forall f | f in m.subps ensures SubpLowered(m, now, names, f) {
      var j :| 0 <= j < |walk| && walk[j] == f;
      assert SubpLowered(m, now, names, walk[j]);
    }
  }

  /** While the pass runs: the subprograms `walk[..k]` are lowered. */
  ghost predicate Lowered(m: Module, now: Module, names: map<Sym, Names>, walk: seq<Sym>, k: nat, next: Value)
    requires k <= |walk|
  {
    && now.subps.Keys == m.subps.Keys && now.path == m.path
    && (forall v :: v in now.home ==> v < next)
    && (forall v :: v in m.home ==> v in now.home && now.home[v] == m.home[v])
    && forall j :: 0 <= j < k ==> walk[j] in m.subps && SubpLowered(m, now, names, walk[j])
  }

  lemma LoweredNext(m: Module, was: Module, now: Module, names: map<Sym, Names>, at: Names, walk: seq<Sym>, k: nat,
                    first: Value, next: Value, lowered: Subp)
    requires k < |walk| && Lowered(m, was, names, walk, k, first) && walk[k] in m.subps && Signatures(m)
    requires forall i, j :: 0 <= i < j < |walk| ==> walk[i] != walk[j]
    requires LoweredAs(m, walk[k], lowered, at, first, next) && next >= first
    requires now == Module(was.subps[walk[k] := lowered], was.path, was.home + OwnedBy(walk[k], first, next))
    ensures Lowered(m, now, names[walk[k] := at], walk, k + 1, next)
  {
    var f, names' := walk[k], names[walk[k] := at];
    forall j | 0 <= j < k ensures SubpLowered(m, now, names', walk[j]) {
      assert SubpLowered(m, was, names, walk[j]);
      KeepsLowered(m, was, now, names, names', walk[j]);
    }
    forall b | 0 <= b < |at.blocks|
      ensures lowered.blocks[b] == LowerBlock(m, f, at, b)
      ensures Fresh(m, now, f, at.blocks[b], LowerCode(m, f, m.subps[f].blocks[b].code, at.blocks[b]).1)
    {
      assert at.blocks[b] == at.blocks[b];
    }
    assert SubpLowered(m, now, names', f);
  }

  lemma KeepsLowered(m: Module, was: Module, now: Module, names: map<Sym, Names>, names': map<Sym, Names>, g: Sym)
    requires g in m.subps && SubpLowered(m, was, names, g)
    requires g in names' && names'[g] == names[g] && g in now.subps && now.subps[g] == was.subps[g]
    requires forall v :: v in was.home ==> v in now.home && now.home[v] == was.home[v]
    ensures SubpLowered(m, now, names', g)
  {
    var subp, at := m.subps[g], names[g];
    forall b | 0 <= b < |subp.blocks|
      ensures Fresh(m, now, g, at.blocks[b], LowerCode(m, g, subp.blocks[b].code, at.blocks[b]).1)
    {
      assert Fresh(m, was, g, at.blocks[b], LowerCode(m, g, subp.blocks[b].code, at.blocks[b]).1);
    }
  }
}
