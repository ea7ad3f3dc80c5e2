/** Lowered calls simulate by-copy calls: `CallsKeepMeaning`. */
module CallMeaning {
  import opened Options
  import opened Ir
  import opened Lifting
  import opened Calls

  // ---------------------------------------------------------------- frames

  /** Both activations of `f` agree on the values of the source. */
  ghost predicate Alike(m: Module, f: Sym, frame: Frame, frame': Frame) {
    forall v :: v in m.home && m.home[v] == f ==>
      (v in frame <==> v in frame') && (v in frame' ==> frame[v] == frame'[v])
  }

  predicate Own(m: Module, f: Sym, vs: seq<Value>) {
    forall v :: v in vs ==> v in m.home && m.home[v] == f
  }

  function Held(frame: Frame, v: Value): Val { if v in frame then frame[v] else Undef }

  lemma LookOwn(m: Module, f: Sym, frame: Frame, v: Value)
    requires LibraryLevel(m, f) && v in m.home && m.home[v] == f
    ensures Look(m, [frame], v) == Held(frame, v)
  {
  }

  /** The setting of every lemma below: `m'` lowers `m`, and `f` is one of its subprograms. */
  ghost predicate Setting(m: Module, m': Module, names: map<Sym, Names>, f: Sym) {
    Source(m) && CallsLowered(m, m', names) && f in m.subps
  }

  /** In both modules `f` is at library level, and owns its values. */
  ghost predicate SameHomes(m: Module, m': Module, f: Sym) {
    LibraryLevel(m, f) && LibraryLevel(m', f) &&
    forall v :: v in m.home && m.home[v] == f ==> v in m'.home && m'.home[v] == f
  }

  lemma Level(m: Module, m': Module, names: map<Sym, Names>, f: Sym)
    requires Setting(m, m', names, f)
    ensures SameHomes(m, m', f) && SubpOk(m, f) && SubpTyped(m, f) && SubpLowered(m, m', names, f)
  {
    assert LibraryLevel(m, f) && SubpOk(m, f) && SubpTyped(m, f) && SubpLowered(m, m', names, f);
  }

  lemma SameLooks(m: Module, m': Module, f: Sym, frame: Frame, frame': Frame, vs: seq<Value>)
    requires SameHomes(m, m', f) && Alike(m, f, frame, frame') && Own(m, f, vs)
    ensures Looks(m', [frame'], vs) == Looks(m, [frame], vs)
  {
    forall i | 0 <= i < |vs| ensures Look(m', [frame'], vs[i]) == Look(m, [frame], vs[i]) { assert vs[i] in vs; }
  }

  lemma BindAlike(m: Module, f: Sym, frame: Frame, frame': Frame, vs: seq<Value>, vals: seq<Val>)
    requires Alike(m, f, frame, frame')
    ensures Alike(m, f, Bind(frame, vs, vals), Bind(frame', vs, vals))
  {
    forall v | v in m.home && m.home[v] == f
      ensures (v in Bind(frame, vs, vals) <==> v in Bind(frame', vs, vals))
      ensures v in Bind(frame', vs, vals) ==> Bind(frame, vs, vals)[v] == Bind(frame', vs, vals)[v]
    {
      BindAgree(frame, frame', vs, vals, v);
    }
  }

  /** A new value is not one of the source's. */
  lemma SetNew(m: Module, f: Sym, frame: Frame, frame': Frame, v: Value, x: Val)
    requires Alike(m, f, frame, frame') && v !in m.home
    ensures Alike(m, f, frame, frame'[v := x])
  {
  }

  lemma BindOne(frame: Frame, v: Value, x: Val)
    ensures Bind(frame, [v], [x]) == frame[v := x] && Extend([frame], [v], [x]) == [frame[v := x]]
  {
    assert [v][1..] == [] && [x][1..] == [];
    assert [frame][0 := frame[v := x]] == [frame[v := x]];
  }

  // --------------------------------------------------------- final values

  lemma {:induction false} RankGrows(formals: seq<Formal>, i: nat, j: nat)
    requires i <= j <= |formals|
    ensures Rank(formals, i) <= Rank(formals, j)
    ensures i < j && formals[i].Writable() ==> Rank(formals, i) < Rank(formals, j)
    decreases j
  {
    if i < j { RankGrows(formals, i, j - 1); }
  }

  /** The outputs are in formal order. */
  lemma {:induction false} FinalsAt(formals: seq<Formal>, denoted: seq<Val>, store: Store, i: nat, j: nat)
    requires i <= j <= |formals| <= |denoted|
    ensures |Finals(formals, denoted, store, i)| == Rank(formals, |formals|) - Rank(formals, i)
    ensures Rank(formals, i) <= Rank(formals, j)
    ensures j < |formals| && formals[j].Writable() ==>
      Rank(formals, j) < Rank(formals, |formals|) &&
      Finals(formals, denoted, store, i)[Rank(formals, j) - Rank(formals, i)] == FinalOf(denoted[j], store)
    decreases |formals| - i
  {
    RankGrows(formals, i, j);
    RankGrows(formals, j, |formals|);
    if i < |formals| { FinalsAt(formals, denoted, store, i + 1, if i < j then j else i + 1); }
  }

  /** The writable formals denote objects from `k` on, which exist. */
  ghost predicate Denotes(formals: seq<Formal>, denoted: seq<Val>, k: nat, store: Store) {
    |formals| <= |denoted| &&
    forall j :: 0 <= j < |formals| && formals[j].Writable() ==> denoted[j].Ref? && k <= denoted[j].loc < |store|
  }

  // ---------------------------------------------------------------- returns

  /** The callee's frame holds the objects its writable formals denote. */
  ghost predicate Holds(subp: Subp, denoted: seq<Val>, frame': Frame) {
    && |subp.formals| <= |denoted| && |subp.formals| <= |subp.params|
    && forall j :: 0 <= j < |subp.formals| && subp.formals[j].Writable() ==>
         subp.params[j] in frame' && frame'[subp.params[j]] == denoted[j]
  }

  /** The numbers `lo .. hi - 1` name values of `f`. */
  ghost predicate NamedIn(m: Module, f: Sym, lo: Value, hi: Value) {
    LibraryLevel(m, f) && forall v :: lo <= v < hi ==> v in m.home && m.home[v] == f
  }

  lemma ExtendOne(frame: Frame, vs: seq<Value>, vals: seq<Val>)
    ensures Extend([frame], vs, vals) == [Bind(frame, vs, vals)]
  {
  }

  lemma {:induction false} ReturnRuns(m': Module, prim: Prim, f: Sym, subp: Subp, n: Value, i: nat, values: seq<Value>,
                                      denoted: seq<Val>, frame': Frame, store: Store, fuel: nat)
    requires i <= |subp.formals| <= |subp.params| && NamedIn(m', f, n, n + |subp.formals|) && Own(m', f, subp.params)
    requires forall v :: v in subp.params ==> !(n <= v < n + |subp.formals|)
    requires Holds(subp, denoted, frame') && Denotes(subp.formals, denoted, 0, store)
    requires forall v :: v in values ==> !(n + Rank(subp.formals, i) <= v < n + |subp.formals|)
    ensures Exec(m', prim, f, ReturnCode(subp, n, i, values), [frame'], store, fuel)
         == Returned(Looks(m', [frame'], values) + Finals(subp.formals, denoted, store, i), store)
    decreases |subp.formals| - i
  {
    if i < |subp.formals| {
      if subp.formals[i].Writable() {
        var out, obj, x := n + Rank(subp.formals, i), subp.params[i], FinalOf(denoted[i], store);
        var frame1 := frame'[out := x];
        assert obj in subp.params;
        LookOwn(m', f, frame', obj);
        BindOne(frame', out, x);
        forall j | 0 <= j < |subp.formals| ensures subp.params[j] != out { assert subp.params[j] in subp.params; }
        ReturnRuns(m', prim, f, subp, n, i + 1, values + [out], denoted, frame1, store, fuel);
        LooksNew(m', f, frame', out, x, values);
        assert Looks(m', [frame1], values + [out]) == Looks(m', [frame'], values) + [x];
        assert Looks(m', [frame'], [obj]) == [denoted[i]];
      } else {
        ReturnRuns(m', prim, f, subp, n, i + 1, values, denoted, frame', store, fuel);
      }
    }
  }

  lemma LooksNew(m: Module, f: Sym, frame: Frame, v: Value, x: Val, vs: seq<Value>)
    requires LibraryLevel(m, f) && v in m.home && m.home[v] == f && v !in vs
    ensures Looks(m, [frame[v := x]], vs) == Looks(m, [frame], vs) && Look(m, [frame[v := x]], v) == x
  {
    forall i | 0 <= i < |vs| ensures Look(m, [frame[v := x]], vs[i]) == Look(m, [frame], vs[i]) {
      assert vs[i] in vs;
    }
  }

  // ------------------------------------------------------------------ entry

  /** The names that carry formals and captures differ from each other. */
  ghost predicate Apart(m: Module, subp: Subp, p: Value) {
    && |subp.formals| <= |subp.params| && NoDup(subp.params)
    && (forall v :: v in subp.params ==> v in m.home)
    && forall v :: p <= v < p + |subp.formals| ==> v !in m.home
  }

  /** Formal or capture `j` has an input of the value ABI. */
  predicate HasInput(subp: Subp, j: nat) { j < |subp.params| && (j < |subp.formals| ==> subp.formals[j].NeedsInput()) }

  lemma {:induction false} AbiParamsMembers(m: Module, subp: Subp, p: Value, i: nat, v: Value)
    requires Apart(m, subp, p) && i <= |subp.formals| && v in AbiParams(subp, p, i)
    ensures exists j :: i <= j < |subp.params| && HasInput(subp, j) && v == ParamName(subp, p, j)
    decreases |subp.formals| - i
  {
    if i == |subp.formals| {
      var k :| 0 <= k < |subp.params[i..]| && subp.params[i..][k] == v;
      assert HasInput(subp, i + k) && v == ParamName(subp, p, i + k);
    } else if subp.formals[i].NeedsInput() && v == ParamName(subp, p, i) {
      assert HasInput(subp, i);
    } else {
      AbiParamsMembers(m, subp, p, i + 1, v);
    }
  }

  lemma NamesApart(m: Module, subp: Subp, p: Value, i: nat, j: nat)
    requires Apart(m, subp, p) && i < |subp.params| && j < |subp.params| && i != j
    ensures ParamName(subp, p, i) != ParamName(subp, p, j)
  {
    assert subp.params[i] in subp.params && subp.params[j] in subp.params;
    assert i < j ==> subp.params[i] != subp.params[j];
  }

  lemma NotALaterName(m: Module, subp: Subp, p: Value, i: nat)
    requires Apart(m, subp, p) && i < |subp.formals|
    ensures ParamName(subp, p, i) !in AbiParams(subp, p, i + 1)
  {
    var name := ParamName(subp, p, i);
    if name in AbiParams(subp, p, i + 1) {
      AbiParamsMembers(m, subp, p, i + 1, name);
      var k :| i + 1 <= k < |subp.params| && HasInput(subp, k) && name == ParamName(subp, p, k);
      NamesApart(m, subp, p, i, k);
    }
  }

  /** Every input is bound to what was passed for it. */
  lemma {:induction false} AbiBound(m: Module, subp: Subp, p: Value, frame: Frame, args: seq<Val>, initials: seq<Val>,
                                    info: CallInfo, i: nat, j: nat)
    requires Apart(m, subp, p) && i <= |subp.formals| && |args| == |subp.params| && i <= j && HasInput(subp, j)
    ensures var r := Bind(frame, AbiParams(subp, p, i), AbiArgs(subp.formals, args, initials, info, i));
            var v := ParamName(subp, p, j);
            v in r && r[v] == if j < |subp.formals| then Passed(subp.formals, args, initials, info, j) else args[j]
    decreases |subp.formals| - i
  {
    if i == |subp.formals| {
      BindAt(frame, subp.params[i..], args[i..], j - i);
    } else if subp.formals[i].NeedsInput() {
      var name := ParamName(subp, p, i);
      var frame1 := frame[name := Passed(subp.formals, args, initials, info, i)];
      var names, vals := AbiParams(subp, p, i + 1), AbiArgs(subp.formals, args, initials, info, i + 1);
      assert ([name] + names)[1..] == names && ([frame1[name]] + vals)[1..] == vals;
      if j == i {
        NotALaterName(m, subp, p, i);
        BindOther(frame1, names, vals, name);
      } else {
        AbiBound(m, subp, p, frame1, args, initials, info, i + 1, j);
      }
    } else {
      AbiBound(m, subp, p, frame, args, initials, info, i + 1, j);
    }
  }

  /** The callee's frame once its objects exist. */
  function EntryFrame(subp: Subp, frame: Frame, denoted: seq<Val>, i: nat): Frame
    requires i <= |subp.formals| <= |subp.params| && |denoted| == |subp.formals| - i
    decreases |subp.formals| - i
  {
    if i == |subp.formals| then frame
    else EntryFrame(subp, if subp.formals[i].Writable() then frame[subp.params[i] := denoted[0]] else frame,
                    denoted[1..], i + 1)
  }

  lemma {:induction false} EntryFrameAt(subp: Subp, frame: Frame, denoted: seq<Val>, i: nat, v: Value)
    requires i <= |subp.formals| <= |subp.params| && |denoted| == |subp.formals| - i && NoDup(subp.params)
    ensures var r := EntryFrame(subp, frame, denoted, i);
            && (forall j :: i <= j < |subp.formals| && subp.formals[j].Writable() && v == subp.params[j] ==>
                  v in r && r[v] == denoted[j - i])
            && ((forall j :: i <= j < |subp.formals| && subp.formals[j].Writable() ==> v != subp.params[j]) ==>
                (v in r <==> v in frame) && (v in frame ==> r[v] == frame[v]))
    decreases |subp.formals| - i
  {
    if i < |subp.formals| {
      var frame1 := if subp.formals[i].Writable() then frame[subp.params[i] := denoted[0]] else frame;
      EntryFrameAt(subp, frame1, denoted[1..], i + 1, v);
      forall j | i < j < |subp.formals|
        ensures denoted[1..][j - i - 1] == denoted[j - i] && subp.params[i] != subp.params[j]
      {
      }
    }
  }

  /** The snapshot of formal `j`, if it has one, is where the caller passed it. */
  ghost predicate SnapshotIn(subp: Subp, p: Value, frame': Frame, initials: seq<Val>, info: CallInfo, j: nat)
    requires j < |subp.formals|
  {
    var init := Assigned(info.initialFormals, initials, j);
    subp.formals[j].Writable() ==>
      && (init.Some? <==> subp.formals[j].NeedsInput())
      && (init.Some? ==> p + j in frame' && frame'[p + j] == init.value)
  }

  /** The store once formal `i` has been entered. */
  function EnteredStore(formals: seq<Formal>, initials: seq<Val>, info: CallInfo, store: Store, i: nat): Store
    requires i < |formals|
  {
    var init := Assigned(info.initialFormals, initials, i);
    if formals[i].Writable() then store + [if init.Some? then init.value else Undef] else store
  }

  lemma EnterStep(formals: seq<Formal>, args: seq<Val>, initials: seq<Val>, info: CallInfo, store: Store, i: nat)
    requires i < |formals| <= |args|
    ensures var rest := Enter(formals, args, initials, info, EnteredStore(formals, initials, info, store, i), i + 1);
            Enter(formals, args, initials, info, store, i)
              == ([if formals[i].Writable() then Ref(|store|) else args[i]] + rest.0, rest.1)
  {
  }

  lemma {:induction false} EntryRuns(m': Module, prim: Prim, f: Sym, subp: Subp, p: Value, i: nat, rest: Code,
                                     frame': Frame, args: seq<Val>, initials: seq<Val>, info: CallInfo, store: Store,
                                     fuel: nat)
    requires i <= |subp.formals| <= |subp.params| && |args| >= |subp.formals| && NamedIn(m', f, p, p + |subp.formals|)
    requires forall v :: v in subp.params ==> !(p <= v < p + |subp.formals|)
    requires forall j :: i <= j < |subp.formals| ==> SnapshotIn(subp, p, frame', initials, info, j)
    ensures var entry := Enter(subp.formals, args, initials, info, store, i);
            Exec(m', prim, f, EntryCode(subp, p, i, rest), [frame'], store, fuel)
              == Exec(m', prim, f, rest, [EntryFrame(subp, frame', entry.0, i)], entry.1, fuel)
    decreases |subp.formals| - i
  {
    if i < |subp.formals| {
      var store1 := EnteredStore(subp.formals, initials, info, store, i);
      var frame1 := if subp.formals[i].Writable() then frame'[subp.params[i] := Ref(|store|)] else frame';
      EntryOneRuns(m', prim, f, subp, p, i, rest, frame', initials, info, store, fuel);
      EntryRuns(m', prim, f, subp, p, i + 1, rest, frame1, args, initials, info, store1, fuel);
      EnterStep(subp.formals, args, initials, info, store, i);
      var entry := Enter(subp.formals, args, initials, info, store, i);
      assert entry.0[1..] == Enter(subp.formals, args, initials, info, store1, i + 1).0;
      EntryFrameStep(subp, frame', entry.0, i);
    }
  }

  lemma EntryFrameStep(subp: Subp, frame: Frame, denoted: seq<Val>, i: nat)
    requires i < |subp.formals| <= |subp.params| && |denoted| == |subp.formals| - i
    ensures EntryFrame(subp, frame, denoted, i)
         == EntryFrame(subp, if subp.formals[i].Writable() then frame[subp.params[i] := denoted[0]] else frame,
                       denoted[1..], i + 1)
  {
  }

  /** The entry code of one formal: an object for a writable one. */
  lemma EntryOneRuns(m': Module, prim: Prim, f: Sym, subp: Subp, p: Value, i: nat, rest: Code, frame': Frame,
                     initials: seq<Val>, info: CallInfo, store: Store, fuel: nat)
    requires i < |subp.formals| <= |subp.params| && NamedIn(m', f, p, p + |subp.formals|)
    requires forall v :: v in subp.params ==> !(p <= v < p + |subp.formals|)
    requires forall j :: i <= j < |subp.formals| ==> SnapshotIn(subp, p, frame', initials, info, j)
    ensures var frame1 := if subp.formals[i].Writable() then frame'[subp.params[i] := Ref(|store|)] else frame';
            && Exec(m', prim, f, EntryCode(subp, p, i, rest), [frame'], store, fuel)
               == Exec(m', prim, f, EntryCode(subp, p, i + 1, rest), [frame1],
                       EnteredStore(subp.formals, initials, info, store, i), fuel)
            && forall j :: i < j < |subp.formals| ==> SnapshotIn(subp, p, frame1, initials, info, j)
  {
    if subp.formals[i].Writable() {
      var init := Assigned(info.initialFormals, initials, i);
      var obj := subp.params[i];
      var frame1 := frame'[obj := Ref(|store|)];
      assert SnapshotIn(subp, p, frame', initials, info, i) && obj in subp.params;
      if init.Some? { LookOwn(m', f, frame', p + i); assert Looks(m', [frame'], [p + i]) == [init.value]; }
      BindOne(frame', obj, Ref(|store|));
      forall j | i < j < |subp.formals| ensures SnapshotIn(subp, p, frame1, initials, info, j) {
        assert SnapshotIn(subp, p, frame', initials, info, j);
      }
    }
  }

  /** By-copy entry makes each writable formal denote a new object. */
  lemma {:induction false} EnterDenotes(formals: seq<Formal>, args: seq<Val>, initials: seq<Val>, info: CallInfo,
                                        store: Store, i: nat, j: nat)
    requires i <= j < |formals| <= |args|
    ensures var entry := Enter(formals, args, initials, info, store, i);
            if formals[j].Writable() then entry.0[j - i].Ref? && |store| <= entry.0[j - i].loc < |entry.1|
              else entry.0[j - i] == args[j]
    decreases |formals| - i
  {
    var store1 := EnteredStore(formals, initials, info, store, i);
    EnterStep(formals, args, initials, info, store, i);
    var rest := Enter(formals, args, initials, info, store1, i + 1);
    assert |rest.1| >= |store1|;
    if i < j {
      EnterDenotes(formals, args, initials, info, store1, i + 1, j);
      assert Enter(formals, args, initials, info, store, i).0[j - i] == rest.0[j - (i + 1)];
    }
  }

  /** One name at the start of a body. */
  lemma EntryAt(m: Module, subp: Subp, p: Value, args: seq<Val>, initials: seq<Val>, info: CallInfo, store: Store,
                v: Value)
    requires Apart(m, subp, p) && |args| == |subp.params| && v in m.home
    ensures var entry := Enter(subp.formals, args, initials, info, store, 0);
            var frame := Bind(map[], subp.params, entry.0 + args[|subp.formals|..]);
            var inputs := Bind(map[], AbiParams(subp, p, 0), AbiArgs(subp.formals, args, initials, info, 0));
            var frame' := EntryFrame(subp, inputs, entry.0, 0);
            (v in frame <==> v in frame') && (v in frame' ==> frame[v] == frame'[v])
  {
    var entry := Enter(subp.formals, args, initials, info, store, 0);
    var vals := entry.0 + args[|subp.formals|..];
    var names, given := AbiParams(subp, p, 0), AbiArgs(subp.formals, args, initials, info, 0);
    EntryFrameAt(subp, Bind(map[], names, given), entry.0, 0, v);
    if v in subp.params {
      var k :| 0 <= k < |subp.params| && subp.params[k] == v;
      BindAt(map[], subp.params, vals, k);
      if !(k < |subp.formals| && subp.formals[k].Writable()) {
        assert HasInput(subp, k);
        AbiBound(m, subp, p, map[], args, initials, info, 0, k);
        if k < |subp.formals| { EnterDenotes(subp.formals, args, initials, info, store, 0, k); }
      }
    } else {
      NotAnInput(m, subp, p, v);
      BindOther(map[], subp.params, vals, v);
      BindOther(map[], names, given, v);
    }
  }

  /** The frames at the start of a body: the source binds what its formals denote. */
  lemma EntryAlike(m: Module, f: Sym, subp: Subp, p: Value, args: seq<Val>, initials: seq<Val>, info: CallInfo,
                   store: Store)
    requires Apart(m, subp, p) && |args| == |subp.params|
    ensures var entry := Enter(subp.formals, args, initials, info, store, 0);
            var frame := Bind(map[], subp.params, entry.0 + args[|subp.formals|..]);
            var inputs := Bind(map[], AbiParams(subp, p, 0), AbiArgs(subp.formals, args, initials, info, 0));
            var frame' := EntryFrame(subp, inputs, entry.0, 0);
            Alike(m, f, frame, frame') && Holds(subp, entry.0, frame')
  {
    var entry := Enter(subp.formals, args, initials, info, store, 0);
    var vals := entry.0 + args[|subp.formals|..];
    var frame := Bind(map[], subp.params, vals);
    var inputs := Bind(map[], AbiParams(subp, p, 0), AbiArgs(subp.formals, args, initials, info, 0));
    var frame' := EntryFrame(subp, inputs, entry.0, 0);
    forall v | v in m.home ensures (v in frame <==> v in frame') && (v in frame' ==> frame[v] == frame'[v]) {
      EntryAt(m, subp, p, args, initials, info, store, v);
    }
    forall j | 0 <= j < |subp.formals| && subp.formals[j].Writable()
      ensures subp.params[j] in frame' && frame'[subp.params[j]] == entry.0[j]
    {
      EntryFrameAt(subp, inputs, entry.0, 0, subp.params[j]);
    }
  }

  lemma NotAnInput(m: Module, subp: Subp, p: Value, v: Value)
    requires Apart(m, subp, p) && v in m.home && v !in subp.params
    ensures v !in AbiParams(subp, p, 0)
  {
    forall j | 0 <= j < |subp.params| ensures v != ParamName(subp, p, j) { assert subp.params[j] in subp.params; }
    if v in AbiParams(subp, p, 0) { AbiParamsMembers(m, subp, p, 0, v); }
  }

  // -------------------------------------------------------------- copy-back

  /** The caller holds the final value of every writable formal under its output name,
    * and the actuals exist. */
  ghost predicate Outputs(formals: seq<Formal>, n: Value, finals: seq<Val>, args: seq<Val>, frame': Frame,
                          store: Store) {
    && |formals| <= |args| && |finals| == Rank(formals, |formals|)
    && forall j :: 0 <= j < |formals| && formals[j].Writable() ==>
         && Rank(formals, j) < |finals|
         && n + Rank(formals, j) in frame' && frame'[n + Rank(formals, j)] == finals[Rank(formals, j)]
         && args[j].Ref? && args[j].loc < |store|
  }

  /** A call in `f` whose arguments and ranges are `args` and `ranges`. */
  ghost predicate Caller(m: Module, m': Module, f: Sym, formals: seq<Formal>, op: Op, args: seq<Val>, ranges: seq<Val>,
                         frame: Frame) {
    && SameHomes(m, m', f) && op.AdaCall? && |formals| <= |op.inputs|
    && Own(m, f, op.inputs) && Own(m, f, op.ranges)
    && args == Looks(m, [frame], op.inputs) && ranges == Looks(m, [frame], op.ranges)
  }

  /** How the caller continues after its copy-back ends with `r`. */
  function AfterCopy(m: Module, prim: Prim, f: Sym, r: Copied, rest: Code, frame: Frame, fuel: nat): Outcome {
    match r
    case Copied(store) => Exec(m, prim, f, rest, [frame], store, fuel)
    case CopyRaised(store) => Raised(store)
    case CopyStuck => Stuck
  }

  ghost predicate Continues(m: Module, prim: Prim, f: Sym, r: Copied, o: Outcome, rest: Code, frame: Frame, fuel: nat) {
    !r.CopyStuck? ==> o == AfterCopy(m, prim, f, r, rest, frame, fuel)
  }

  /** The caller during the copy-back, with new values from `n` on, below `hi`. */
  ghost predicate Copying(m: Module, m': Module, f: Sym, formals: seq<Formal>, op: Op, n: Value, hi: Value,
                          args: seq<Val>, ranges: seq<Val>, frame: Frame) {
    Caller(m, m', f, formals, op, args, ranges, frame) && Fresh(m, m', f, n, hi)
  }

  lemma {:induction false} CopyRuns(m: Module, m': Module, prim: Prim, f: Sym, formals: seq<Formal>, order: seq<int>,
                                    op: Op, n: Value, c: Value, hi: Value, rest: Code, finals: seq<Val>, args: seq<Val>,
                                    ranges: seq<Val>, frame: Frame, frame': Frame, store: Store, fuel: nat)
    returns (last: Frame, r: Copied, o': Outcome)
    requires Copying(m, m', f, formals, op, n, hi, args, ranges, frame) && n + Rank(formals, |formals|) <= c
    requires c + |order| <= hi
    requires Alike(m, f, frame, frame') && Outputs(formals, n, finals, args, frame', store)
    ensures r == CopyBack(prim, formals, order, finals, args, ranges, op.info, store)
    ensures o' == Exec(m', prim, f, CopyCode(formals, order, op, n, c, rest), [frame'], store, fuel)
    ensures Continues(m', prim, f, r, o', rest, last, fuel) && Alike(m, f, frame, last)
    decreases |order|
  {
    last := frame';
    r := CopyBack(prim, formals, order, finals, args, ranges, op.info, store);
    o' := Exec(m', prim, f, CopyCode(formals, order, op, n, c, rest), [frame'], store, fuel);
    if order == [] {
      assert r == Copied(store) && CopyCode(formals, order, op, n, c, rest) == rest;
    } else if !(0 <= order[0] < |formals| && order[0] < |op.info.targets|) {
      assert r == CopyStuck;
    } else if formals[order[0]].Writable() {
      last, r, o' := CopyStepRuns(m, m', prim, f, formals, order, op, n, c, hi, rest, finals, args, ranges, frame,
                                  frame', store, fuel);
    } else {
      CopySkips(prim, formals, order, op, n, c, rest, finals, args, ranges, store);
      last, r, o' := CopyRuns(m, m', prim, f, formals, order[1..], op, n, c, hi, rest, finals, args, ranges, frame,
                              frame', store, fuel);
    }
  }

  lemma {:induction false} CopyStepRuns(m: Module, m': Module, prim: Prim, f: Sym, formals: seq<Formal>,
                                        order: seq<int>, op: Op, n: Value, c: Value, hi: Value, rest: Code,
                                        finals: seq<Val>, args: seq<Val>, ranges: seq<Val>, frame: Frame, frame': Frame,
                                        store: Store, fuel: nat)
    returns (last: Frame, r: Copied, o': Outcome)
    requires Copying(m, m', f, formals, op, n, hi, args, ranges, frame) && n + Rank(formals, |formals|) <= c
    requires c + |order| <= hi
    requires Alike(m, f, frame, frame') && Outputs(formals, n, finals, args, frame', store)
    requires order != [] && 0 <= order[0] < |formals| && order[0] < |op.info.targets| && formals[order[0]].Writable()
    ensures r == CopyBack(prim, formals, order, finals, args, ranges, op.info, store)
    ensures o' == Exec(m', prim, f, CopyCode(formals, order, op, n, c, rest), [frame'], store, fuel)
    ensures Continues(m', prim, f, r, o', rest, last, fuel) && Alike(m, f, frame, last)
    decreases |order|, 0
  {
    var ok, frame1, store1 := CopyFirst(m, m', prim, f, formals, order, op, n, c, hi, rest, finals, args, ranges, frame,
                                        frame', store, fuel);
    if ok {
      last, r, o' := CopyRuns(m, m', prim, f, formals, order[1..], op, n, c + 1, hi, rest, finals, args, ranges, frame,
                              frame1, store1, fuel);
    } else {
      last, r, o' := frame1, CopyRaised(store), Raised(store);
    }
  }

  /** The first copy-back, in the source and in the lowered caller: the frame and the store
    * after it, if it does not raise. */
  lemma CopyFirst(m: Module, m': Module, prim: Prim, f: Sym, formals: seq<Formal>, order: seq<int>, op: Op,
                  n: Value, c: Value, hi: Value, rest: Code, finals: seq<Val>, args: seq<Val>, ranges: seq<Val>,
                  frame: Frame, frame': Frame, store: Store, fuel: nat)
    returns (ok: bool, frame1: Frame, store1: Store)
    requires Copying(m, m', f, formals, op, n, hi, args, ranges, frame) && n + Rank(formals, |formals|) <= c
    requires c + |order| <= hi
    requires Alike(m, f, frame, frame') && Outputs(formals, n, finals, args, frame', store)
    requires order != [] && 0 <= order[0] < |formals| && order[0] < |op.info.targets| && formals[order[0]].Writable()
    ensures CopyBack(prim, formals, order, finals, args, ranges, op.info, store)
         == if ok then CopyBack(prim, formals, order[1..], finals, args, ranges, op.info, store1) else CopyRaised(store)
    ensures Exec(m', prim, f, CopyCode(formals, order, op, n, c, rest), [frame'], store, fuel)
         == if ok then Exec(m', prim, f, CopyCode(formals, order[1..], op, n, c + 1, rest), [frame1], store1, fuel)
            else Raised(store)
    ensures Alike(m, f, frame, frame1) && (ok ==> Outputs(formals, n, finals, args, frame1, store1))
  {
    var i := order[0];
    var x := prim.value(op.info.targets[i], ConvArgs(op.info, ranges, i, finals[Rank(formals, i)]));
    var next := CopyCode(formals, order[1..], op, n, c + 1, rest);
    CopyUnfolds(prim, formals, order, op, n, c, rest, finals, args, ranges, store);
    CopyOneRuns(m, m', prim, f, formals, i, op, n, c, hi, next, finals, args, ranges, frame, frame', store, fuel);
    ok, frame1, store1 := x.Some?, frame', store;
    if ok { frame1, store1 := frame'[c := x.value], store[args[i].loc := x.value]; }
  }

  lemma CopySkips(prim: Prim, formals: seq<Formal>, order: seq<int>, op: Op, n: Value, c: Value, rest: Code,
                  finals: seq<Val>, args: seq<Val>, ranges: seq<Val>, store: Store)
    requires op.AdaCall? && |formals| <= |args|
    requires order != [] && 0 <= order[0] < |formals| && order[0] < |op.info.targets| && !formals[order[0]].Writable()
    ensures CopyCode(formals, order, op, n, c, rest) == CopyCode(formals, order[1..], op, n, c, rest)
    ensures CopyBack(prim, formals, order, finals, args, ranges, op.info, store)
         == CopyBack(prim, formals, order[1..], finals, args, ranges, op.info, store)
  {
  }

  /** The code of one copy-back: the conversion of output `i` into `c`, then the assignment. */
  function CopyOne(formals: seq<Formal>, i: nat, op: Op, n: Value, c: Value, next: Code): Code
    requires op.AdaCall? && i < |formals| <= |op.inputs| && i < |op.info.targets|
  {
    var range := Assigned(op.info.rangeFormals, op.ranges, i);
    Do(Eval(c, op.info.targets[i], [n + Rank(formals, i)] + if range.Some? then [range.value] else []),
       Do(Write(c, op.inputs[i]), next))
  }

  /** The conversion of one output, and its assignment if it does not raise. */
  lemma CopyOneRuns(m: Module, m': Module, prim: Prim, f: Sym, formals: seq<Formal>, i: nat, op: Op, n: Value, c: Value,
                    hi: Value, next: Code, finals: seq<Val>, args: seq<Val>, ranges: seq<Val>, frame: Frame,
                    frame': Frame, store: Store, fuel: nat)
    requires Caller(m, m', f, formals, op, args, ranges, frame) && Alike(m, f, frame, frame')
    requires Fresh(m, m', f, n, hi) && n + Rank(formals, |formals|) <= c < hi
    requires Outputs(formals, n, finals, args, frame', store)
    requires i < |formals| && i < |op.info.targets| && formals[i].Writable()
    ensures var x := prim.value(op.info.targets[i], ConvArgs(op.info, ranges, i, finals[Rank(formals, i)]));
            var o' := Exec(m', prim, f, CopyOne(formals, i, op, n, c, next), [frame'], store, fuel);
            && (x.None? ==> o' == Raised(store))
            && (x.Some? ==>
                && o' == Exec(m', prim, f, next, [frame'[c := x.value]], store[args[i].loc := x.value], fuel)
                && Alike(m, f, frame, frame'[c := x.value])
                && Outputs(formals, n, finals, args, frame'[c := x.value], store[args[i].loc := x.value]))
  {
    var range := Assigned(op.info.rangeFormals, op.ranges, i);
    var uses := [n + Rank(formals, i)] + if range.Some? then [range.value] else [];
    var vals := ConvArgs(op.info, ranges, i, finals[Rank(formals, i)]);
    var x := prim.value(op.info.targets[i], vals);
    ConvUses(m, m', f, formals, op, n, i, finals, args, ranges, frame, frame', store, hi);
    EvalStep(m', prim, f, c, op.info.targets[i], uses, frame', vals, Do(Write(c, op.inputs[i]), next), store, fuel);
    if x.Some? {
      var frame1, store1 := frame'[c := x.value], store[args[i].loc := x.value];
      SetNew(m, f, frame, frame', c, x.value);
      SameLooks(m, m', f, frame, frame1, op.inputs);
      assert Look(m', [frame1], op.inputs[i]) == args[i] by { assert Looks(m', [frame1], op.inputs)[i] == args[i]; }
      OutputsStay(formals, n, finals, args, frame', store, c, x.value, args[i].loc);
      WriteStep(m', prim, f, c, op.inputs[i], frame1, x.value, args[i], next, store, fuel);
    }
  }

  lemma CopyUnfolds(prim: Prim, formals: seq<Formal>, order: seq<int>, op: Op, n: Value, c: Value, rest: Code,
                    finals: seq<Val>, args: seq<Val>, ranges: seq<Val>, store: Store)
    requires op.AdaCall? && |formals| <= |op.inputs| && |formals| <= |args|
    requires order != [] && 0 <= order[0] < |formals| && order[0] < |op.info.targets| && formals[order[0]].Writable()
    requires Rank(formals, order[0]) < |finals| && args[order[0]].Ref? && args[order[0]].loc < |store|
    ensures var i := order[0];
            var x := prim.value(op.info.targets[i], ConvArgs(op.info, ranges, i, finals[Rank(formals, i)]));
            && CopyCode(formals, order, op, n, c, rest)
               == CopyOne(formals, i, op, n, c, CopyCode(formals, order[1..], op, n, c + 1, rest))
            && CopyBack(prim, formals, order, finals, args, ranges, op.info, store)
               == if x.None? then CopyRaised(store)
                  else CopyBack(prim, formals, order[1..], finals, args, ranges, op.info, store[args[i].loc := x.value])
  {
  }

  lemma EvalStep(m: Module, prim: Prim, f: Sym, c: Value, fn: nat, uses: seq<Value>, frame: Frame, vals: seq<Val>,
                 rest: Code, store: Store, fuel: nat)
    requires Looks(m, [frame], uses) == vals
    ensures prim.value(fn, vals).None? ==>
      Exec(m, prim, f, Do(Eval(c, fn, uses), rest), [frame], store, fuel) == Raised(store)
    ensures prim.value(fn, vals).Some? ==>
              Exec(m, prim, f, Do(Eval(c, fn, uses), rest), [frame], store, fuel)
              == Exec(m, prim, f, rest, [frame[c := prim.value(fn, vals).value]], store, fuel)
  {
    if prim.value(fn, vals).Some? { BindOne(frame, c, prim.value(fn, vals).value); }
  }

  lemma WriteStep(m: Module, prim: Prim, f: Sym, v: Value, ref: Value, frame: Frame, x: Val, r: Val, rest: Code,
                  store: Store, fuel: nat)
    requires Look(m, [frame], v) == x && Look(m, [frame], ref) == r && r.Ref? && r.loc < |store|
    ensures Exec(m, prim, f, Do(Write(v, ref), rest), [frame], store, fuel)
      == Exec(m, prim, f, rest, [frame], store[r.loc := x], fuel)
  {
    assert Looks(m, [frame], [v, ref]) == [x, r];
    assert Extend([frame], [], []) == [frame];
  }

  /** A conversion and an assignment leave the outputs alone. */
  lemma OutputsStay(formals: seq<Formal>, n: Value, finals: seq<Val>, args: seq<Val>, frame': Frame, store: Store,
                    c: Value, x: Val, loc: nat)
    requires Outputs(formals, n, finals, args, frame', store) && loc < |store| && c >= n + Rank(formals, |formals|)
    ensures Outputs(formals, n, finals, args, frame'[c := x], store[loc := x])
  {
    forall j | 0 <= j < |formals| && formals[j].Writable()
      ensures n + Rank(formals, j) != c
    {
      RankGrows(formals, j, |formals|);
    }
  }

  /** The conversion in the lowered caller has the operands that by-copy return gives it. */
  lemma ConvUses(m: Module, m': Module, f: Sym, formals: seq<Formal>, op: Op, n: Value, i: nat, finals: seq<Val>,
                 args: seq<Val>, ranges: seq<Val>, frame: Frame, frame': Frame, store: Store, hi: Value)
    requires Caller(m, m', f, formals, op, args, ranges, frame) && Alike(m, f, frame, frame')
    requires Fresh(m, m', f, n, hi) && hi >= n + Rank(formals, |formals|)
    requires Outputs(formals, n, finals, args, frame', store) && i < |formals| && formals[i].Writable()
    ensures var range := Assigned(op.info.rangeFormals, op.ranges, i);
            Looks(m', [frame'], [n + Rank(formals, i)] + if range.Some? then [range.value] else [])
              == ConvArgs(op.info, ranges, i, finals[Rank(formals, i)])
  {
    RankGrows(formals, i, |formals|);
    var out := n + Rank(formals, i);
    LookOwn(m', f, frame', out);
    SameLooks(m, m', f, frame, frame', op.ranges);
    AssignedLooks(m', frame', op.info.rangeFormals, op.ranges, i);
  }

  /** Assigning operands and looking them up commute. */
  lemma AssignedLooks(m: Module, frame: Frame, indices: seq<int>, vs: seq<Value>, i: int)
    ensures var v, x := Assigned(indices, vs, i), Assigned(indices, Looks(m, [frame], vs), i);
            v.Some? == x.Some? && (v.Some? ==> Look(m, [frame], v.value) == x.value)
  {
  }

  // ------------------------------------------------------------- simulation

  /** What the code of `f` uses and defines is its own, and its parameters keep their values. */
  ghost predicate CodeOk(m: Module, f: Sym, code: Code)
    requires f in m.subps
  {
    && Own(m, f, Uses(code)) && Own(m, f, Defs(code)) && CallsOk(m, f, code) && CodeTyped(m, code)
    && forall v :: v in m.subps[f].params ==> v !in Defs(code)
  }

  /** Activations of `f` in both modules, its writable formals denoting `denoted`. */
  ghost predicate Activated(m: Module, f: Sym, denoted: seq<Val>, frame: Frame, frame': Frame, store: Store)
    requires f in m.subps
  {
    Alike(m, f, frame, frame') && Holds(m.subps[f], denoted, frame) && Denotes(m.subps[f].formals, denoted, 0, store)
  }

  /** The lowered run ends as the source's does, unless that one is stuck. */
  ghost predicate EndsAlike(m: Module, f: Sym, denoted: seq<Val>, o: Outcome, o': Outcome)
    requires f in m.subps && |m.subps[f].formals| <= |denoted|
  {
    o.Stuck? || o' == WithFinals(m.subps[f].formals, denoted, o)
  }

  lemma ActivatedOn(m: Module, m': Module, names: map<Sym, Names>, f: Sym, denoted: seq<Val>, frame: Frame,
                    frame': Frame, store: Store, vs: seq<Value>, vals: seq<Val>, store': Store)
    requires Setting(m, m', names, f) && Activated(m, f, denoted, frame, frame', store) && |store'| >= |store|
    requires forall v :: v in m.subps[f].params ==> v !in vs
    ensures Activated(m, f, denoted, Bind(frame, vs, vals), Bind(frame', vs, vals), store')
  {
    Level(m, m', names, f);
    BindAlike(m, f, frame, frame', vs, vals);
    var subp := m.subps[f];
    forall j | 0 <= j < |subp.formals| && subp.formals[j].Writable()
      ensures subp.params[j] in Bind(frame, vs, vals) && Bind(frame, vs, vals)[subp.params[j]] == denoted[j]
    {
      assert subp.params[j] in subp.params;
      BindOther(frame, vs, vals, subp.params[j]);
    }
  }

  lemma {:induction false} SimCode(m: Module, m': Module, names: map<Sym, Names>, prim: Prim, f: Sym, code: Code,
                                   n: Value, denoted: seq<Val>, frame: Frame, frame': Frame, store: Store, fuel: nat)
    requires Setting(m, m', names, f) && CodeOk(m, f, code)
    requires Activated(m, f, denoted, frame, frame', store)
    requires Fresh(m, m', f, n, LowerCode(m, f, code, n).1)
    ensures EndsAlike(m, f, denoted, Exec(m, prim, f, code, [frame], store, fuel),
                      Exec(m', prim, f, LowerCode(m, f, code, n).0, [frame'], store, fuel))
    decreases fuel, 2, code, 0
  {
    Level(m, m', names, f);
    match code
    case Return(values) =>
      SameLooks(m, m', f, frame, frame', values);
      SimReturn(m, m', names, prim, f, values, n, denoted, frame, frame', store, fuel);
    case Br(target, args) =>
      SameLooks(m, m', f, frame, frame', args);
      SimJump(m, m', names, prim, f, target, Looks(m, [frame], args), denoted, frame, frame', store, fuel);
    case CondBr(cond, t, targs, e, eargs) =>
      assert Own(m, f, [cond]) && Own(m, f, targs) && Own(m, f, eargs);
      SameLooks(m, m', f, frame, frame', [cond]);
      assert Looks(m, [frame], [cond])[0] == Looks(m', [frame'], [cond])[0];
      SameLooks(m, m', f, frame, frame', targs);
      SameLooks(m, m', f, frame, frame', eargs);
      SimJump(m, m', names, prim, f, t, Looks(m, [frame], targs), denoted, frame, frame', store, fuel);
      SimJump(m, m', names, prim, f, e, Looks(m, [frame], eargs), denoted, frame, frame', store, fuel);
    case Do(op, rest) =>
      assert CodeOk(m, f, rest);
      if IsCall(op) {
        SimCall(m, m', names, prim, f, op, rest, n, denoted, frame, frame', store, fuel);
      } else {
        SimOp(m, m', names, prim, f, op, rest, n, denoted, frame, frame', store, fuel);
      }
  }

  lemma {:induction false} SimOp(m: Module, m': Module, names: map<Sym, Names>, prim: Prim, f: Sym, op: Op, rest: Code,
                                 n: Value, denoted: seq<Val>, frame: Frame, frame': Frame, store: Store, fuel: nat)
    requires Setting(m, m', names, f) && CodeOk(m, f, Do(op, rest)) && CodeOk(m, f, rest) && !IsCall(op)
    requires Activated(m, f, denoted, frame, frame', store)
    requires Fresh(m, m', f, n, LowerCode(m, f, Do(op, rest), n).1)
    ensures EndsAlike(m, f, denoted, Exec(m, prim, f, Do(op, rest), [frame], store, fuel),
                      Exec(m', prim, f, LowerCode(m, f, Do(op, rest), n).0, [frame'], store, fuel))
    decreases fuel, 2, rest, 1
  {
    Level(m, m', names, f);
    SameLooks(m, m', f, frame, frame', OpUses(op));
    var s := Effect(prim, op, Looks(m, [frame], OpUses(op)), store);
    if s.Next? {
      ActivatedOn(m, m', names, f, denoted, frame, frame', store, OpDefs(op), s.results, s.store);
      ExtendOne(frame, OpDefs(op), s.results);
      ExtendOne(frame', OpDefs(op), s.results);
      SimCode(m, m', names, prim, f, rest, n, denoted, Bind(frame, OpDefs(op), s.results),
              Bind(frame', OpDefs(op), s.results), s.store, fuel);
    }
  }

  lemma SimReturn(m: Module, m': Module, names: map<Sym, Names>, prim: Prim, f: Sym, values: seq<Value>,
                  n: Value, denoted: seq<Val>, frame: Frame, frame': Frame, store: Store, fuel: nat)
    requires Setting(m, m', names, f) && Own(m, f, values)
    requires Activated(m, f, denoted, frame, frame', store) && Fresh(m, m', f, n, n + |m.subps[f].formals|)
    ensures Exec(m', prim, f, ReturnCode(m.subps[f], n, 0, values), [frame'], store, fuel)
         == Returned(Looks(m, [frame], values) + Finals(m.subps[f].formals, denoted, store, 0), store)
  {
    var subp := m.subps[f];
    Level(m, m', names, f);
    SameLooks(m, m', f, frame, frame', values);
    forall v | v in subp.params ensures v in m.home && m.home[v] == f && !(n <= v < n + |subp.formals|) {}
    forall v | v in values ensures !(n <= v < n + |subp.formals|) {}
    forall j | 0 <= j < |subp.formals| && subp.formals[j].Writable()
      ensures subp.params[j] in frame' && frame'[subp.params[j]] == denoted[j]
    {
      assert subp.params[j] in subp.params;
    }
    assert NamedIn(m', f, n, n + |subp.formals|) && Own(m', f, subp.params) && Holds(subp, denoted, frame');
    ReturnRuns(m', prim, f, subp, n, 0, values, denoted, frame', store, fuel);
  }

  lemma {:induction false} SimJump(m: Module, m': Module, names: map<Sym, Names>, prim: Prim, f: Sym, target: nat,
                                   vals: seq<Val>, denoted: seq<Val>, frame: Frame, frame': Frame, store: Store,
                                   fuel: nat)
    requires Setting(m, m', names, f) && target != 0
    requires Activated(m, f, denoted, frame, frame', store)
    ensures EndsAlike(m, f, denoted, Jump(m, prim, f, target, vals, [frame], store, fuel),
                      Jump(m', prim, f, target, vals, [frame'], store, fuel))
    decreases fuel, 0, 0
  {
    Level(m, m', names, f);
    var blocks := m.subps[f].blocks;
    if fuel > 0 && target < |blocks| {
      var block := blocks[target];
      BlockIsOk(m, m', names, f, target);
      forall v | v in m.subps[f].params ensures v !in block.args { assert v in block.args ==> DefinedIn(blocks, v); }
      ActivatedOn(m, m', names, f, denoted, frame, frame', store, block.args, vals, store);
      ExtendOne(frame, block.args, vals);
      ExtendOne(frame', block.args, vals);
      SimCode(m, m', names, prim, f, block.code, names[f].blocks[target], denoted,
              Bind(frame, block.args, vals), Bind(frame', block.args, vals), store, fuel - 1);
    }
  }

  lemma BlockIsOk(m: Module, m': Module, names: map<Sym, Names>, f: Sym, b: nat)
    requires Setting(m, m', names, f) && b < |m.subps[f].blocks|
    ensures CodeOk(m, f, m.subps[f].blocks[b].code)
    ensures f in names && b < |names[f].blocks| && |m.subps[f].formals| <= |m.subps[f].params|
    ensures Fresh(m, m', f, names[f].blocks[b], LowerCode(m, f, m.subps[f].blocks[b].code, names[f].blocks[b]).1)
  {
    Level(m, m', names, f);
    var blocks := m.subps[f].blocks;
    var code := blocks[b].code;
    forall v | v in Uses(code) ensures v in m.home && m.home[v] == f { assert UsedIn(blocks, v); }
    forall v | v in Defs(code)
      ensures v in m.home && m.home[v] == f && v !in m.subps[f].params
    {
      assert DefinedIn(blocks, v);
    }
    assert names[f].blocks[b] == names[f].blocks[b];
  }

  lemma {:induction false} SimCall(m: Module, m': Module, names: map<Sym, Names>, prim: Prim, f: Sym, op: Op,
                                   rest: Code, n: Value, denoted: seq<Val>, frame: Frame, frame': Frame, store: Store,
                                   fuel: nat)
    requires Setting(m, m', names, f) && CodeOk(m, f, Do(op, rest)) && CodeOk(m, f, rest) && IsCall(op)
    requires Activated(m, f, denoted, frame, frame', store)
    requires Fresh(m, m', f, n, LowerCode(m, f, Do(op, rest), n).1)
    ensures EndsAlike(m, f, denoted, Exec(m, prim, f, Do(op, rest), [frame], store, fuel),
                      Exec(m', prim, f, LowerCode(m, f, Do(op, rest), n).0, [frame'], store, fuel))
    decreases fuel, 2, rest, 1
  {
    var o, next, first, last := CallPerforms(m, m', names, prim, f, op, rest, n, denoted, frame, frame', store, fuel);
    if o.Returned? { SimCode(m, m', names, prim, f, rest, next, denoted, first, last, o.store, fuel); }
  }

  /** The call itself, in both modules: after a return, with new values numbered from `next`,
    * the activations agree again. */
  lemma {:induction false} CallPerforms(m: Module, m': Module, names: map<Sym, Names>, prim: Prim, f: Sym, op: Op,
                                        rest: Code, n: Value, denoted: seq<Val>, frame: Frame, frame': Frame,
                                        store: Store, fuel: nat)
    returns (o: Outcome, next: Value, first: Frame, last: Frame)
    requires Setting(m, m', names, f) && CodeOk(m, f, Do(op, rest)) && IsCall(op)
    requires Activated(m, f, denoted, frame, frame', store)
    requires Fresh(m, m', f, n, LowerCode(m, f, Do(op, rest), n).1)
    ensures Fresh(m, m', f, next, LowerCode(m, f, rest, next).1)
    ensures o.Returned? ==> Activated(m, f, denoted, first, last, o.store)
    ensures Exec(m, prim, f, Do(op, rest), [frame], store, fuel)
         == if o.Returned? then Exec(m, prim, f, rest, [first], o.store, fuel) else o
    ensures !o.Stuck? ==>
      Exec(m', prim, f, LowerCode(m, f, Do(op, rest), n).0, [frame'], store, fuel) ==
        if o.Returned? then Exec(m', prim, f, LowerCode(m, f, rest, next).0, [last], o.store, fuel) else o
    decreases fuel, 2, rest, 0
  {
    Level(m, m', names, f);
    CallOk(m, f, op, rest);
    Level(m, m', names, op.callee);
    next := n + CallNames(m.subps[op.callee].formals);
    var rest' := LowerCode(m, f, rest, next).0;
    LowerCall(m, f, op, rest, n);
    FreshParts(m, m', f, n, next, LowerCode(m, f, rest, next).1);
    last := SimPerform(m, m', names, prim, f, op, rest', n, frame, frame', store, fuel);
    o := Perform(m, prim, op, [frame], store, fuel);
    first := if o.Returned? then Bind(frame, op.results, o.values) else frame;
    ExecCall(m, prim, f, op, rest, frame, store, fuel);
    if o.Returned? {
      AfterCall(m, m', names, f, op, rest, denoted, frame, frame', store, o.values, o.store, last);
    }
  }

  lemma FreshParts(m: Module, m': Module, f: Sym, lo: Value, mid: Value, hi: Value)
    requires Fresh(m, m', f, lo, hi) && lo <= mid <= hi
    ensures Fresh(m, m', f, lo, mid) && Fresh(m, m', f, mid, hi)
  {
  }

  lemma AfterCall(m: Module, m': Module, names: map<Sym, Names>, f: Sym, op: Op, rest: Code, denoted: seq<Val>,
                  frame: Frame, frame': Frame, store: Store, vals: seq<Val>, store': Store, last: Frame)
    requires Setting(m, m', names, f) && CodeOk(m, f, Do(op, rest)) && op.AdaCall?
    requires Activated(m, f, denoted, frame, frame', store) && |store'| >= |store|
    requires Alike(m, f, Bind(frame, op.results, vals), last)
    ensures Activated(m, f, denoted, Bind(frame, op.results, vals), last, store')
  {
    ActivatedOn(m, m', names, f, denoted, frame, frame', store, op.results, vals, store');
  }

  lemma ExecCall(m: Module, prim: Prim, f: Sym, op: Op, rest: Code, frame: Frame, store: Store, fuel: nat)
    requires IsCall(op)
    ensures var o := Perform(m, prim, op, [frame], store, fuel);
            Exec(m, prim, f, Do(op, rest), [frame], store, fuel)
              == if o.Returned? then Exec(m, prim, f, rest, [Bind(frame, OpDefs(op), o.values)], o.store, fuel) else o
  {
    var o := Perform(m, prim, op, [frame], store, fuel);
    if o.Returned? { ExtendOne(frame, OpDefs(op), o.values); }
  }

  lemma LowerCall(m: Module, f: Sym, op: Op, rest: Code, n: Value)
    requires f in m.subps && |m.subps[f].formals| <= |m.subps[f].params|
    requires op.AdaCall? && op.callee in m.subps && |m.subps[op.callee].formals| <= |op.inputs|
    ensures var formals := m.subps[op.callee].formals;
            var r := LowerCode(m, f, rest, n + CallNames(formals));
            LowerCode(m, f, Do(op, rest), n) == (CallCode(formals, op, n, r.0), r.1)
  {
    var code := Do(op, rest);
    assert code.op == op && code.rest == rest;
  }

  /** What is known of a verified call in `f`. */
  ghost predicate CallIsOk(m: Module, f: Sym, op: Op) {
    && op.AdaCall? && op.callee in m.subps
    && var formals := m.subps[op.callee].formals;
    && |formals| <= |op.inputs| == |m.subps[op.callee].params| && |Order(op.info, |formals|)| == |formals|
    && MapsSnapshots(op.info, formals, |op.initials|)
    && Own(m, f, op.inputs) && Own(m, f, op.initials) && Own(m, f, op.ranges)
    && forall v :: v in op.results ==> v !in op.inputs && v !in op.ranges
  }

  lemma CallOk(m: Module, f: Sym, op: Op, rest: Code)
    requires Source(m) && f in m.subps && CodeOk(m, f, Do(op, rest)) && IsCall(op)
    ensures CallIsOk(m, f, op)
  {
    assert SubpOk(m, op.callee);
    var dynamic :| Verified(op, m.subps[op.callee], dynamic);
    var uses := op.inputs + op.initials + op.ranges;
    forall v | v in uses ensures v in m.home && m.home[v] == f { assert v in Uses(Do(op, rest)); }
    forall v | v in op.inputs || v in op.initials || v in op.ranges ensures v in uses {}
  }

  /** A call, up to the code after it. */
  lemma {:induction false} SimPerform(m: Module, m': Module, names: map<Sym, Names>, prim: Prim, f: Sym, op: Op,
                                      rest': Code, n: Value, frame: Frame, frame': Frame, store: Store, fuel: nat)
    returns (last: Frame)
    requires Setting(m, m', names, f) && CallIsOk(m, f, op) && Alike(m, f, frame, frame')
    requires Fresh(m, m', f, n, n + CallNames(m.subps[op.callee].formals))
    ensures var o := Perform(m, prim, op, [frame], store, fuel);
            var o' := Exec(m', prim, f, CallCode(m.subps[op.callee].formals, op, n, rest'), [frame'], store, fuel);
            && (o.Returned? ==>
                  o' == Exec(m', prim, f, rest', [last], o.store, fuel)
                    && Alike(m, f, Bind(frame, op.results, o.values), last))
            && (!o.Returned? && !o.Stuck? ==> o' == o)
    decreases fuel, 1
  {
    var g := op.callee;
    var formals := m.subps[g].formals;
    var args, initials := Looks(m, [frame], op.inputs), Looks(m, [frame], op.initials);
    last := frame';
    if ActualsExist(formals, args, store) {
      Level(m, m', names, f);
      CallPasses(m, m', f, formals, op, frame, frame');
      SimActivate(m, m', names, prim, g, op.info, args, initials, [frame], [frame'], store, fuel);
      var o := Activate(m, prim, g, op.info, args, initials, [frame], store, fuel);
      if o.Returned? && |o.values| == |op.results| + Rank(formals, |formals|) {
        last := SimCopies(m, m', prim, f, formals, op, n, rest', args, Looks(m, [frame], op.ranges), frame, frame',
                          store, fuel, o);
      }
    }
  }

  /** The arguments the lowered call passes. */
  lemma CallPasses(m: Module, m': Module, f: Sym, formals: seq<Formal>, op: Op, frame: Frame, frame': Frame)
    requires SameHomes(m, m', f) && Alike(m, f, frame, frame') && op.AdaCall? && |formals| <= |op.inputs|
    requires Own(m, f, op.inputs) && Own(m, f, op.initials)
    ensures Looks(m', [frame'], AbiArgs(formals, op.inputs, op.initials, op.info, 0))
         == AbiArgs(formals, Looks(m, [frame], op.inputs), Looks(m, [frame], op.initials), op.info, 0)
  {
    SameLooks(m, m', f, frame, frame', op.inputs);
    SameLooks(m, m', f, frame, frame', op.initials);
    AbiLooks(m', frame', formals, op, 0);
  }

  lemma {:induction false} AbiLooks(m: Module, frame: Frame, formals: seq<Formal>, op: Op, i: nat)
    requires op.AdaCall? && i <= |formals| <= |op.inputs|
    ensures Looks(m, [frame], AbiArgs(formals, op.inputs, op.initials, op.info, i))
         == AbiArgs(formals, Looks(m, [frame], op.inputs), Looks(m, [frame], op.initials), op.info, i)
    decreases |formals| - i
  {
    if i < |formals| {
      AbiLooks(m, frame, formals, op, i + 1);
      LooksConcat(m, [frame], [Passed(formals, op.inputs, op.initials, op.info, i)],
                  AbiArgs(formals, op.inputs, op.initials, op.info, i + 1));
      assert Looks(m, [frame], [Passed(formals, op.inputs, op.initials, op.info, i)])
          == [Passed(formals, Looks(m, [frame], op.inputs), Looks(m, [frame], op.initials), op.info, i)];
    }
  }

  /** The callee: entered by copy in the source, by value once lowered. */
  lemma {:induction false} SimActivate(m: Module, m': Module, names: map<Sym, Names>, prim: Prim, g: Sym,
                                       info: CallInfo, args: seq<Val>, initials: seq<Val>, chain: seq<Frame>,
                                       chain': seq<Frame>, store: Store, fuel: nat)
    requires Setting(m, m', names, g) && |args| == |m.subps[g].params| && |m.subps[g].formals| <= |args|
    requires MapsSnapshots(info, m.subps[g].formals, |initials|)
    ensures var o := Activate(m, prim, g, info, args, initials, chain, store, fuel);
            || o.Stuck?
            || Invoke(m', prim, g, AbiArgs(m.subps[g].formals, args, initials, info, 0), chain', store, fuel) == o
    decreases fuel, 0, 0
  {
    Level(m, m', names, g);
    var formals := m.subps[g].formals;
    if fuel > 0 && m.subps[g].blocks != [] {
      SimBody(m, m', names, prim, g, args, initials, info, store, fuel - 1);
      var entry := Enter(formals, args, initials, info, store, 0);
      InvokeAtLevel(m, prim, g, entry.0 + args[|formals|..], chain, entry.1, fuel);
      InvokeAtLevel(m', prim, g, AbiArgs(formals, args, initials, info, 0), chain', store, fuel);
    }
  }

  /** The body of a callee, from its entry. */
  lemma {:induction false} SimBody(m: Module, m': Module, names: map<Sym, Names>, prim: Prim, g: Sym, args: seq<Val>,
                                   initials: seq<Val>, info: CallInfo, store: Store, fuel: nat)
    requires Setting(m, m', names, g) && |args| == |m.subps[g].params| && |m.subps[g].formals| <= |args|
    requires MapsSnapshots(info, m.subps[g].formals, |initials|) && m.subps[g].blocks != []
    requires g in m'.subps && m'.subps[g].blocks != []
    ensures var subp, subp' := m.subps[g], m'.subps[g];
            var entry := Enter(subp.formals, args, initials, info, store, 0);
            var frame0 := Bind(map[], subp.params, entry.0 + args[|subp.formals|..]);
            var frame0' := Bind(map[], subp'.params, AbiArgs(subp.formals, args, initials, info, 0));
            EndsAlike(m, g, entry.0, Exec(m, prim, g, subp.blocks[0].code, [frame0], entry.1, fuel),
                      Exec(m', prim, g, subp'.blocks[0].code, [frame0'], store, fuel))
    decreases fuel, 3
  {
    Level(m, m', names, g);
    var subp := m.subps[g];
    var entry := Enter(subp.formals, args, initials, info, store, 0);
    var frame0 := Bind(map[], subp.params, entry.0 + args[|subp.formals|..]);
    var frame0' := Bind(map[], AbiParams(subp, names[g].snapshots, 0), AbiArgs(subp.formals, args, initials, info, 0));
    BlockIsOk(m, m', names, g, 0);
    Entered(m, m', names, prim, g, args, initials, info, store, fuel);
    SimCode(m, m', names, prim, g, subp.blocks[0].code, names[g].blocks[0], entry.0, frame0,
            EntryFrame(subp, frame0', entry.0, 0), entry.1, fuel);
    assert m'.subps[g].blocks[0] == LowerBlock(m, g, names[g], 0);
  }

  /** A library-level subprogram starts with only its own frame. */
  lemma InvokeAtLevel(m: Module, prim: Prim, g: Sym, vals: seq<Val>, chain: seq<Frame>, store: Store, fuel: nat)
    requires g in m.subps && m.subps[g].blocks != [] && Depth(m, g) == 0 && fuel > 0
    ensures Invoke(m, prim, g, vals, chain, store, fuel)
         == Exec(m, prim, g, m.subps[g].blocks[0].code, [Bind(map[], m.subps[g].params, vals)], store, fuel - 1)
  {
    var own := Bind(map[], m.subps[g].params, vals);
    assert chain[..0] + [own] == [own];
  }

  /** From the entry of the callee to its first source operation. */
  lemma Entered(m: Module, m': Module, names: map<Sym, Names>, prim: Prim, g: Sym, args: seq<Val>,
                initials: seq<Val>, info: CallInfo, store: Store, fuel: nat)
    requires Setting(m, m', names, g) && |args| == |m.subps[g].params| && |m.subps[g].formals| <= |args|
    requires g in names && |names[g].blocks| == |m.subps[g].blocks| > 0
    requires MapsSnapshots(info, m.subps[g].formals, |initials|)
    ensures var subp, at := m.subps[g], names[g];
            var entry := Enter(subp.formals, args, initials, info, store, 0);
            var frame := Bind(map[], subp.params, entry.0 + args[|subp.formals|..]);
            var inputs := Bind(map[], AbiParams(subp, at.snapshots, 0), AbiArgs(subp.formals, args, initials, info, 0));
            var started := EntryFrame(subp, inputs, entry.0, 0);
            && Activated(m, g, entry.0, frame, started, entry.1)
            && Exec(m', prim, g, LowerBlock(m, g, at, 0).code, [inputs], store, fuel)
               == Exec(m', prim, g, LowerCode(m, g, subp.blocks[0].code, at.blocks[0]).0, [started], entry.1, fuel)
  {
    Level(m, m', names, g);
    var subp, p := m.subps[g], names[g].snapshots;
    assert Apart(m, subp, p);
    EntryAlike(m, g, subp, p, args, initials, info, store);
    EntryDenotes(subp, args, initials, info, store);
    EntrySnapshots(m, subp, p, args, initials, info, store);
    var inputs := Bind(map[], AbiParams(subp, p, 0), AbiArgs(subp.formals, args, initials, info, 0));
    EntryRuns(m', prim, g, subp, p, 0, LowerCode(m, g, subp.blocks[0].code, names[g].blocks[0]).0, inputs, args,
              initials, info, store, fuel);
  }

  lemma EntrySnapshots(m: Module, subp: Subp, p: Value, args: seq<Val>, initials: seq<Val>, info: CallInfo,
                       store: Store)
    requires Apart(m, subp, p) && |args| == |subp.params| && |subp.formals| <= |args|
    requires MapsSnapshots(info, subp.formals, |initials|)
    ensures var inputs := Bind(map[], AbiParams(subp, p, 0), AbiArgs(subp.formals, args, initials, info, 0));
            forall j :: 0 <= j < |subp.formals| ==> SnapshotIn(subp, p, inputs, initials, info, j)
  {
    var inputs := Bind(map[], AbiParams(subp, p, 0), AbiArgs(subp.formals, args, initials, info, 0));
    forall j | 0 <= j < |subp.formals| ensures SnapshotIn(subp, p, inputs, initials, info, j) {
      if Snapshot(subp.formals, j) { AbiBound(m, subp, p, map[], args, initials, info, 0, j); }
      FoundIn(info.initialFormals, j);
      assert j in info.initialFormals <==> Snapshot(subp.formals, j);
    }
  }

  /** The writable formals denote the new objects. */
  lemma EntryDenotes(subp: Subp, args: seq<Val>, initials: seq<Val>, info: CallInfo, store: Store)
    requires |subp.formals| <= |subp.params| == |args| && NoDup(subp.params)
    ensures var entry := Enter(subp.formals, args, initials, info, store, 0);
            var frame := Bind(map[], subp.params, entry.0 + args[|subp.formals|..]);
            Holds(subp, entry.0, frame) && Denotes(subp.formals, entry.0, 0, entry.1)
  {
    var entry := Enter(subp.formals, args, initials, info, store, 0);
    var vals := entry.0 + args[|subp.formals|..];
    forall j | 0 <= j < |subp.formals| && subp.formals[j].Writable()
      ensures subp.params[j] in Bind(map[], subp.params, vals)
      ensures Bind(map[], subp.params, vals)[subp.params[j]] == entry.0[j]
      ensures entry.0[j].Ref? && entry.0[j].loc < |entry.1|
    {
      BindAt(map[], subp.params, vals, j);
      EnterDenotes(subp.formals, args, initials, info, store, 0, j);
    }
  }

  /** The caller, once the callee has returned: the results, then the copy-back. */
  lemma SimCopies(m: Module, m': Module, prim: Prim, f: Sym, formals: seq<Formal>, op: Op, n: Value, rest: Code,
                  args: seq<Val>, ranges: seq<Val>, frame: Frame, frame': Frame, store: Store, fuel: nat, o: Outcome)
    returns (last: Frame)
    requires Caller(m, m', f, formals, op, args, ranges, frame) && Alike(m, f, frame, frame')
    requires Fresh(m, m', f, n, n + CallNames(formals)) && ActualsExist(formals, args, store)
    requires |Order(op.info, |formals|)| == |formals|
    requires forall v :: v in op.results ==> v !in op.inputs && v !in op.ranges
    requires o.Returned? && |o.values| == |op.results| + Rank(formals, |formals|) && |o.store| >= |store|
    requires var vals := Looks(m', [frame'], AbiArgs(formals, op.inputs, op.initials, op.info, 0));
             Invoke(m', prim, op.callee, vals, [frame'], store, fuel) == o
    ensures var order, finals := Order(op.info, |formals|), o.values[|op.results|..];
            var r := CopyBack(prim, formals, order, finals, args, ranges, op.info, o.store);
            && Continues(m', prim, f, r, Exec(m', prim, f, CallCode(formals, op, n, rest), [frame'], store, fuel), rest,
                         last, fuel)
            && Alike(m, f, Bind(frame, op.results, o.values[..|op.results|]), last)
  {
    var results, finals := o.values[..|op.results|], o.values[|op.results|..];
    var frame1' := CallReturns(m, m', prim, f, formals, op, n, rest, frame, frame', store, fuel, o);
    OutputsHeld(formals, n, finals, args, o.store, Bind(frame', op.results, results));
    last := CopiesAfter(m, m', prim, f, formals, op, n, rest, args, ranges, finals, results, frame, frame1', o.store,
                        fuel);
  }

  lemma CopiesAfter(m: Module, m': Module, prim: Prim, f: Sym, formals: seq<Formal>, op: Op, n: Value, rest: Code,
                    args: seq<Val>, ranges: seq<Val>, finals: seq<Val>, results: seq<Val>, frame: Frame, frame1': Frame,
                    store: Store, fuel: nat)
    returns (last: Frame)
    requires Caller(m, m', f, formals, op, args, ranges, frame) && Fresh(m, m', f, n, n + CallNames(formals))
    requires |Order(op.info, |formals|)| == |formals|
    requires forall v :: v in op.results ==> v !in op.inputs && v !in op.ranges
    requires Alike(m, f, Bind(frame, op.results, results), frame1') && Outputs(formals, n, finals, args, frame1', store)
    ensures var order := Order(op.info, |formals|);
            var r := CopyBack(prim, formals, order, finals, args, ranges, op.info, store);
            var o' := Exec(m', prim, f, CopyCode(formals, order, op, n, n + Rank(formals, |formals|), rest), [frame1'],
                           store, fuel);
            Continues(m', prim, f, r, o', rest, last, fuel)
    ensures Alike(m, f, Bind(frame, op.results, results), last)
  {
    var w := Rank(formals, |formals|);
    LooksBind(m, f, frame, op.inputs, op.results, results);
    LooksBind(m, f, frame, op.ranges, op.results, results);
    var r, o';
    last, r, o' := CopyRuns(m, m', prim, f, formals, Order(op.info, |formals|), op, n, n + w, n + w + |formals|, rest,
                            finals, args, ranges, Bind(frame, op.results, results), frame1', store, fuel);
  }

  /** The lowered call binds the results and the outputs. */
  lemma CallReturns(m: Module, m': Module, prim: Prim, f: Sym, formals: seq<Formal>, op: Op, n: Value, rest: Code,
                    frame: Frame, frame': Frame, store: Store, fuel: nat, o: Outcome) returns (frame1': Frame)
    requires SameHomes(m, m', f) && Alike(m, f, frame, frame') && op.AdaCall? && |formals| <= |op.inputs|
    requires Fresh(m, m', f, n, n + |formals|) && o.Returned? && |o.values| == |op.results| + Rank(formals, |formals|)
    requires var vals := Looks(m', [frame'], AbiArgs(formals, op.inputs, op.initials, op.info, 0));
             Invoke(m', prim, op.callee, vals, [frame'], store, fuel) == o
    ensures var w := Rank(formals, |formals|);
            && Exec(m', prim, f, CallCode(formals, op, n, rest), [frame'], store, fuel)
               == Exec(m', prim, f, CopyCode(formals, Order(op.info, |formals|), op, n, n + w, rest), [frame1'],
                       o.store, fuel)
            && frame1' == Bind(Bind(frame', op.results, o.values[..|op.results|]), FreshFrom(n, w),
                               o.values[|op.results|..])
            && Alike(m, f, Bind(frame, op.results, o.values[..|op.results|]), frame1')
  {
    var w, results, finals := Rank(formals, |formals|), o.values[..|op.results|], o.values[|op.results|..];
    var base := Bind(frame', op.results, results);
    frame1' := Bind(base, FreshFrom(n, w), finals);
    BindAlike(m, f, frame, frame', op.results, results);
    BindNew(m, f, Bind(frame, op.results, results), base, FreshFrom(n, w), finals);
    BindConcat(frame', op.results, results, FreshFrom(n, w), finals);
    assert results + finals == o.values;
    ExecCall(m', prim, f,
             FuncCall(op.results + FreshFrom(n, w), op.callee, AbiArgs(formals, op.inputs, op.initials, op.info, 0)),
             CopyCode(formals, Order(op.info, |formals|), op, n, n + w, rest), frame', store, fuel);
  }

  lemma {:induction false} BindNew(m: Module, f: Sym, frame: Frame, frame': Frame, vs: seq<Value>, vals: seq<Val>)
    requires Alike(m, f, frame, frame') && forall v :: v in vs ==> v !in m.home
    ensures Alike(m, f, frame, Bind(frame', vs, vals))
  {
    forall v | v in m.home && m.home[v] == f
      ensures (v in frame <==> v in Bind(frame', vs, vals)) && (v in frame ==> frame[v] == Bind(frame', vs, vals)[v])
    {
      BindOther(frame', vs, vals, v);
    }
  }

  lemma LooksBind(m: Module, f: Sym, frame: Frame, uses: seq<Value>, vs: seq<Value>, vals: seq<Val>)
    requires LibraryLevel(m, f) && Own(m, f, uses) && forall v :: v in uses ==> v !in vs
    ensures Looks(m, [Bind(frame, vs, vals)], uses) == Looks(m, [frame], uses)
  {
    forall i | 0 <= i < |uses| ensures Look(m, [Bind(frame, vs, vals)], uses[i]) == Look(m, [frame], uses[i]) {
      assert uses[i] in uses;
      BindOther(frame, vs, vals, uses[i]);
    }
  }

  /** Once the results are bound, the caller holds every output. */
  lemma OutputsHeld(formals: seq<Formal>, n: Value, finals: seq<Val>, args: seq<Val>, store: Store, frame': Frame)
    requires |formals| <= |args| && |finals| == Rank(formals, |formals|) && ActualsExist(formals, args, store)
    ensures Outputs(formals, n, finals, args, Bind(frame', FreshFrom(n, |finals|), finals), store)
  {
    forall j | 0 <= j < |formals| && formals[j].Writable()
      ensures var r := Bind(frame', FreshFrom(n, |finals|), finals);
              && Rank(formals, j) < |finals| && n + Rank(formals, j) in r
              && r[n + Rank(formals, j)] == finals[Rank(formals, j)]
    {
      RankGrows(formals, j, |formals|);
      BindAt(frame', FreshFrom(n, |finals|), finals, Rank(formals, j));
      assert FreshFrom(n, |finals|)[Rank(formals, j)] == n + Rank(formals, j);
    }
  }

  // ------------------------------------------------------------ the theorem

  /** Lowering calls preserves meaning: called with the values that the value ABI passes for
    * a by-copy call, a lowered subprogram returns the results and the final values of
    * the formals, leaves the same objects, and raises, as the source's does, at every
    * depth of calls. */
  lemma CallsKeepMeaning(m: Module, m': Module, names: map<Sym, Names>, prim: Prim, f: Sym, info: CallInfo,
                         args: seq<Val>, initials: seq<Val>, store: Store, fuel: nat)
    requires Source(m) && CallsLowered(m, m', names) && f in m.subps
    requires |m.subps[f].formals| <= |args| == |m.subps[f].params|
    requires MapsSnapshots(info, m.subps[f].formals, |initials|)
    ensures var o := Activate(m, prim, f, info, args, initials, [], store, fuel);
            o.Stuck? || Invoke(m', prim, f, AbiArgs(m.subps[f].formals, args, initials, info, 0), [], store, fuel) == o
  {
    SimActivate(m, m', names, prim, f, info, args, initials, [], [], store, fuel);
  }

  /** In particular a subprogram without formals, such as the main one. */
  lemma MainKeepsMeaning(m: Module, m': Module, names: map<Sym, Names>, prim: Prim, f: Sym, vals: seq<Val>,
                         store: Store, fuel: nat)
    requires Source(m) && CallsLowered(m, m', names) && f in m.subps && m.subps[f].formals == []
    requires |vals| == |m.subps[f].params|
    ensures var o := Invoke(m, prim, f, vals, [], store, fuel);
            o.Stuck? || Invoke(m', prim, f, vals, [], store, fuel) == o
  {
    PlainActivation(m, prim, f, vals, store, fuel);
    CallsKeepMeaning(m, m', names, prim, f, CallInfo([], [], None, []), vals, [], store, fuel);
  }

  /** Without formals, a by-copy call only passes values. */
  lemma PlainActivation(m: Module, prim: Prim, f: Sym, vals: seq<Val>, store: Store, fuel: nat)
    requires f in m.subps && m.subps[f].formals == []
    ensures AbiArgs([], vals, [], CallInfo([], [], None, []), 0) == vals
    ensures Activate(m, prim, f, CallInfo([], [], None, []), vals, [], [], store, fuel)
      == Invoke(m, prim, f, vals, [], store, fuel)
  {
    assert vals[0..] == vals && [] + vals == vals;
    var o := Invoke(m, prim, f, vals, [], store, fuel);
    if o.Returned? { assert o.values + [] == o.values; }
  }
}
