/** A nested program whose outcome is known for every input: what it does as written, and
  * so, by `MainPassesKeepMeaning`, after closure conversion and call lowering.
  *
  *   procedure Main (K, D : Integer) is
  *     X : Integer := K;
  *     procedure Bump (P : in out Integer) is begin P := P + D; end;
  *     procedure Twice (Q : in out Integer) is begin Bump (Q); Bump (Q); end;
  *   begin
  *     Twice (X);
  *     -- yields K if X is zero, and otherwise X
  *   end;
  */
module SampleCalls {
  import opened Options
  import opened Ir
  import opened Lifting
  import opened ClosureConversion
  import opened Calls
  import opened Passes

  const MAIN: Sym := 0
  const BUMP: Sym := 1
  const TWICE: Sym := 2

  const IDENTITY: nat := 0
  const SUM: nat := 1
  const IS_ZERO: nat := 2

  function Compute(fn: nat, args: seq<Val>): Option<Val> {
    if fn == IDENTITY && |args| == 1 then Some(args[0])
    else if fn == SUM && |args| == 2 && args[0].Int? && args[1].Int? then Some(Int(args[0].i + args[1].i))
    else if fn == IS_ZERO && |args| == 1 && args[0].Int? then Some(Int(if args[0].i == 0 then 1 else 0))
    else None
  }

  function Foreign(f: Sym, args: seq<Val>, store: Store): Answer { Throws(store) }

  const PRIM := Prim.Prim(Compute, Foreign)

  const K: Value := 0
  const D: Value := 1
  const X: Value := 2
  const P: Value := 10
  const Q: Value := 20

  const IN_OUT := Formal.Formal(InOut, false)
  const ONE_SNAPSHOT := CallInfo.CallInfo([0], [], None, [IDENTITY])

  /** A call of a procedure with one `in out` formal, and `snapshot` for the actual's value. */
  function CallWith(callee: Sym, actual: Value, snapshot: Value, rest: Code): Code {
    Do(Read(snapshot, actual), Do(AdaCall([], callee, [actual], [snapshot], [], ONE_SNAPSHOT), rest))
  }

  const TAIL := Do(Read(4, X), Do(Eval(5, IS_ZERO, [4]), CondBr(5, 1, [], 2, [4])))
  const MAIN_ENTRY := Do(Object(X, Some(K)), CallWith(TWICE, X, 3, TAIL))
  const MAIN_BODY := [Block.Block([], MAIN_ENTRY), Block.Block([], Return([K])), Block.Block([6], Return([6]))]

  const BUMP_ENTRY := Do(Read(11, P), Do(Eval(12, SUM, [11, D]), Do(Write(12, P), Return([]))))
  const TWICE_ENTRY := CallWith(BUMP, Q, 21, CallWith(BUMP, Q, 22, Return([])))

  const SAMPLE := Module.Module(
    map[MAIN := Subp.Subp([K, D], [], MAIN_BODY),
        BUMP := Subp.Subp([P], [IN_OUT], [Block.Block([], BUMP_ENTRY)]),
        TWICE := Subp.Subp([Q], [IN_OUT], [Block.Block([], TWICE_ENTRY)])],
    map[MAIN := [MAIN], BUMP := [MAIN, BUMP], TWICE := [MAIN, TWICE]],
    map[K := MAIN, D := MAIN, X := MAIN, 3 := MAIN, 4 := MAIN, 5 := MAIN, 6 := MAIN,
        P := BUMP, 11 := BUMP, 12 := BUMP, Q := TWICE, 21 := TWICE, 22 := TWICE])

  /** Main declares Bump, then Twice. */
  const NEST := Nest.Nest(MAIN, Nest.Nest(BUMP, NoSubp, Nest.Nest(TWICE, NoSubp, NoSubp)), NoSubp)

  // ----------------------------------------------------------- as it is written

  lemma Binds(above: seq<Frame>, frame: Frame, res: Value, x: Val)
    ensures Extend(above + [frame], [res], [x]) == above + [frame[res := x]]
  {
    assert Bind(frame, [res], [x]) == Bind(frame[res := x], [], []);
  }

  lemma ReadStep(f: Sym, res: Value, ref: Value, rest: Code, above: seq<Frame>, frame: Frame, store: Store,
                 fuel: nat, loc: nat)
    requires Look(SAMPLE, above + [frame], ref) == Ref(loc) && loc < |store|
    ensures Exec(SAMPLE, PRIM, f, Do(Read(res, ref), rest), above + [frame], store, fuel)
         == Exec(SAMPLE, PRIM, f, rest, above + [frame[res := store[loc]]], store, fuel)
  {
    assert Looks(SAMPLE, above + [frame], [ref]) == [Ref(loc)];
    Binds(above, frame, res, store[loc]);
  }

  lemma WriteStep(f: Sym, val: Value, ref: Value, rest: Code, above: seq<Frame>, frame: Frame, store: Store,
                  fuel: nat, loc: nat)
    requires Look(SAMPLE, above + [frame], ref) == Ref(loc) && loc < |store|
    ensures Exec(SAMPLE, PRIM, f, Do(Write(val, ref), rest), above + [frame], store, fuel)
         == Exec(SAMPLE, PRIM, f, rest, above + [frame], store[loc := Look(SAMPLE, above + [frame], val)], fuel)
  {
    var x := Look(SAMPLE, above + [frame], val);
    assert Looks(SAMPLE, above + [frame], [val, ref]) == [x, Ref(loc)];
    assert Extend(above + [frame], [], []) == above + [frame];
  }

  lemma SumStep(f: Sym, res: Value, left: Value, right: Value, rest: Code, above: seq<Frame>, frame: Frame,
                store: Store, fuel: nat, a: int, b: int)
    requires Look(SAMPLE, above + [frame], left) == Int(a) && Look(SAMPLE, above + [frame], right) == Int(b)
    ensures Exec(SAMPLE, PRIM, f, Do(Eval(res, SUM, [left, right]), rest), above + [frame], store, fuel)
         == Exec(SAMPLE, PRIM, f, rest, above + [frame[res := Int(a + b)]], store, fuel)
  {
    assert Looks(SAMPLE, above + [frame], [left, right]) == [Int(a), Int(b)];
    Binds(above, frame, res, Int(a + b));
  }

  /** In Bump, D is Main's. */
  lemma BumpLooks(outer: Frame, frame: Frame)
    requires D in outer && P in frame
    ensures Look(SAMPLE, [outer] + [frame], D) == outer[D] && Look(SAMPLE, [outer] + [frame], P) == frame[P]
    ensures 11 in frame ==> Look(SAMPLE, [outer] + [frame], 11) == frame[11]
    ensures 12 in frame ==> Look(SAMPLE, [outer] + [frame], 12) == frame[12]
  {
  }

  /** Bump, entered with an object for P. */
  lemma BumpRuns(outer: Frame, frame: Frame, store: Store, loc: nat, a: int, d: int, fuel: nat)
    requires D in outer && outer[D] == Int(d)
    requires P in frame && frame[P] == Ref(loc) && loc < |store| && store[loc] == Int(a)
    ensures Exec(SAMPLE, PRIM, BUMP, BUMP_ENTRY, [outer] + [frame], store, fuel)
         == Returned([], store[loc := Int(a + d)])
  {
    var frame1 := frame[11 := Int(a)];
    BumpLooks(outer, frame);
    ReadStep(BUMP, 11, P, BUMP_ENTRY.rest, [outer], frame, store, fuel, loc);
    BumpLooks(outer, frame1);
    SumStep(BUMP, 12, 11, D, BUMP_ENTRY.rest.rest, [outer], frame1, store, fuel, a, d);
    BumpWrites(outer, frame1[12 := Int(a + d)], store, loc, fuel);
  }

  lemma BumpWrites(outer: Frame, frame: Frame, store: Store, loc: nat, fuel: nat)
    requires D in outer && {P, 12} <= frame.Keys && frame[P] == Ref(loc) && loc < |store|
    ensures Exec(SAMPLE, PRIM, BUMP, BUMP_ENTRY.rest.rest, [outer] + [frame], store, fuel)
         == Returned([], store[loc := frame[12]])
  {
    BumpLooks(outer, frame);
    WriteStep(BUMP, 12, P, Return([]), [outer], frame, store, fuel, loc);
  }

  function Param(callee: Sym): Value { if callee == BUMP then P else Q }
  function Entry(callee: Sym): Code { if callee == BUMP then BUMP_ENTRY else TWICE_ENTRY }

  lemma SnapshotIs(x: Val)
    ensures Assigned(ONE_SNAPSHOT.initialFormals, [x], 0) == Some(x)
  {
    assert Find([0], 0) == 0;
  }

  lemma EntryIs(store: Store, loc: nat)
    requires loc < |store|
    ensures Enter([IN_OUT], [Ref(loc)], [store[loc]], ONE_SNAPSHOT, store, 0)
         == ([Ref(|store|)], store + [store[loc]])
  {
    var formals, args, initials, entered := [IN_OUT], [Ref(loc)], [store[loc]], store + [store[loc]];
    SnapshotIs(store[loc]);
    var none: seq<Val> := [];
    assert Enter(formals, args, initials, ONE_SNAPSHOT, entered, 1) == (none, entered);
    assert [Ref(|store|)] + none == [Ref(|store|)];
  }

  /** A call is entered with a new object that holds the snapshot, under Main's frame. */
  lemma CallEnters(callee: Sym, outer: Frame, chain: seq<Frame>, store: Store, loc: nat, fuel: nat)
    requires callee in {BUMP, TWICE} && fuel > 0 && loc < |store| && |chain| > 0 && chain[0] == outer
    ensures Activate(SAMPLE, PRIM, callee, ONE_SNAPSHOT, [Ref(loc)], [store[loc]], chain, store, fuel)
         == WithFinals([IN_OUT], [Ref(|store|)],
              Exec(SAMPLE, PRIM, callee, Entry(callee), [outer] + [map[Param(callee) := Ref(|store|)]],
                   store + [store[loc]], fuel - 1))
  {
    var denoted := Ref(|store|);
    EntryIs(store, loc);
    assert [denoted] + [Ref(loc)][1..] == [denoted];
    assert chain[..1] == [outer];
    var frame: Frame := map[Param(callee) := denoted];
    assert Bind(map[], [Param(callee)], [denoted]) == frame;
  }

  /** It leaves by assigning the value of that object to the actual. */
  lemma CallLeaves(store: Store, loc: nat, at: nat)
    requires loc < |store| && at < |store|
    ensures Leave(PRIM, [IN_OUT], ONE_SNAPSHOT, 0, [Ref(loc)], [], WithFinals([IN_OUT], [Ref(at)], Returned([], store)))
         == Returned([], store[loc := store[at]])
  {
    var formals, last := [IN_OUT], store[at];
    assert Finals(formals, [Ref(at)], store, 1) == [];
    assert Finals(formals, [Ref(at)], store, 0) == [last];
    assert Rank(formals, 0) == 0 && Rank(formals, 1) == 1;
    assert [] + [last] == [last] && [last][0..] == [last] && [last][..0] == [];
    assert Order(ONE_SNAPSHOT, 1) == [0];
    assert ConvArgs(ONE_SNAPSHOT, [], 0, last) == [last];
    var stored := store[loc := last];
    assert [0][1..] == [];
    assert CopyBack(PRIM, formals, [], [last], [Ref(loc)], [], ONE_SNAPSHOT, stored) == Copied(stored);
    assert CopyBack(PRIM, formals, [0], [last], [Ref(loc)], [], ONE_SNAPSHOT, store) == Copied(stored);
  }

  /** So a call of either procedure changes the actual as the callee changes its formal. */
  lemma CallPerformed(callee: Sym, actual: Value, snapshot: Value, chain: seq<Frame>, store: Store, fuel: nat, loc: nat,
                      store': Store)
    requires callee in {BUMP, TWICE} && fuel > 0 && loc < |store| < |store'| && |chain| > 0
    requires Look(SAMPLE, chain, actual) == Ref(loc) && Look(SAMPLE, chain, snapshot) == store[loc]
    requires Exec(SAMPLE, PRIM, callee, Entry(callee), [chain[0]] + [map[Param(callee) := Ref(|store|)]],
                  store + [store[loc]], fuel - 1) == Returned([], store')
    ensures Perform(SAMPLE, PRIM, AdaCall([], callee, [actual], [snapshot], [], ONE_SNAPSHOT), chain, store, fuel)
         == Returned([], store'[loc := store'[|store|]])
  {
    CallEnters(callee, chain[0], chain, store, loc, fuel);
    CallLeaves(store', loc, |store|);
    assert Looks(SAMPLE, chain, [actual]) == [Ref(loc)];
    assert Looks(SAMPLE, chain, [snapshot]) == [store[loc]];
    assert Looks(SAMPLE, chain, []) == [];
  }

  /** The snapshot, then the call: `left` are the objects after it. */
  lemma CallStep(f: Sym, callee: Sym, actual: Value, snapshot: Value, rest: Code, above: seq<Frame>, frame: Frame,
                 frame1: Frame, store: Store, fuel: nat, loc: nat, store': Store, left: Store)
    requires callee in {BUMP, TWICE} && fuel > 0 && loc < |store| < |store'| && frame1 == frame[snapshot := store[loc]]
    requires Look(SAMPLE, above + [frame], actual) == Ref(loc)
    requires Look(SAMPLE, above + [frame1], actual) == Ref(loc)
    requires Look(SAMPLE, above + [frame1], snapshot) == store[loc]
    requires Exec(SAMPLE, PRIM, callee, Entry(callee), [(above + [frame1])[0]] + [map[Param(callee) := Ref(|store|)]],
                  store + [store[loc]], fuel - 1) == Returned([], store')
    requires left == store'[loc := store'[|store|]]
    ensures Exec(SAMPLE, PRIM, f, CallWith(callee, actual, snapshot, rest), above + [frame], store, fuel)
         == Exec(SAMPLE, PRIM, f, rest, above + [frame1], left, fuel)
  {
    var op: Op := AdaCall([], callee, [actual], [snapshot], [], ONE_SNAPSHOT);
    ReadStep(f, snapshot, actual, Do(op, rest), above, frame, store, fuel, loc);
    CallPerformed(callee, actual, snapshot, above + [frame1], store, fuel, loc, store');
    assert Extend(above + [frame1], [], []) == above + [frame1];
  }

  /** The objects after a call: its formal had an object of its own. */
  function AfterCall(store: Store, loc: nat, x: int): Store
    requires loc < |store|
  {
    (store + [Int(x)])[loc := Int(x)]
  }

  lemma ObjectsAfter(store: Store, loc: nat, x: int)
    requires loc < |store|
    ensures var store' := (store + [store[loc]])[|store| := Int(x)];
            store'[loc := store'[|store|]] == AfterCall(store, loc, x)
  {
  }

  lemma TwiceLooks(outer: Frame, frame: Frame)
    requires Q in frame
    ensures Look(SAMPLE, [outer] + [frame], Q) == frame[Q]
    ensures 21 in frame ==> Look(SAMPLE, [outer] + [frame], 21) == frame[21]
    ensures 22 in frame ==> Look(SAMPLE, [outer] + [frame], 22) == frame[22]
  {
  }

  lemma BumpCalled(snapshot: Value, rest: Code, outer: Frame, frame: Frame, store: Store, loc: nat, a: int, d: int,
                   fuel: nat)
    requires D in outer && outer[D] == Int(d) && Q in frame && frame[Q] == Ref(loc) && snapshot in {21, 22}
    requires fuel > 0 && loc < |store| && store[loc] == Int(a)
    ensures Exec(SAMPLE, PRIM, TWICE, CallWith(BUMP, Q, snapshot, rest), [outer] + [frame], store, fuel)
         == Exec(SAMPLE, PRIM, TWICE, rest, [outer] + [frame[snapshot := Int(a)]], AfterCall(store, loc, a + d), fuel)
  {
    TwiceLooks(outer, frame);
    var frame1 := frame[snapshot := Int(a)];
    TwiceLooks(outer, frame1);
    var store' := (store + [store[loc]])[|store| := Int(a + d)];
    BumpEntered(outer, store, a, d, loc, fuel - 1);
    ObjectsAfter(store, loc, a + d);
    CallStep(TWICE, BUMP, Q, snapshot, rest, [outer], frame, frame1, store, fuel, loc, store',
             AfterCall(store, loc, a + d));
  }

  lemma BumpEntered(outer: Frame, store: Store, a: int, d: int, loc: nat, fuel: nat)
    requires D in outer && outer[D] == Int(d) && loc < |store| && store[loc] == Int(a)
    ensures Exec(SAMPLE, PRIM, BUMP, Entry(BUMP), [outer] + [map[Param(BUMP) := Ref(|store|)]], store + [store[loc]],
                 fuel) == Returned([], (store + [store[loc]])[|store| := Int(a + d)])
  {
    BumpRuns(outer, map[P := Ref(|store|)], store + [store[loc]], |store|, a, d, fuel);
  }

  /** Twice, entered with an object for Q. */
  lemma TwiceRuns(outer: Frame, store: Store, loc: nat, a: int, d: int, fuel: nat)
    requires D in outer && outer[D] == Int(d) && fuel > 0 && loc < |store| && store[loc] == Int(a)
    ensures Exec(SAMPLE, PRIM, TWICE, TWICE_ENTRY, [outer] + [map[Q := Ref(loc)]], store, fuel)
         == Returned([], AfterCall(AfterCall(store, loc, a + d), loc, a + d + d))
  {
    var frame: Frame := map[Q := Ref(loc)];
    BumpCalled(21, CallWith(BUMP, Q, 22, Return([])), outer, frame, store, loc, a, d, fuel);
    BumpCalled(22, Return([]), outer, frame[21 := Int(a)], AfterCall(store, loc, a + d), loc, a + d, d, fuel);
  }

  lemma MainLooks(frame: Frame, v: Value)
    requires v in {K, D, X, 3, 4, 5, 6} && v in frame
    ensures Look(SAMPLE, [frame], v) == frame[v]
  {
  }

  /** The end of Main: K if X is zero, and otherwise X. */
  lemma TailRuns(frame: Frame, store: Store, x: int, fuel: nat)
    requires fuel > 0 && K in frame && X in frame && frame[X] == Ref(0) && |store| > 0 && store[0] == Int(x)
    ensures Exec(SAMPLE, PRIM, MAIN, TAIL, [] + [frame], store, fuel)
         == Returned([if x == 0 then frame[K] else Int(x)], store)
  {
    var frame1 := frame[4 := Int(x)];
    MainLooks(frame, X);
    ReadStep(MAIN, 4, X, TAIL.rest, [], frame, store, fuel, 0);
    TestRuns(frame1, store, x, fuel);
  }

  lemma TestRuns(frame: Frame, store: Store, x: int, fuel: nat)
    requires fuel > 0 && K in frame && 4 in frame && frame[4] == Int(x)
    ensures Exec(SAMPLE, PRIM, MAIN, TAIL.rest, [] + [frame], store, fuel)
         == Returned([if x == 0 then frame[K] else Int(x)], store)
  {
    var tested := Int(if x == 0 then 1 else 0);
    var frame1 := frame[5 := tested];
    MainLooks(frame, 4);
    assert Looks(SAMPLE, [] + [frame], [4]) == [Int(x)];
    Binds([], frame, 5, tested);
    BranchRuns(frame1, store, x, fuel);
  }

  lemma BranchRuns(frame: Frame, store: Store, x: int, fuel: nat)
    requires fuel > 0 && {K, 4, 5} <= frame.Keys && frame[4] == Int(x) && frame[5] == Int(if x == 0 then 1 else 0)
    ensures Exec(SAMPLE, PRIM, MAIN, TAIL.rest.rest, [] + [frame], store, fuel)
         == Returned([if x == 0 then frame[K] else Int(x)], store)
  {
    MainLooks(frame, 4);
    MainLooks(frame, 5);
    assert [] + [frame] == [frame];
    if x == 0 {
      MainLooks(frame, K);
      assert Looks(SAMPLE, [frame], []) == [] && Extend([frame], [], []) == [frame];
      assert Looks(SAMPLE, [frame], [K]) == [frame[K]];
      assert SAMPLE.subps[MAIN].blocks[1] == Block.Block([], Return([K]));
      assert Jump(SAMPLE, PRIM, MAIN, 1, [], [frame], store, fuel) == Returned([frame[K]], store);
    } else {
      var frame1 := frame[6 := Int(x)];
      MainLooks(frame1, 6);
      assert Looks(SAMPLE, [frame], [4]) == [Int(x)];
      Binds([], frame, 6, Int(x));
      assert Extend([frame], [6], [Int(x)]) == [frame1];
      assert Looks(SAMPLE, [frame1], [6]) == [Int(x)];
      assert SAMPLE.subps[MAIN].blocks[2] == Block.Block([6], Return([6]));
      assert Jump(SAMPLE, PRIM, MAIN, 2, [Int(x)], [frame], store, fuel) == Returned([Int(x)], store);
    }
  }

  /** What Main ends in. */
  function Expected(k: int, d: int): Outcome {
    var x := k + d + d;
    Returned([Int(if x == 0 then k else x)], [Int(x), Int(x), Int(k + d), Int(x)])
  }

  lemma MainFrame(k: int, d: int)
    ensures Bind(map[], [K, D], [Int(k), Int(d)]) == map[K := Int(k), D := Int(d)]
  {
    assert [K, D][1..] == [D] && [Int(k), Int(d)][1..] == [Int(d)];
    assert Bind(map[K := Int(k)], [D], [Int(d)]) == map[K := Int(k), D := Int(d)];
  }

  /** The program as it is written, for every K and D. */
  lemma MainRuns(k: int, d: int, fuel: nat)
    requires fuel >= 3
    ensures Invoke(SAMPLE, PRIM, MAIN, [Int(k), Int(d)], [], [], fuel) == Expected(k, d)
  {
    var frame: Frame := map[K := Int(k), D := Int(d)];
    MainStarts(k, d, fuel);
    MainCalls(frame[X := Ref(0)], k, d, fuel - 1);
  }

  lemma MainStarts(k: int, d: int, fuel: nat)
    requires fuel > 0
    ensures Invoke(SAMPLE, PRIM, MAIN, [Int(k), Int(d)], [], [], fuel)
         == Exec(SAMPLE, PRIM, MAIN, MAIN_ENTRY.rest, [] + [map[K := Int(k), D := Int(d)][X := Ref(0)]], [Int(k)],
                 fuel - 1)
  {
    MainFrame(k, d);
    var none: seq<Frame> := [];
    var frame: Frame := map[K := Int(k), D := Int(d)];
    assert none[..0] + [frame] == [frame];
    ObjectMade(frame, k, fuel - 1);
  }

  /** The objects of X, of Q and of P in both calls, before X is assigned. */
  function ObjectsLeft(k: int, d: int): Store { [Int(k), Int(k + d + d), Int(k + d), Int(k + d + d)] }

  lemma TwiceEntered(outer: Frame, k: int, d: int, fuel: nat)
    requires D in outer && outer[D] == Int(d) && fuel > 0
    ensures Exec(SAMPLE, PRIM, TWICE, TWICE_ENTRY, [outer] + [map[Q := Ref(1)]], [Int(k)] + [Int(k)], fuel)
         == Returned([], ObjectsLeft(k, d))
  {
    var entered: Store := [Int(k)] + [Int(k)];
    TwiceRuns(outer, entered, 1, k, d, fuel);
    assert AfterCall(entered, 1, k + d) == [Int(k), Int(k + d), Int(k + d)];
    assert AfterCall(AfterCall(entered, 1, k + d), 1, k + d + d) == ObjectsLeft(k, d);
  }

  lemma TailEnds(frame: Frame, k: int, d: int, fuel: nat)
    requires fuel > 0 && {K, X} <= frame.Keys && frame[K] == Int(k) && frame[X] == Ref(0)
    ensures Exec(SAMPLE, PRIM, MAIN, TAIL, [] + [frame], ObjectsLeft(k, d)[0 := ObjectsLeft(k, d)[1]], fuel)
         == Expected(k, d)
  {
    var store := ObjectsLeft(k, d)[0 := ObjectsLeft(k, d)[1]];
    assert store == Expected(k, d).store;
    TailRuns(frame, store, k + d + d, fuel);
  }

  /** From the call on. */
  lemma MainCalls(frame: Frame, k: int, d: int, fuel: nat)
    requires fuel >= 2 && {K, D, X} <= frame.Keys && frame[K] == Int(k) && frame[D] == Int(d) && frame[X] == Ref(0)
    ensures Exec(SAMPLE, PRIM, MAIN, MAIN_ENTRY.rest, [] + [frame], [Int(k)], fuel) == Expected(k, d)
  {
    var frame1 := frame[3 := Int(k)];
    MainLooks(frame, X);
    MainLooks(frame1, X);
    MainLooks(frame1, 3);
    assert [] + [frame] == [frame] && [] + [frame1] == [frame1];
    var left := ObjectsLeft(k, d);
    TwiceEntered(frame1, k, d, fuel - 1);
    CallStep(MAIN, TWICE, X, 3, TAIL, [], frame, frame1, [Int(k)], fuel, 0, left, left[0 := left[1]]);
    TailEnds(frame1, k, d, fuel);
  }

  lemma ObjectMade(frame: Frame, k: int, fuel: nat)
    requires K in frame && frame[K] == Int(k)
    ensures Exec(SAMPLE, PRIM, MAIN, MAIN_ENTRY, [frame], [], fuel)
         == Exec(SAMPLE, PRIM, MAIN, MAIN_ENTRY.rest, [] + [frame[X := Ref(0)]], [Int(k)], fuel)
  {
    MainLooks(frame, K);
    assert [] + [frame] == [frame];
    assert Looks(SAMPLE, [frame], [K]) == [Int(k)];
    Binds([], frame, X, Ref(0));
    var none: Store := [];
    assert none + [Int(k)] == [Int(k)];
  }

  // ------------------------------------------------------------ after the passes

  /** What the theorems ask of the code of a subprogram. */
  ghost predicate CodeSound(f: Sym, code: Code) {
    CallsOk(SAMPLE, f, code) && CodeTyped(SAMPLE, code) && ResultsAfter(SAMPLE, code)
  }

  lemma BumpCode()
    ensures Uses(BUMP_ENTRY) == [P, 11, D, 12, P] && Defs(BUMP_ENTRY) == [11, 12]
    ensures CodeSound(BUMP, BUMP_ENTRY) && forall g :: !Ir.Calls(BUMP_ENTRY, g)
  {
    var add, write := BUMP_ENTRY.rest, BUMP_ENTRY.rest.rest;
    assert Uses(write) == [12, P] && Defs(write) == [];
    assert Uses(add) == [11, D, 12, P] && Defs(add) == [12];
    assert CodeSound(BUMP, write) && CodeSound(BUMP, add);
    forall g ensures !Ir.Calls(BUMP_ENTRY, g) {
      assert !Ir.Calls(write, g) && !Ir.Calls(add, g);
    }
  }

  lemma CallVerified(callee: Sym, actual: Value, snapshot: Value)
    requires callee in {BUMP, TWICE}
    ensures exists dynamic ::
      Verified(AdaCall([], callee, [actual], [snapshot], [], ONE_SNAPSHOT), SAMPLE.subps[callee], dynamic)
  {
    var subp := SAMPLE.subps[callee];
    assert subp.formals == [IN_OUT] && |subp.params| == 1;
    assert Verified(AdaCall([], callee, [actual], [snapshot], [], ONE_SNAPSHOT), subp, []);
  }

  /** A call is sound code in front of sound code. */
  lemma CallCode(f: Sym, callee: Sym, actual: Value, snapshot: Value, rest: Code)
    requires callee in {BUMP, TWICE} && f in SAMPLE.path && CodeSound(f, rest)
    ensures CodeSound(f, CallWith(callee, actual, snapshot, rest))
  {
    CallVerified(callee, actual, snapshot);
    var call := CallWith(callee, actual, snapshot, rest).rest;
    assert SAMPLE.path[callee] == [MAIN, callee] && SAMPLE.path[callee][..1] == [MAIN] <= SAMPLE.path[f];
    assert |SAMPLE.subps[callee].params| == 1;
    assert CodeSound(f, call);
  }

  lemma CallUses(callee: Sym, actual: Value, snapshot: Value, rest: Code)
    ensures Uses(CallWith(callee, actual, snapshot, rest)) == [actual, actual, snapshot] + Uses(rest)
    ensures Defs(CallWith(callee, actual, snapshot, rest)) == [snapshot] + Defs(rest)
    ensures forall g :: Ir.Calls(CallWith(callee, actual, snapshot, rest), g) ==> g == callee || Ir.Calls(rest, g)
  {
    var call := CallWith(callee, actual, snapshot, rest).rest;
    assert Uses(call) == [actual, snapshot] + Uses(rest) && Defs(call) == Defs(rest);
  }

  lemma TwiceCode()
    ensures Uses(TWICE_ENTRY) == [Q, Q, 21, Q, Q, 22] && Defs(TWICE_ENTRY) == [21, 22]
    ensures CodeSound(TWICE, TWICE_ENTRY) && forall g :: Ir.Calls(TWICE_ENTRY, g) ==> g == BUMP
  {
    CallCode(TWICE, BUMP, Q, 22, Return([]));
    CallCode(TWICE, BUMP, Q, 21, CallWith(BUMP, Q, 22, Return([])));
    CallUses(BUMP, Q, 22, Return([]));
    CallUses(BUMP, Q, 21, CallWith(BUMP, Q, 22, Return([])));
  }

  lemma MainCode()
    ensures Uses(MAIN_ENTRY) == [K, X, X, 3, X, 4, 5, 4] && Defs(MAIN_ENTRY) == [X, 3, 4, 5]
    ensures CodeSound(MAIN, MAIN_ENTRY)
  {
    var test, branch := TAIL.rest, TAIL.rest.rest;
    assert Uses(branch) == [5, 4] && Uses(test) == [4, 5, 4] && Uses(TAIL) == [X, 4, 5, 4];
    assert Defs(branch) == [] && Defs(test) == [5] && Defs(TAIL) == [4, 5];
    assert CodeSound(MAIN, branch) && CodeSound(MAIN, test) && CodeSound(MAIN, TAIL);
    CallCode(MAIN, TWICE, X, 3, TAIL);
    CallUses(TWICE, X, 3, TAIL);
    var rest := MAIN_ENTRY.rest;
    assert Uses(rest) == [X, X, 3, X, 4, 5, 4] && Defs(rest) == [3, 4, 5];
  }

  ghost predicate Sound(f: Sym)
    requires f in SAMPLE.subps && f in SAMPLE.path
  {
    SubpOk(SAMPLE, f) && SubpTyped(SAMPLE, f) && AllResultsAfter(SAMPLE, f)
  }

  lemma BumpSound()
    ensures Sound(BUMP)
  {
    BumpCode();
  }

  lemma TwiceSound()
    ensures Sound(TWICE)
  {
    TwiceCode();
  }

  lemma BlockUses(b: nat, v: Value)
    requires b < |MAIN_BODY|
    ensures v in Uses(MAIN_BODY[b].code) ==> v in {K, X, 3, 4, 5, 6}
    ensures v in MAIN_BODY[b].args || v in Defs(MAIN_BODY[b].code) ==> v in {X, 3, 4, 5, 6}
  {
    if b == 0 { MainCode(); }
  }

  lemma MainHome(v: Value)
    requires v in {K, X, 3, 4, 5, 6}
    ensures v in SAMPLE.home && SAMPLE.home[v] == MAIN
  {
  }

  lemma MainUses(v: Value)
    ensures UsedIn(MAIN_BODY, v) ==> v in SAMPLE.home && SAMPLE.home[v] == MAIN
    ensures DefinedIn(MAIN_BODY, v) ==> v in SAMPLE.home && SAMPLE.home[v] == MAIN && v !in [K, D]
  {
    if UsedIn(MAIN_BODY, v) {
      var b :| 0 <= b < |MAIN_BODY| && v in Uses(MAIN_BODY[b].code);
      BlockUses(b, v);
      MainHome(v);
    }
    if DefinedIn(MAIN_BODY, v) {
      var b :| 0 <= b < |MAIN_BODY| && (v in MAIN_BODY[b].args || v in Defs(MAIN_BODY[b].code));
      BlockUses(b, v);
      MainHome(v);
    }
  }

  lemma MainCallsOk(b: nat)
    requires b < |MAIN_BODY|
    ensures CallsOk(SAMPLE, MAIN, MAIN_BODY[b].code)
  {
    MainCode();
  }

  lemma MainOk()
    ensures SubpOk(SAMPLE, MAIN)
  {
    var subp := SAMPLE.subps[MAIN];
    assert subp.params == [K, D] && subp.formals == [] && subp.blocks == MAIN_BODY;
    forall v ensures UsedIn(subp.blocks, v) ==> v in SAMPLE.home && SAMPLE.home[v] in SAMPLE.path[MAIN]
             ensures DefinedIn(subp.blocks, v) ==> v in SAMPLE.home && SAMPLE.home[v] == MAIN {
      MainUses(v);
    }
    forall b | 0 <= b < |MAIN_BODY| ensures CallsOk(SAMPLE, MAIN, MAIN_BODY[b].code) { MainCallsOk(b); }
  }

  lemma MainSound()
    ensures Sound(MAIN)
  {
    MainOk();
    MainTyped();
  }

  lemma MainTyped()
    ensures SubpTyped(SAMPLE, MAIN) && AllResultsAfter(SAMPLE, MAIN)
  {
    MainCode();
    forall v ensures DefinedIn(MAIN_BODY, v) ==> v !in [K, D] { MainUses(v); }
  }

  lemma SubpsSound(f: Sym)
    requires f in SAMPLE.subps
    ensures SubpOk(SAMPLE, f) && SubpTyped(SAMPLE, f) && AllResultsAfter(SAMPLE, f)
  {
    BumpSound();
    TwiceSound();
    MainSound();
    assert Sound(f);
  }

  /** The program is one that both passes are about. */
  lemma SampleIsSource()
    ensures NestedSource(SAMPLE)
  {
    forall f | f in SAMPLE.path ensures ValidPath(SAMPLE, f) {
      assert [MAIN, BUMP][..1] == [MAIN] == [MAIN, TWICE][..1];
    }
    forall f | f in SAMPLE.subps ensures SubpOk(SAMPLE, f) && SubpTyped(SAMPLE, f) && AllResultsAfter(SAMPLE, f) {
      SubpsSound(f);
    }
  }

  lemma SampleLaidOut()
    ensures LaidOut(SAMPLE, NEST, []) && Distinct(NEST) && Syms(NEST) == {MAIN, BUMP, TWICE}
    ensures CollectNested(NEST) == [BUMP, TWICE]
  {
    assert [] + [MAIN] == [MAIN] && [MAIN] + [BUMP] == [MAIN, BUMP] && [MAIN] + [TWICE] == [MAIN, TWICE];
    assert LaidOut(SAMPLE, NEST.inner.next, [MAIN]);
    assert LaidOut(SAMPLE, NEST.inner, [MAIN]);
    assert Syms(NEST.inner.next) == {TWICE} && Syms(NEST.inner) == {BUMP, TWICE};
    assert PostOrder(NEST.inner.next) == [TWICE] && PostOrder(NEST.inner) == [BUMP, TWICE];
  }

  /** Twice calls Bump, which is declared before it. */
  lemma SampleBackwards()
    ensures CallsBackwards(SAMPLE, NEST)
  {
    SampleLaidOut();
    assert Syms(NEST.inner.next) == {TWICE};
    assert DeclaredBefore(NEST.inner, BUMP, TWICE);
    BumpCode();
    TwiceCode();
    forall g ensures !CalledIn(SAMPLE.subps[BUMP].blocks, g) {
    }
    forall g | CalledIn(SAMPLE.subps[TWICE].blocks, g) ensures g == BUMP {
    }
  }

  /** The passes accept the program, and what they make of it ends as it does. */
  lemma LoweredRuns(m1: Module, m2: Module, caps: Captures, lifts: Captures, names: map<Sym, Names>,
                    k: int, d: int, fuel: nat)
    requires LiftedFrom(SAMPLE, m1, caps, lifts) && CapturesNeeds(SAMPLE, caps) && CallsLowered(m1, m2, names)
    requires fuel >= 3
    ensures Invoke(m2, PRIM, MAIN, [Int(k), Int(d)], [], [], fuel) == Expected(k, d)
  {
    SampleIsSource();
    MainRuns(k, d, fuel);
    MainPassesKeepMeaning(SAMPLE, m1, m2, caps, lifts, names, PRIM, MAIN, [Int(k), Int(d)], [], fuel);
  }
}
