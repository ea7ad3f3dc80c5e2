/** Small bodies whose outcome is known for every initial value, by the statements and,
  * with `BodyMeans`, by their graphs.
  */
module SampleBodies {
  import opened Options
  import opened Statements
  import opened Cfg
  import opened CfgAccepts
  import opened CfgBody
  import opened CfgGrowth
  import opened CfgSimulation

  const X: Var := 0

  const POSITIVE: Expr := 0  // X > 0
  const ONE_LESS: Expr := 1  // X - 1
  const ONE_MORE: Expr := 2  // X + 1
  const TAKE: Expr := 3      // a call: whether X > 0, and X := X - 1

  function Evaluate(e: Expr, s: State): Value {
    var x := if X in s.store then s.store[X] else 0;
    if e == TAKE then Value(if x > 0 then 1 else 0, s.store[X := x - 1]) else
    Value(if e == POSITIVE then (if x > 0 then 1 else 0) else if e == ONE_LESS then x - 1 else x + 1, s.store)
  }

  const RULES: Eval := Rules(Evaluate, Converted)

  function Holding(x: int): State { State(map[X := x], map[]) }

  /** What the theorems ask of a body. */
  ghost predicate Sound(body: Stmts) {
    && LabelsOnceAll(body) && WellformedAll(body, [])
    && LegalAll(body) && GotosObeyAll(body, OwnLabels(body))
  }

  /** A procedure that falls through has a graph that ends with the same objects. */
  lemma Ends(body: Stmts, s: State, s': State, fuel: nat)
    requires Sound(body) && RunStmts(RULES, body, body, s, fuel) == Normal(s')
    ensures GenBody(body, true).Some?
    ensures Reaches(RULES, GenBody(body, true).value.region, s, FReturned(None, s'.store))
  {
    WellformedAccepted(body, true);
    assert EndsWith(RunStmts(RULES, body, body, s, fuel), true, FReturned(None, s'.store));
    BodyMeans(RULES, body, true, GenBody(body, true).value.region, s, FReturned(None, s'.store));
  }

  const DECREMENT := Cons(Assign(X, ONE_LESS), Nil)

  // while X > 0 loop X := X - 1; end loop;
  const COUNT_DOWN := Cons(While(None, POSITIVE, DECREMENT), Nil)

  lemma Decrements(x: int, fuel: nat)
    ensures RunStmts(RULES, DECREMENT, DECREMENT, Holding(x), fuel) == Normal(Holding(x - 1))
  {
    assert RunStmt(RULES, Assign(X, ONE_LESS), Holding(x), fuel) == Normal(Holding(x - 1));
    assert RunStmts(RULES, DECREMENT, Nil, Holding(x - 1), fuel) == Normal(Holding(x - 1));
  }

  lemma {:induction false} CountsDown(n: nat)
    ensures RunWhile(RULES, None, POSITIVE, DECREMENT, Holding(n), n + 1) == Normal(Holding(0))
  {
    if n > 0 {
      Decrements(n, n + 1);
      CountsDown(n - 1);
    }
  }

  /** The graph of the loop ends with X zero. */
  lemma CountDownEnds(n: nat)
    ensures GenBody(COUNT_DOWN, true).Some?
    ensures Reaches(RULES, GenBody(COUNT_DOWN, true).value.region, Holding(n), FReturned(None, map[X := 0]))
  {
    CountsDown(n);
    assert RunStmt(RULES, COUNT_DOWN.head, Holding(n), n + 1) == Normal(Holding(0));
    assert RunStmts(RULES, COUNT_DOWN, Nil, Holding(0), n + 1) == Normal(Holding(0));
    Ends(COUNT_DOWN, Holding(n), Holding(0), n + 1);
  }

  const AGAIN: Label := 7

  const THEN_PART := Cons(Assign(X, ONE_LESS), Cons(Goto(AGAIN), Nil))
  const TEST := If(Guard(POSITIVE, THEN_PART, NoElse))

  // <<Again>> if X > 0 then X := X - 1; goto Again; end if;
  const JUMP_BACK := Cons(Labelled(AGAIN), Cons(TEST, Nil))

  lemma {:induction false} JumpsBack(n: nat)
    ensures RunStmts(RULES, JUMP_BACK, JUMP_BACK.tail, Holding(n), n) == Normal(Holding(0))
  {
    var o := RunStmt(RULES, TEST, Holding(n), n);
    if n > 0 {
      assert RunStmt(RULES, Assign(X, ONE_LESS), Holding(n), n) == Normal(Holding(n - 1));
      assert After(THEN_PART, AGAIN) == None;
      assert RunStmts(RULES, THEN_PART, THEN_PART.tail, Holding(n - 1), n) == Jumped(AGAIN, Holding(n - 1));
      assert Holding(n).(store := Holding(n).store) == Holding(n);
      assert RunStmts(RULES, THEN_PART, THEN_PART, Holding(n), n) == Jumped(AGAIN, Holding(n - 1));
      assert RunGuards(RULES, TEST.guards, Holding(n), n) == Jumped(AGAIN, Holding(n - 1));
      assert After(JUMP_BACK, AGAIN) == Some(JUMP_BACK.tail);
      JumpsBack(n - 1);
    } else {
      assert o == Normal(Holding(0));
      assert RunStmts(RULES, JUMP_BACK, Nil, Holding(0), n) == Normal(Holding(0));
    }
  }

  lemma JumpBackSound()
    ensures Sound(JUMP_BACK)
  {
    var scope := OwnLabels(JUMP_BACK);
    assert AGAIN in scope;
    assert PlacedInAll(THEN_PART) == {} && PlacedIn(TEST) == {};
    assert PlacedInAll(JUMP_BACK.tail) == {};
    var all := scope + OwnLabels(THEN_PART);
    assert GotosObeyAll(Nil, all);
    assert GotosObeyAll(THEN_PART.tail, all);
    assert GotosObeyAll(THEN_PART, all);
    assert GotosObey(TEST, scope);
    assert WellformedAll(THEN_PART, []) && LegalAll(THEN_PART) && LabelsOnceAll(THEN_PART);
  }

  /** So does the graph of the jump back out of an if statement. */
  lemma JumpBackEnds(n: nat)
    ensures GenBody(JUMP_BACK, true).Some?
    ensures Reaches(RULES, GenBody(JUMP_BACK, true).value.region, Holding(n), FReturned(None, map[X := 0]))
  {
    JumpsBack(n);
    assert RunStmts(RULES, JUMP_BACK, JUMP_BACK, Holding(n), n) == Normal(Holding(0));
    JumpBackSound();
    Ends(JUMP_BACK, Holding(n), Holding(0), n);
  }

  const OUTER: LoopName := Some(3)

  const INNER := Loop(None, Cons(Exit(OUTER, None), Nil))

  // Outer: loop loop exit Outer; end loop; X := X - 1; end loop Outer;
  const LEAVE_BOTH := Cons(Loop(OUTER, Cons(INNER, DECREMENT)), Nil)

  lemma LeaveBothSound()
    ensures Sound(LEAVE_BOTH)
  {
    var body := Cons(INNER, DECREMENT);
    assert [] + [OUTER] == [OUTER] && [OUTER] + [None] == [OUTER, None];
    assert WellformedAll(Nil, [OUTER, None]);
    assert Wellformed(Exit(OUTER, None), [OUTER, None]);
    assert WellformedAll(INNER.body, [OUTER, None]);
    assert WellformedAll(Nil, [OUTER]) && WellformedAll(DECREMENT, [OUTER]);
    assert WellformedAll(body, [OUTER]);
    assert PlacedIn(INNER) == {} && PlacedInAll(DECREMENT) == {};
    assert LegalAll(body) && LabelsOnceAll(body);
    assert GotosObeyAll(body, {});
  }

  /** An exit by name leaves both loops: X stays as it was. */
  lemma LeaveBothEnds(x: int)
    ensures GenBody(LEAVE_BOTH, true).Some?
    ensures Reaches(RULES, GenBody(LEAVE_BOTH, true).value.region, Holding(x), FReturned(None, map[X := x]))
  {
    var body := Cons(INNER, DECREMENT);
    assert RunStmts(RULES, INNER.body, INNER.body, Holding(x), 1) == Exited(OUTER, Holding(x));
    assert RunStmt(RULES, INNER, Holding(x), 1) == Exited(OUTER, Holding(x));
    assert RunStmts(RULES, body, body, Holding(x), 1) == Exited(OUTER, Holding(x));
    assert RunStmt(RULES, LEAVE_BOTH.head, Holding(x), 1) == Normal(Holding(x));
    assert RunStmts(RULES, LEAVE_BOTH, Nil, Holding(x), 1) == Normal(Holding(x));
    LeaveBothSound();
    Ends(LEAVE_BOTH, Holding(x), Holding(x), 1);
  }

  const BARE := Cons(Exit(None, Some(POSITIVE)), Cons(Assign(X, ONE_MORE), Nil))
  const CHOICE := If(Guard(POSITIVE, Cons(Return(Some(ONE_LESS)), Nil), Else(Cons(Return(Some(ONE_MORE)), Nil))))

  // loop exit when X > 0; X := X + 1; end loop;
  // if X > 0 then return X - 1; else return X + 1; end if;
  const COUNT_UP := Cons(Loop(None, BARE), Cons(CHOICE, Nil))

  lemma {:induction false} CountsUp(n: nat)
    ensures RunLoop(RULES, None, BARE, Holding(1 - n), n + 1) == Normal(Holding(1))
  {
    var s := Holding(1 - n);
    var tested := RunStmt(RULES, BARE.head, s, n + 1);
    if n > 0 {
      var s' := Holding(1 - n + 1);
      assert tested == Normal(s);
      assert RunStmt(RULES, Assign(X, ONE_MORE), s, n + 1) == Normal(s');
      assert RunStmts(RULES, BARE, Nil, s', n + 1) == Normal(s');
      assert RunStmts(RULES, BARE, BARE.tail, s, n + 1) == Normal(s');
      assert RunStmts(RULES, BARE, BARE, s, n + 1) == Normal(s');
      CountsUp(n - 1);
    } else {
      assert tested == Exited(None, s);
      assert RunStmts(RULES, BARE, BARE, s, n + 1) == Exited(None, s);
    }
  }

  lemma ChoiceSound()
    ensures Sound(COUNT_UP.tail)
  {
    var yes, no := Cons(Return(Some(ONE_LESS)), Nil), Cons(Return(Some(ONE_MORE)), Nil);
    assert WellformedAll(yes, []) && WellformedAll(no, []);
    assert LegalAll(yes) && LegalAll(no) && LabelsOnceAll(yes) && LabelsOnceAll(no);
    assert GotosObeyAll(yes, {}) && GotosObeyAll(no, {});
    assert PlacedInAll(yes) == {} && PlacedInAll(no) == {};
  }

  lemma CountUpSound()
    ensures Sound(COUNT_UP)
  {
    ChoiceSound();
    var bare: seq<LoopName> := [None];
    assert [] + bare == bare;
    assert WellformedAll(BARE.tail, [None]) && WellformedAll(BARE, [None]);
    assert LegalAll(BARE.tail) && LegalAll(BARE) && LabelsOnceAll(BARE.tail) && LabelsOnceAll(BARE);
    assert GotosObeyAll(BARE.tail, {}) && GotosObeyAll(BARE, {});
    assert PlacedInAll(BARE.tail) == {} && PlacedInAll(BARE) == {};
    assert Wellformed(COUNT_UP.head, []) && Legal(COUNT_UP.head) && LabelsOnce(COUNT_UP.head);
  }

  /** A function leaves the loop at 1, takes the first branch and yields 0; entered above
    * 1, it yields one less than X. */
  lemma CountUpYields(n: nat)
    ensures GenBody(COUNT_UP, false).Some?
    ensures Reaches(RULES, GenBody(COUNT_UP, false).value.region, Holding(1 - n), FReturned(Some(0), map[X := 1]))
  {
    CountsUp(n);
    assert RunStmt(RULES, COUNT_UP.head, Holding(1 - n), n + 1) == Normal(Holding(1));
    assert RunStmt(RULES, Return(Some(ONE_LESS)), Holding(1), n + 1) == Returned(Some(0), Holding(1));
    assert Holding(1).(store := Holding(1).store) == Holding(1);
    assert RunGuards(RULES, CHOICE.guards, Holding(1), n + 1) == Returned(Some(0), Holding(1));
    assert RunStmts(RULES, COUNT_UP, COUNT_UP.tail, Holding(1), n + 1) == Returned(Some(0), Holding(1));
    CountUpSound();
    WellformedAccepted(COUNT_UP, false);
    assert EndsWith(RunStmts(RULES, COUNT_UP, COUNT_UP, Holding(1 - n), n + 1), false, FReturned(Some(0), map[X := 1]));
    BodyMeans(RULES, COUNT_UP, false, GenBody(COUNT_UP, false).value.region, Holding(1 - n),
              FReturned(Some(0), map[X := 1]));
  }

  // if X > 0 then return X - 1; else return X + 1; end if;
  const CHOOSE := Cons(CHOICE, Nil)

  /** The else part is for an X that is not positive. */
  lemma ChoiceYields(x: int)
    ensures GenBody(CHOOSE, false).Some?
    ensures Reaches(RULES, GenBody(CHOOSE, false).value.region, Holding(x),
                    FReturned(Some(if x > 0 then x - 1 else x + 1), map[X := x]))
  {
    var y, part := if x > 0 then x - 1 else x + 1, Cons(Return(Some(if x > 0 then ONE_LESS else ONE_MORE)), Nil);
    assert RunStmt(RULES, part.head, Holding(x), 0) == Returned(Some(y), Holding(x));
    assert RunStmts(RULES, part, part, Holding(x), 0) == Returned(Some(y), Holding(x));
    assert Holding(x).(store := Holding(x).store) == Holding(x);
    assert RunGuards(RULES, CHOICE.guards, Holding(x), 0) == Returned(Some(y), Holding(x));
    assert RunStmts(RULES, CHOOSE, CHOOSE, Holding(x), 0) == Returned(Some(y), Holding(x));
    ChoiceSound();
    WellformedAccepted(CHOOSE, false);
    assert EndsWith(RunStmts(RULES, CHOOSE, CHOOSE, Holding(x), 0), false, FReturned(Some(y), map[X := x]));
    BodyMeans(RULES, CHOOSE, false, GenBody(CHOOSE, false).value.region, Holding(x), FReturned(Some(y), map[X := x]));
  }

  // while Take loop null; end loop;
  const DRAIN := Cons(While(None, TAKE, Cons(Null, Nil)), Nil)

  lemma {:induction false} Drains(n: nat)
    ensures RunWhile(RULES, None, TAKE, Cons(Null, Nil), Holding(n), n + 1) == Normal(Holding(-1))
  {
    var s, body := Holding(n - 1), Cons(Null, Nil);
    assert Holding(n).store[X := n - 1] == s.store;
    assert RULES.value(TAKE, Holding(n)) == Value(if n > 0 then 1 else 0, s.store);
    assert RunStmts(RULES, body, Nil, s, n + 1) == Normal(s);
    assert RunStmts(RULES, body, body, s, n + 1) == Normal(s);
    if n > 0 { Drains(n - 1); }
  }

  /** What a condition does to the objects stays, the last time too. */
  lemma DrainEnds(n: nat)
    ensures GenBody(DRAIN, true).Some?
    ensures Reaches(RULES, GenBody(DRAIN, true).value.region, Holding(n), FReturned(None, map[X := -1]))
  {
    Drains(n);
    assert RunStmts(RULES, DRAIN, Nil, Holding(-1), n + 1) == Normal(Holding(-1));
    Ends(DRAIN, Holding(n), Holding(-1), n + 1);
  }

  const I: Param := 0

  // for I in [reverse] X - 1 .. X + 1 loop X := X - 1; end loop;
  function Thrice(ty: ParamType, rev: bool): Stmts {
    Cons(For(None, I, ty, ONE_LESS, ONE_MORE, rev, DECREMENT), Nil)
  }

  /** The body decrements X, whatever the parameter is. */
  lemma DecrementsWith(s: State, fuel: nat)
    requires X in s.store
    ensures RunStmts(RULES, DECREMENT, DECREMENT, s, fuel) == Normal(s.(store := s.store[X := s.store[X] - 1]))
  {
    var s' := s.(store := s.store[X := s.store[X] - 1]);
    assert RunStmt(RULES, Assign(X, ONE_LESS), s, fuel) == Normal(s');
    assert RunStmts(RULES, DECREMENT, Nil, s', fuel) == Normal(s');
  }

  lemma ThriceSound(ty: ParamType, rev: bool)
    requires ty.Valid()
    ensures Sound(Thrice(ty, rev))
  {
    var none: seq<LoopName> := [];
    assert none + [None] == [None];
    assert LegalAll(DECREMENT) && WellformedAll(DECREMENT, [None]) && GotosObeyAll(DECREMENT, {});
    assert LabelsOnceAll(DECREMENT) && PlacedInAll(DECREMENT) == {};
  }

  lemma {:induction false} Iterates(lo: int, hi: int, rev: bool, i: int, s: State, left: nat) returns (s': State)
    requires X in s.store && left == if rev then i - lo + 1 else hi - i + 1
    requires lo <= hi + 1 && (left > 0 ==> lo <= i <= hi)
    ensures RunFor(RULES, None, I, i, lo, hi, rev, DECREMENT, s, left) == Normal(s')
    ensures s'.store == s.store[X := s.store[X] - left]
    decreases left
  {
    if left == 0 {
      s' := s;
    } else {
      var s1 := s.(params := s.params[I := i]);
      DecrementsWith(s1, left);
      s' := Iterates(lo, hi, rev, if rev then i - 1 else i + 1, s1.(store := s.store[X := s.store[X] - 1]), left - 1);
    }
  }

  lemma ForMeans(ty: ParamType, rev: bool, x: int, s': State, fuel: nat)
    requires ty.Valid() && ty.first <= x - 1 && x + 1 <= ty.last
    requires RunFor(RULES, None, I, if rev then x + 1 else x - 1, x - 1, x + 1, rev, DECREMENT, Holding(x), fuel)
          == Normal(s')
    ensures RunStmt(RULES, Thrice(ty, rev).head, Holding(x), fuel) == Normal(s')
  {
    var s := Holding(x);
    assert s.(store := s.store) == s;
  }

  /** A for loop runs over its bounds as they were before it, in either direction. */
  lemma ThriceEnds(ty: ParamType, rev: bool, x: int)
    requires ty.Valid() && ty.first <= x - 1 && x + 1 <= ty.last
    ensures GenBody(Thrice(ty, rev), true).Some?
    ensures Reaches(RULES, GenBody(Thrice(ty, rev), true).value.region, Holding(x), FReturned(None, map[X := x - 3]))
  {
    ThriceSound(ty, rev);
    var s := Holding(x);
    var s' := Iterates(x - 1, x + 1, rev, if rev then x + 1 else x - 1, s, 3);
    ForMeans(ty, rev, x, s', 3);
    assert RunStmts(RULES, Thrice(ty, rev), Nil, s', 3) == Normal(s');
    assert s'.store == map[X := x - 3];
    Ends(Thrice(ty, rev), s, s', 3);
  }
}
