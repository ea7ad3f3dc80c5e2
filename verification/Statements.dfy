/** Sequences of statements and their meaning (sections 5.1 to 5.8 of the Ada
  * Reference Manual).
  *
  * `RunStmt` is a structured semantics: an `exit` or a `goto` is an outcome that
  * travels outwards until the loop, or the sequence with the label, that it
  * names. Nothing here knows about basic blocks.
  */
module Statements {
  import opened Options
  import opened Words

  type Expr = nat
  type Var = nat    // an object
  type Param = nat  // a loop parameter, by its declaration
  type Label = nat
  type LoopName = Option<nat>

  /** The machine type behind a loop parameter, signed or modular. */
  datatype Machine = Signed(width: nat) | Modular(modulus: nat) {
    predicate Valid() { match this case Signed(w) => w > 0 case Modular(m) => m > 0 }
    function First(): int { match this case Signed(w) => if w > 0 then 0 - Pow2(w - 1) else 0 case Modular(m) => 0 }
    function Last(): int { match this case Signed(w) => if w > 0 then Pow2(w - 1) - 1 else 0 case Modular(m) => m - 1 }

    /** What unchecked arithmetic leaves of the mathematical result `x`. */
    function Wrap(x: int): int
      requires Valid()
    {
      match this
      case Signed(w) => Mod(x + Pow2(w - 1), Pow2(w)) - Pow2(w - 1)
      case Modular(m) => Mod(x, m)
    }
  }

  /** The subtype of a loop parameter: a static range of a machine type. */
  datatype ParamType = ParamType(machine: Machine, first: int, last: int) {
    predicate Valid() {
      machine.Valid() && machine.First() <= first && last <= machine.Last()
    }
    predicate Has(x: int) { first <= x <= last }
  }

  datatype Stmt =
    | Null
    | Assign(target: Var, source: Expr)
    | Return(value: Option<Expr>)
    | If(guards: Guards)
    | While(name: LoopName, cond: Expr, body: Stmts)
    | Loop(name: LoopName, body: Stmts)
    | For(name: LoopName, param: Param, ty: ParamType, low: Expr, high: Expr, reverse: bool, body: Stmts)
    | Exit(name: LoopName, when: Option<Expr>)
    | Goto(at: Label)
    | Labelled(at: Label)
    | Block(body: Stmts)

  datatype Stmts = Nil | Cons(head: Stmt, tail: Stmts)

  /** The guards of an if statement: the `if` and each `elsif`, then the else part. */
  datatype Guards = NoElse | Else(body: Stmts) | Guard(cond: Expr, body: Stmts, rest: Guards)

  // ---------------------------------------------------------------- meaning

  type Store = map<Var, int>

  /** The objects, and the current values of the loop parameters. */
  datatype State = State(store: Store, params: map<Param, int>)

  /** Evaluating an expression may write objects (through function calls) and raise. */
  datatype Value = Value(v: int, store: Store) | Raise(store: Store)

  /** What becomes of a for loop with a null range, when a bound is not a value of the
    * parameter's subtype: nothing (section 5.5), an exception, as both bounds are
    * converted first, or, to tell the runs that meet no such loop, no outcome at all. */
  datatype NullRange = Skipped | Converted | Undecided

  datatype Rules = Rules(value: (Expr, State) -> Value, nullRange: NullRange)

  /** The rules of the emitted code. */
  type Eval = rules: Rules | rules.nullRange.Converted?
    witness Rules((e: Expr, s: State) => Value(0, s.store), Converted)

  /** The range is not null, or both bounds are values of the subtype. */
  predicate Undisputed(ty: ParamType, lo: int, hi: int) { lo <= hi || (ty.Has(lo) && ty.Has(hi)) }

  datatype Out =
    | Normal(s: State)
    | Exited(name: LoopName, s: State)
    | Jumped(at: Label, s: State)
    | Returned(value: Option<int>, s: State)
    | Raised(s: State)
    | OutOfFuel

  /** Whether a loop is the one an exit statement names, if it is the innermost. */
  predicate Catches(loopName: LoopName, exitName: LoopName) {
    exitName.None? || loopName == exitName
  }

  /** The statements after `<<label>>` in this very sequence. */
  function After(list: Stmts, at: Label): Option<Stmts> {
    match list
    case Nil => None
    case Cons(head, tail) => if head == Labelled(at) then Some(tail) else After(tail, at)
  }

  function RunStmt(rules: Rules, stmt: Stmt, s: State, fuel: nat): Out
    decreases fuel, stmt, 0
  {
    match stmt
    case Null => Normal(s)
    case Assign(x, e) =>
      (match rules.value(e, s)
       case Raise(store) => Raised(s.(store := store))
       case Value(v, store) => Normal(s.(store := store[x := v])))
    case Return(None) => Returned(None, s)
    case Return(Some(e)) =>
      (match rules.value(e, s)
       case Raise(store) => Raised(s.(store := store))
       case Value(v, store) => Returned(Some(v), s.(store := store)))
    case If(guards) => RunGuards(rules, guards, s, fuel)
    case While(name, cond, body) => RunWhile(rules, name, cond, body, s, fuel)
    case Loop(name, body) => RunLoop(rules, name, body, s, fuel)
    case For(name, x, ty, low, high, rev, body) =>
      (match rules.value(low, s)
       case Raise(store) => Raised(s.(store := store))
       case Value(lo, store) =>
         match rules.value(high, s.(store := store))
         case Raise(store) => Raised(s.(store := store))
         case Value(hi, store) =>
           if lo > hi && rules.nullRange.Skipped? then Normal(s.(store := store))
           else if !Undisputed(ty, lo, hi) && rules.nullRange.Undecided? then OutOfFuel
           else if !ty.Has(lo) || !ty.Has(hi) then Raised(s.(store := store))
           else RunFor(rules, name, x, if rev then hi else lo, lo, hi, rev, body, s.(store := store), fuel))
    case Exit(name, None) => Exited(name, s)
    case Exit(name, Some(e)) =>
      (match rules.value(e, s)
       case Raise(store) => Raised(s.(store := store))
       case Value(v, store) => if v != 0 then Exited(name, s.(store := store)) else Normal(s.(store := store)))
    case Goto(at) => Jumped(at, s)
    case Labelled(_) => Normal(s)
    case Block(body) => RunStmts(rules, body, body, s, fuel)
  }

  /** Run `list`, the end of sequence `all`; a jump to a label of `all` resumes there. */
  function RunStmts(rules: Rules, all: Stmts, list: Stmts, s: State, fuel: nat): Out
    decreases fuel, list, 0
  {
    if list.Nil? then Normal(s) else
    var o := RunStmt(rules, list.head, s, fuel);
    match o
    case Normal(s') => RunStmts(rules, all, list.tail, s', fuel)
    case Jumped(at, s') =>
      (match After(all, at)
       case None => o
       case Some(rest) => if fuel == 0 then OutOfFuel else RunStmts(rules, all, rest, s', fuel - 1))
    case _ => o
  }

  /** A condition is tested only when all the earlier ones were false. */
  function RunGuards(rules: Rules, guards: Guards, s: State, fuel: nat): Out
    decreases fuel, guards, 0
  {
    match guards
    case NoElse => Normal(s)
    case Else(body) => RunStmts(rules, body, body, s, fuel)
    case Guard(cond, body, rest) =>
      match rules.value(cond, s)
      case Raise(store) => Raised(s.(store := store))
      case Value(v, store) =>
        if v != 0 then RunStmts(rules, body, body, s.(store := store), fuel)
        else RunGuards(rules, rest, s.(store := store), fuel)
  }

  function RunWhile(rules: Rules, name: LoopName, cond: Expr, body: Stmts, s: State, fuel: nat): Out
    decreases fuel, body, 1
  {
    if fuel == 0 then OutOfFuel else
    match rules.value(cond, s)
    case Raise(store) => Raised(s.(store := store))
    case Value(v, store) =>
      if v == 0 then Normal(s.(store := store)) else
      match RunStmts(rules, body, body, s.(store := store), fuel)
      case Normal(s') => RunWhile(rules, name, cond, body, s', fuel - 1)
      case Exited(n, s') => if Catches(name, n) then Normal(s') else Exited(n, s')
      case o => o
  }

  function RunLoop(rules: Rules, name: LoopName, body: Stmts, s: State, fuel: nat): Out
    decreases fuel, body, 1
  {
    if fuel == 0 then OutOfFuel else
    match RunStmts(rules, body, body, s, fuel)
    case Normal(s') => RunLoop(rules, name, body, s', fuel - 1)
    case Exited(n, s') => if Catches(name, n) then Normal(s') else Exited(n, s')
    case o => o
  }

  /** The iterations of `for x in low .. high`, from the value `i` on. */
  function RunFor(rules: Rules, name: LoopName, x: Param, i: int, low: int, high: int, rev: bool, body: Stmts,
                  s: State, fuel: nat): Out
    decreases fuel, body, 1
  {
    if !(low <= i <= high) then Normal(s)
    else if fuel == 0 then OutOfFuel else
    match RunStmts(rules, body, body, s.(params := s.params[x := i]), fuel)
    case Normal(s') => RunFor(rules, name, x, if rev then i - 1 else i + 1, low, high, rev, body, s', fuel - 1)
    case Exited(n, s') => if Catches(name, n) then Normal(s') else Exited(n, s')
    case o => o
  }

  /** The expression that a statement evaluates first. */
  function FirstOf(stmt: Stmt): Option<Expr> {
    match stmt
    case Assign(_, e) => Some(e)
    case Return(value) => value
    case If(Guard(cond, _, _)) => Some(cond)
    case While(_, cond, _) => Some(cond)
    case For(_, _, _, low, _, _, _) => Some(low)
    case Exit(_, when) => when
    case _ => None
  }

  /** When it raises, so does the statement, and what the expression has done to the
    * objects stays. */
  lemma RaisePropagates(rules: Rules, stmt: Stmt, s: State, fuel: nat)
    requires fuel > 0 && FirstOf(stmt).Some? && rules.value(FirstOf(stmt).value, s).Raise?
    ensures RunStmt(rules, stmt, s, fuel) == Raised(s.(store := rules.value(FirstOf(stmt).value, s).store))
  {
    match stmt
    case While(name, cond, body) => assert RunWhile(rules, name, cond, body, s, fuel).Raised?;
    case _ =>
  }
}
