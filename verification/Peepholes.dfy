/** The rewrites of object reads and writes within a basic block: each keeps the
  * block's meaning, whichever references alias, and applying them ends.
  */
module Peepholes {

  type Value = nat

  /** An operation of a block, by its effects. A `Pure` one may be executed or not
    * without notice; a `Free` one has no memory effect, but may not be executed
    * early; an `Effect` is anything else: a call, or an operator with a check,
    * which may write, read or raise. */
  datatype Op =
    | Read(res: Value, ref: Value)
    | Write(val: Value, ref: Value)
    | Requalify(res: Value, val: Value)
    | Pure(res: Value, fn: nat, args: seq<Value>)
    | Free(res: Value, fn: nat, args: seq<Value>)
    | Effect(res: Value, fn: nat, args: seq<Value>)

  predicate IsPure(op: Op) { op.Requalify? || op.Pure? }
  predicate EffectFree(op: Op) { IsPure(op) || op.Free? }

  // ---------------------------------------------------------------- meaning

  type Env = map<Value, int>
  type Store = map<int, int>  // references are values: any two may denote one location

  function Get(env: Env, v: Value): int { if v in env then env[v] else 0 }

  function Gets(env: Env, vs: seq<Value>): (r: seq<int>)
    ensures |r| == |vs| && forall i :: 0 <= i < |vs| ==> r[i] == Get(env, vs[i])
  {
    seq(|vs|, i requires 0 <= i < |vs| => Get(env, vs[i]))
  }

  datatype Effected = Normal(v: int, store: Store) | Raising(store: Store)

  /** The meaning of operations, by number. */
  datatype Machine = Machine(compute: (nat, seq<int>) -> int, perform: (nat, seq<int>, Store) -> Effected)

  /** A run ends with the values computed and the store, or raises at some operation;
    * it is stuck when a reference denotes no object. */
  datatype Outcome = Done(env: Env, store: Store) | Raised(at: Value, env: Env, store: Store) | Stuck

  function Step(m: Machine, op: Op, env: Env, store: Store): Outcome {
    match op
    case Read(x, r) => if Get(env, r) in store then Done(env[x := store[Get(env, r)]], store) else Stuck
    case Write(v, r) => if Get(env, r) in store then Done(env, store[Get(env, r) := Get(env, v)]) else Stuck
    case Requalify(x, v) => Done(env[x := Get(env, v)], store)
    case Pure(x, fn, args) => Done(env[x := m.compute(fn, Gets(env, args))], store)
    case Free(x, fn, args) => Done(env[x := m.compute(fn, Gets(env, args))], store)
    case Effect(x, fn, args) =>
      match m.perform(fn, Gets(env, args), store)
      case Normal(v, store') => Done(env[x := v], store')
      case Raising(store') => Raised(x, env, store')
  }

  function Run(m: Machine, ops: seq<Op>, env: Env, store: Store): Outcome
    decreases |ops|, 0
  {
    if ops == [] then Done(env, store) else
    Continue(m, Step(m, ops[0], env, store), ops[1..])
  }

  function Continue(m: Machine, o: Outcome, ops: seq<Op>): Outcome
    decreases |ops|, 1
  {
    if o.Done? then Run(m, ops, o.env, o.store) else o
  }

  lemma {:induction false} RunBoth(m: Machine, a: seq<Op>, b: seq<Op>, env: Env, store: Store)
    ensures Run(m, a + b, env, store) == Continue(m, Run(m, a, env, store), b)
  {
    if a == [] {
      assert a + b == b;
    } else {
      assert (a + b)[1..] == a[1..] + b;
      var o := Step(m, a[0], env, store);
      if o.Done? { RunBoth(m, a[1..], b, o.env, o.store); }
    }
  }

  lemma RunOne(m: Machine, op: Op, env: Env, store: Store)
    ensures Run(m, [op], env, store) == Step(m, op, env, store)
  {
    assert [op][1..] == [];
    var o := Step(m, op, env, store);
    if o.Done? { assert Run(m, [], o.env, o.store) == o; }
  }

  // ------------------------------------------------------------- SSA blocks

  function Defs(op: Op): set<Value> { if op.Write? then {} else {op.res} }

  function Uses(op: Op): set<Value> {
    match op
    case Read(_, r) => {r}
    case Write(v, r) => {v, r}
    case Requalify(_, v) => {v}
    case Pure(_, _, args) => set v | v in args
    case Free(_, _, args) => set v | v in args
    case Effect(_, _, args) => set v | v in args
  }

  function AllDefs(ops: seq<Op>): set<Value> {
    if ops == [] then {} else Defs(ops[0]) + AllDefs(ops[1..])
  }

  /** Values are defined once, and used after: `known` are those from outside. */
  predicate Ssa(ops: seq<Op>, known: set<Value>) {
    ops != [] ==> Uses(ops[0]) <= known && Defs(ops[0]) !! known && Ssa(ops[1..], known + Defs(ops[0]))
  }

  /** Every value is defined before it is used, and once. */
  lemma {:induction false} SsaIs(ops: seq<Op>, known: set<Value>)
    ensures Ssa(ops, known) <==> forall i :: 0 <= i < |ops| ==>
      Uses(ops[i]) <= known + AllDefs(ops[..i]) && Defs(ops[i]) !! known + AllDefs(ops[..i])
  {
    if ops != [] {
      var rest, more := ops[1..], known + Defs(ops[0]);
      SsaIs(rest, more);
      assert AllDefs(ops[..0]) == {};
      forall i | 0 <= i < |rest| ensures known + AllDefs(ops[..i + 1]) == more + AllDefs(rest[..i]) {
        assert ops[..i + 1][1..] == rest[..i];
      }
      assert forall i :: 0 <= i < |rest| ==> ops[i + 1] == rest[i];
      assert forall i :: 0 < i < |ops| ==> ops[i] == rest[i - 1];
    }
  }

  lemma {:induction false} SsaBoth(a: seq<Op>, b: seq<Op>, known: set<Value>)
    ensures Ssa(a + b, known) <==> Ssa(a, known) && Ssa(b, known + AllDefs(a))
    ensures AllDefs(a + b) == AllDefs(a) + AllDefs(b)
  {
    if a == [] {
      assert a + b == b && known + {} == known;
    } else {
      assert (a + b)[1..] == a[1..] + b;
      SsaBoth(a[1..], b, known + Defs(a[0]));
      assert known + Defs(a[0]) + AllDefs(a[1..]) == known + AllDefs(a);
    }
  }

  lemma {:induction false} SsaFresh(ops: seq<Op>, known: set<Value>)
    requires Ssa(ops, known)
    ensures AllDefs(ops) !! known
  {
    if ops != [] { SsaFresh(ops[1..], known + Defs(ops[0])); }
  }

  lemma {:induction false} SsaWider(ops: seq<Op>, known: set<Value>, more: set<Value>)
    requires Ssa(ops, known) && more !! AllDefs(ops)
    ensures Ssa(ops, known + more)
  {
    if ops != [] {
      SsaWider(ops[1..], known + Defs(ops[0]), more);
      assert known + Defs(ops[0]) + more == known + more + Defs(ops[0]);
    }
  }

  predicate AllEffectFree(ops: seq<Op>) { forall i :: 0 <= i < |ops| ==> EffectFree(ops[i]) }

  /** What effect-free operations do: nothing to the store, and nothing that the
    * store decides. */
  lemma {:induction false} RunEffectFree(m: Machine, ops: seq<Op>, env: Env, store: Store, store': Store)
    requires AllEffectFree(ops)
    ensures Run(m, ops, env, store).Done? && Run(m, ops, env, store).store == store
    ensures Run(m, ops, env, store').Done? && Run(m, ops, env, store').env == Run(m, ops, env, store).env
    ensures forall v :: v !in AllDefs(ops) ==> Get(Run(m, ops, env, store).env, v) == Get(env, v)
  {
    if ops != [] {
      var env1 := Step(m, ops[0], env, store).env;
      RunEffectFree(m, ops[1..], env1, store, store');
      RunEffectFree(m, ops[1..], env1, store', store);
    }
  }

  // ------------------------------------------------------------ the rewrites

  /** Both operations are in the block, with only operations between them that `free` allows. */
  predicate Apart(ops: seq<Op>, j: int, k: int) { 0 <= j < k < |ops| && FreeBetween(ops, j, k) }

  predicate FreeBetween(ops: seq<Op>, j: int, k: int)
    requires -1 <= j < k <= |ops|
  {
    forall i :: j < i < k ==> EffectFree(ops[i])
  }

  predicate PureBetween(ops: seq<Op>, j: int, k: int) {
    0 <= j < k < |ops| && forall i :: j < i < k ==> IsPure(ops[i])
  }

  /** A read becomes the value last written through the same reference. */
  predicate CanForward(ops: seq<Op>, j: int, k: int) {
    Apart(ops, j, k) && ops[j].Write? && ops[k].Read? && ops[j].ref == ops[k].ref
  }

  function Forwarded(ops: seq<Op>, j: int, k: int): seq<Op>
    requires CanForward(ops, j, k)
  {
    ops[k := Requalify(ops[k].res, ops[j].val)]
  }

  /** A write goes when the next effect is a write through the same reference. */
  predicate Overwritten(ops: seq<Op>, j: int, k: int) {
    PureBetween(ops, j, k) && ops[j].Write? && ops[k].Write? && ops[j].ref == ops[k].ref
  }

  /** A write goes when it writes back what was read, with no effect in between. */
  predicate ReadBack(ops: seq<Op>, j: int, k: int) {
    Apart(ops, j, k) && ops[j].Read? && ops[k].Write? && ops[k].val == ops[j].res && ops[k].ref == ops[j].ref
  }

  function Without(ops: seq<Op>, i: int): seq<Op>
    requires 0 <= i < |ops|
  {
    ops[..i] + ops[i + 1..]
  }

  ghost predicate Rewrites(ops: seq<Op>, ops': seq<Op>) {
    exists j, k {:trigger Apart(ops, j, k)} {:trigger PureBetween(ops, j, k)} ::
      || (CanForward(ops, j, k) && ops' == Forwarded(ops, j, k))
      || (Overwritten(ops, j, k) && ops' == Without(ops, j))
      || (ReadBack(ops, j, k) && ops' == Without(ops, k))
  }

  /** What may stand between the two operations of each rewrite. */
  lemma RewritesAre(ops: seq<Op>, j: int, k: int)
    ensures CanForward(ops, j, k) <==>
              && 0 <= j < k < |ops| && ops[j].Write? && ops[k].Read? && ops[j].ref == ops[k].ref
              && forall i :: j < i < k ==> ops[i].Requalify? || ops[i].Pure? || ops[i].Free?
    ensures Overwritten(ops, j, k) <==>
              && 0 <= j < k < |ops| && ops[j].Write? && ops[k].Write? && ops[j].ref == ops[k].ref
              && forall i :: j < i < k ==> ops[i].Requalify? || ops[i].Pure?
    ensures ReadBack(ops, j, k) <==>
              && 0 <= j < k < |ops| && ops[j].Read? && ops[k].Write?
              && ops[k].ref == ops[j].ref && ops[k].val == ops[j].res
              && forall i :: j < i < k ==> ops[i].Requalify? || ops[i].Pure? || ops[i].Free?
  {
  }

  /** A read sees the last write to its object, through whichever reference. */
  lemma ReadAfterWrite(m: Machine, v: Value, r: Value, x: Value, q: Value, env: Env, store: Store)
    requires Get(env, r) in store && Get(env, q) in store
    ensures var store' := store[Get(env, r) := Get(env, v)];
            Run(m, [Write(v, r), Read(x, q)], env, store) ==
              Done(env[x := if Get(env, q) == Get(env, r) then Get(env, v) else store[Get(env, q)]], store')
  {
    assert [Write(v, r), Read(x, q)] == [Write(v, r)] + [Read(x, q)];
    RunBoth(m, [Write(v, r)], [Read(x, q)], env, store);
    RunOne(m, Write(v, r), env, store);
    RunOne(m, Read(x, q), env, store[Get(env, r) := Get(env, v)]);
  }

  /** An operation without memory effects computes its result from its operands. */
  lemma Computes(m: Machine, op: Op, env: Env, store: Store)
    requires op.Pure? || op.Free?
    ensures Run(m, [op], env, store) == Done(env[op.res := m.compute(op.fn, Gets(env, op.args))], store)
  {
    RunOne(m, op, env, store);
  }

  /** A read also sees what an operation with effects has done, if that did not raise. */
  lemma ReadAfterEffect(m: Machine, x: Value, fn: nat, args: seq<Value>, y: Value, q: Value, env: Env, store: Store)
    requires q != x
    ensures var o := m.perform(fn, Gets(env, args), store);
            Run(m, [Effect(x, fn, args), Read(y, q)], env, store) ==
              if o.Raising? then Raised(x, env, o.store)
              else if Get(env, q) in o.store then Done(env[x := o.v][y := o.store[Get(env, q)]], o.store)
              else Stuck
  {
    var op := Effect(x, fn, args);
    assert [op, Read(y, q)] == [op] + [Read(y, q)];
    RunBoth(m, [op], [Read(y, q)], env, store);
    RunOne(m, op, env, store);
    var o := m.perform(fn, Gets(env, args), store);
    if o.Normal? {
      assert Get(env[x := o.v], q) == Get(env, q);
      RunOne(m, Read(y, q), env[x := o.v], o.store);
    }
  }

  /** The block means the same in every context: the same store, the same value for
    * every read and everything else, the same point of raise. */
  ghost predicate SameMeaning(ops: seq<Op>, ops': seq<Op>) {
    forall m, env, store :: Run(m, ops, env, store) == Run(m, ops', env, store)
  }

  /** A block around two operations. */
  lemma Split(ops: seq<Op>, j: int, k: int, known: set<Value>)
    requires 0 <= j < k < |ops| && Ssa(ops, known)
    ensures ops == ops[..j] + ([ops[j]] + (ops[j + 1..k] + ([ops[k]] + ops[k + 1..])))
    ensures ops[j + 1..] == ops[j + 1..k] + ([ops[k]] + ops[k + 1..])
    ensures Uses(ops[j]) !! AllDefs(ops[j + 1..k]) && Defs(ops[j]) !! AllDefs(ops[j + 1..k])
  {
    SplitShape(ops, j, k);
    SplitSsa(ops[..j], ops[j], ops[j + 1..k], [ops[k]] + ops[k + 1..], known);
  }

  lemma SplitShape(ops: seq<Op>, j: int, k: int)
    requires 0 <= j < k < |ops|
    ensures ops == ops[..j] + ([ops[j]] + (ops[j + 1..k] + ([ops[k]] + ops[k + 1..])))
    ensures ops[j + 1..] == ops[j + 1..k] + ([ops[k]] + ops[k + 1..])
  {
    assert ops[k..] == [ops[k]] + ops[k + 1..];
    assert ops[j + 1..] == ops[j + 1..k] + ops[k..];
    assert ops[j..] == [ops[j]] + ops[j + 1..];
    assert ops == ops[..j] + ops[j..];
  }

  lemma SplitSsa(pre: seq<Op>, op: Op, mid: seq<Op>, post: seq<Op>, known: set<Value>)
    requires Ssa(pre + ([op] + (mid + post)), known)
    ensures Uses(op) !! AllDefs(mid) && Defs(op) !! AllDefs(mid)
  {
    SsaBoth(pre, [op] + (mid + post), known);
    var here := known + AllDefs(pre);
    assert ([op] + (mid + post))[1..] == mid + post;
    SsaBoth(mid, post, here + Defs(op));
    SsaFresh(mid, here + Defs(op));
  }

  /** Runs that agree on a segment agree on the block. */
  lemma SegmentDecides(m: Machine, pre: seq<Op>, a: seq<Op>, b: seq<Op>, post: seq<Op>, env: Env, store: Store)
    requires forall e, s :: Run(m, a, e, s) == Run(m, b, e, s)
    ensures Run(m, pre + (a + post), env, store) == Run(m, pre + (b + post), env, store)
  {
    RunBoth(m, pre, a + post, env, store);
    RunBoth(m, pre, b + post, env, store);
    var o := Run(m, pre, env, store);
    if o.Done? {
      RunBoth(m, a, post, o.env, o.store);
      RunBoth(m, b, post, o.env, o.store);
    }
  }

  /** Two operations around others, as three runs. */
  lemma RunAround(m: Machine, first: seq<Op>, mid: seq<Op>, last: seq<Op>, env: Env, store: Store)
    ensures Run(m, first + (mid + last), env, store) == Continue(m, Continue(m, Run(m, first, env, store), mid), last)
  {
    RunBoth(m, first, mid + last, env, store);
    var o := Run(m, first, env, store);
    if o.Done? { RunBoth(m, mid, last, o.env, o.store); }
  }

  lemma SegmentSame(ops: seq<Op>, pre: seq<Op>, a: seq<Op>, b: seq<Op>, post: seq<Op>, ops': seq<Op>)
    requires ops == pre + (a + post) && ops' == pre + (b + post)
    requires forall m, e, s :: Run(m, a, e, s) == Run(m, b, e, s)
    ensures SameMeaning(ops, ops')
  {
    forall m, env, store ensures Run(m, ops, env, store) == Run(m, ops', env, store) {
      SegmentDecides(m, pre, a, b, post, env, store);
    }
  }

  lemma ForwardSegment(m: Machine, v: Value, r: Value, x: Value, mid: seq<Op>, e: Env, s: Store)
    requires AllEffectFree(mid) && v !in AllDefs(mid) && r !in AllDefs(mid)
    ensures Run(m, [Write(v, r)] + (mid + [Read(x, r)]), e, s)
      == Run(m, [Write(v, r)] + (mid + [Requalify(x, v)]), e, s)
  {
    RunAround(m, [Write(v, r)], mid, [Read(x, r)], e, s);
    RunAround(m, [Write(v, r)], mid, [Requalify(x, v)], e, s);
    RunOne(m, Write(v, r), e, s);
    if Get(e, r) in s {
      var s1 := s[Get(e, r) := Get(e, v)];
      RunEffectFree(m, mid, e, s1, s1);
      var e1 := Run(m, mid, e, s1).env;
      RunOne(m, Read(x, r), e1, s1);
      RunOne(m, Requalify(x, v), e1, s1);
    }
  }

  lemma OverwrittenSegment(m: Machine, v: Value, w: Value, r: Value, mid: seq<Op>, e: Env, s: Store)
    requires AllEffectFree(mid) && r !in AllDefs(mid)
    ensures Run(m, [Write(v, r)] + (mid + [Write(w, r)]), e, s) == Run(m, mid + [Write(w, r)], e, s)
  {
    RunAround(m, [Write(v, r)], mid, [Write(w, r)], e, s);
    RunBoth(m, mid, [Write(w, r)], e, s);
    RunOne(m, Write(v, r), e, s);
    RunEffectFree(m, mid, e, s, s);
    var e1 := Run(m, mid, e, s).env;
    RunOne(m, Write(w, r), e1, s);
    if Get(e, r) in s {
      var s1 := s[Get(e, r) := Get(e, v)];
      RunEffectFree(m, mid, e, s1, s);
      RunEffectFree(m, mid, e, s, s1);
      RunOne(m, Write(w, r), e1, s1);
      assert s1[Get(e1, r) := Get(e1, w)] == s[Get(e1, r) := Get(e1, w)];
    }
  }

  lemma ReadBackSegment(m: Machine, x: Value, r: Value, mid: seq<Op>, e: Env, s: Store)
    requires AllEffectFree(mid) && r !in AllDefs(mid) && x !in AllDefs(mid) && x != r
    ensures Run(m, [Read(x, r)] + (mid + [Write(x, r)]), e, s) == Run(m, [Read(x, r)] + mid, e, s)
  {
    RunAround(m, [Read(x, r)], mid, [Write(x, r)], e, s);
    RunBoth(m, [Read(x, r)], mid, e, s);
    RunOne(m, Read(x, r), e, s);
    if Get(e, r) in s {
      var e1 := e[x := s[Get(e, r)]];
      RunEffectFree(m, mid, e1, s, s);
      var e2 := Run(m, mid, e1, s).env;
      RunOne(m, Write(x, r), e2, s);
      assert s[Get(e, r) := s[Get(e, r)]] == s;
    }
  }

  /** A segment of two operations around others, within a block. */
  lemma AroundShape(pre: seq<Op>, first: Op, mid: seq<Op>, last: Op, post: seq<Op>)
    ensures pre + ([first] + (mid + ([last] + post))) == pre + (([first] + (mid + [last])) + post)
    ensures pre + (mid + ([last] + post)) == pre + ((mid + [last]) + post)
    ensures pre + ([first] + (mid + post)) == pre + (([first] + mid) + post)
  {
    assert [first] + (mid + ([last] + post)) == ([first] + (mid + [last])) + post;
    assert mid + ([last] + post) == (mid + [last]) + post;
    assert [first] + (mid + post) == ([first] + mid) + post;
  }

  lemma UpdatedShape(ops: seq<Op>, j: int, k: int, op: Op)
    requires 0 <= j < k < |ops|
    ensures ops[k := op] == ops[..j] + ([ops[j]] + (ops[j + 1..k] + ([op] + ops[k + 1..])))
  {
    var ops' := ops[k := op];
    SplitShape(ops', j, k);
    assert ops'[..j] == ops[..j] && ops'[j + 1..k] == ops[j + 1..k] && ops'[k + 1..] == ops[k + 1..];
  }

  lemma DroppedShape(ops: seq<Op>, j: int, k: int)
    requires 0 <= j < k < |ops|
    ensures Without(ops, k) == ops[..j] + ([ops[j]] + (ops[j + 1..k] + ops[k + 1..]))
    ensures Without(ops, j) == ops[..j] + (ops[j + 1..k] + ([ops[k]] + ops[k + 1..]))
  {
    SplitShape(ops, j, k);
    assert ops[..k] == ops[..j] + ([ops[j]] + ops[j + 1..k]);
  }

  lemma ForwardSegments(v: Value, r: Value, x: Value, mid: seq<Op>)
    requires AllEffectFree(mid) && v !in AllDefs(mid) && r !in AllDefs(mid)
    ensures forall m, e, s ::
      Run(m, [Write(v, r)] + (mid + [Read(x, r)]), e, s) == Run(m, [Write(v, r)] + (mid + [Requalify(x, v)]), e, s)
  {
    forall m, e, s
      ensures Run(m, [Write(v, r)] + (mid + [Read(x, r)]), e, s)
           == Run(m, [Write(v, r)] + (mid + [Requalify(x, v)]), e, s)
    {
      ForwardSegment(m, v, r, x, mid, e, s);
    }
  }

  lemma ForwardSame(ops: seq<Op>, j: int, k: int, known: set<Value>)
    requires CanForward(ops, j, k) && Ssa(ops, known)
    ensures SameMeaning(ops, Forwarded(ops, j, k))
  {
    var v, r, x, mid, post := ops[j].val, ops[j].ref, ops[k].res, ops[j + 1..k], ops[k + 1..];
    Split(ops, j, k, known);
    FreeMiddle(ops, j, k);
    ForwardSegments(v, r, x, mid);
    UpdatedShape(ops, j, k, Requalify(x, v));
    AroundShape(ops[..j], Write(v, r), mid, Read(x, r), post);
    AroundShape(ops[..j], Write(v, r), mid, Requalify(x, v), post);
    SegmentSame(ops, ops[..j], [Write(v, r)] + (mid + [Read(x, r)]), [Write(v, r)] + (mid + [Requalify(x, v)]), post,
                Forwarded(ops, j, k));
  }

  lemma OverwrittenSame(ops: seq<Op>, j: int, k: int, known: set<Value>)
    requires Overwritten(ops, j, k) && Ssa(ops, known)
    ensures SameMeaning(ops, Without(ops, j))
  {
    var v, w, r, mid, post := ops[j].val, ops[k].val, ops[j].ref, ops[j + 1..k], ops[k + 1..];
    Split(ops, j, k, known);
    assert Apart(ops, j, k);
    FreeMiddle(ops, j, k);
    OverwrittenSegments(v, w, r, mid);
    DroppedShape(ops, j, k);
    AroundShape(ops[..j], Write(v, r), mid, Write(w, r), post);
    SegmentSame(ops, ops[..j], [Write(v, r)] + (mid + [Write(w, r)]), mid + [Write(w, r)], post, Without(ops, j));
  }

  lemma FreeMiddle(ops: seq<Op>, j: int, k: int)
    requires Apart(ops, j, k)
    ensures AllEffectFree(ops[j + 1..k])
  {
    var mid := ops[j + 1..k];
    forall i | 0 <= i < |mid| ensures EffectFree(mid[i]) { assert mid[i] == ops[j + 1 + i]; }
  }

  lemma OverwrittenSegments(v: Value, w: Value, r: Value, mid: seq<Op>)
    requires AllEffectFree(mid) && r !in AllDefs(mid)
    ensures forall m, e, s :: Run(m, [Write(v, r)] + (mid + [Write(w, r)]), e, s) == Run(m, mid + [Write(w, r)], e, s)
  {
    forall m, e, s ensures Run(m, [Write(v, r)] + (mid + [Write(w, r)]), e, s) == Run(m, mid + [Write(w, r)], e, s) {
      OverwrittenSegment(m, v, w, r, mid, e, s);
    }
  }

  lemma ReadBackSegments(x: Value, r: Value, mid: seq<Op>)
    requires AllEffectFree(mid) && r !in AllDefs(mid) && x !in AllDefs(mid) && x != r
    ensures forall m, e, s :: Run(m, [Read(x, r)] + (mid + [Write(x, r)]), e, s) == Run(m, [Read(x, r)] + mid, e, s)
  {
    forall m, e, s ensures Run(m, [Read(x, r)] + (mid + [Write(x, r)]), e, s) == Run(m, [Read(x, r)] + mid, e, s) {
      ReadBackSegment(m, x, r, mid, e, s);
    }
  }

  lemma ReadBackSame(ops: seq<Op>, j: int, k: int, known: set<Value>)
    requires ReadBack(ops, j, k) && Ssa(ops, known)
    ensures SameMeaning(ops, Without(ops, k))
  {
    var x, r, mid, post := ops[j].res, ops[j].ref, ops[j + 1..k], ops[k + 1..];
    Split(ops, j, k, known);
    ReadApart(ops, j, known);
    FreeMiddle(ops, j, k);
    ReadBackSegments(x, r, mid);
    DroppedShape(ops, j, k);
    AroundShape(ops[..j], Read(x, r), mid, Write(x, r), post);
    SegmentSame(ops, ops[..j], [Read(x, r)] + (mid + [Write(x, r)]), [Read(x, r)] + mid, post, Without(ops, k));
  }

  lemma ReadApart(ops: seq<Op>, j: int, known: set<Value>)
    requires 0 <= j < |ops| && Ssa(ops, known)
    ensures Uses(ops[j]) !! Defs(ops[j])
  {
    assert ops == ops[..j] + ops[j..];
    SsaBoth(ops[..j], ops[j..], known);
  }

  // ------------------------------------------------------ any chain of rewrites

  function Weight(ops: seq<Op>): nat {
    if ops == [] then 0 else (if ops[0].Read? || ops[0].Write? then 1 else 0) + Weight(ops[1..])
  }

  lemma {:induction false} WeightBoth(a: seq<Op>, b: seq<Op>)
    ensures Weight(a + b) == Weight(a) + Weight(b)
  {
    if a == [] {
      assert a + b == b;
    } else {
      assert (a + b)[1..] == a[1..] + b;
      WeightBoth(a[1..], b);
    }
  }

  lemma WeightAt(ops: seq<Op>, i: int, op: seq<Op>)
    requires 0 <= i < |ops| && (ops[i].Read? || ops[i].Write?) && |op| <= 1 && (op != [] ==> op[0].Requalify?)
    ensures Weight(ops[..i] + op + ops[i + 1..]) == Weight(ops) - 1
  {
    assert ops == ops[..i] + ([ops[i]] + ops[i + 1..]);
    WeightBoth(ops[..i], [ops[i]] + ops[i + 1..]);
    WeightBoth([ops[i]], ops[i + 1..]);
    assert ops[..i] + op + ops[i + 1..] == ops[..i] + (op + ops[i + 1..]);
    WeightBoth(ops[..i], op + ops[i + 1..]);
    WeightBoth(op, ops[i + 1..]);
    assert [ops[i]][1..] == [] && (op != [] ==> op[1..] == []);
  }

  /** Replacing an operation by one with the same definition, and uses that are known
    * before it, keeps SSA form; so does dropping one that defines nothing. */
  lemma SsaAt(ops: seq<Op>, i: int, op: seq<Op>, known: set<Value>)
    requires 0 <= i < |ops| && Ssa(ops, known) && |op| <= 1
    requires if op == [] then ops[i].Write? else Defs(op[0]) == Defs(ops[i]) && Uses(op[0]) <= known + AllDefs(ops[..i])
    ensures Ssa(ops[..i] + op + ops[i + 1..], known)
  {
    var pre, post := ops[..i], ops[i + 1..];
    var here := known + AllDefs(pre);
    assert ops == pre + ([ops[i]] + post) && pre + op + post == pre + (op + post);
    SsaBoth(pre, [ops[i]] + post, known);
    SsaBoth([ops[i]], post, here);
    SsaBoth(pre, op + post, known);
    SsaBoth(op, post, here);
    assert [ops[i]][1..] == [] && AllDefs([ops[i]]) == Defs(ops[i]);
    if op == [] {
      assert here + {} == here;
    } else {
      assert op[1..] == [] && op == [op[0]] && AllDefs(op) == Defs(op[0]);
    }
  }

  /** What a rewrite achieves: it keeps the meaning and SSA form, and leaves fewer
    * reads and writes. */
  ghost predicate Achieves(ops: seq<Op>, ops': seq<Op>, known: set<Value>) {
    SameMeaning(ops, ops') && Ssa(ops', known) && Weight(ops') == Weight(ops) - 1
  }

  lemma ForwardAchieves(ops: seq<Op>, j: int, k: int, known: set<Value>)
    requires Ssa(ops, known) && CanForward(ops, j, k)
    ensures Achieves(ops, Forwarded(ops, j, k), known)
  {
    var op := [Requalify(ops[k].res, ops[j].val)];
    assert Forwarded(ops, j, k) == ops[..k] + op + ops[k + 1..];
    ForwardSame(ops, j, k, known);
    WrittenKnown(ops, j, k, known);
    WeightAt(ops, k, op);
    SsaAt(ops, k, op, known);
  }

  lemma DropAchieves(ops: seq<Op>, i: int, known: set<Value>)
    requires Ssa(ops, known) && 0 <= i < |ops| && ops[i].Write? && SameMeaning(ops, Without(ops, i))
    ensures Achieves(ops, Without(ops, i), known)
  {
    assert Without(ops, i) == ops[..i] + [] + ops[i + 1..];
    WeightAt(ops, i, []);
    SsaAt(ops, i, [], known);
  }

  lemma RewriteOnce(ops: seq<Op>, ops': seq<Op>, known: set<Value>)
    requires Ssa(ops, known) && Rewrites(ops, ops')
    ensures Achieves(ops, ops', known)
  {
    var j, k :| (CanForward(ops, j, k) && ops' == Forwarded(ops, j, k))
             || (Overwritten(ops, j, k) && ops' == Without(ops, j))
      || (ReadBack(ops, j, k) && ops' == Without(ops, k));
    if CanForward(ops, j, k) && ops' == Forwarded(ops, j, k) {
      ForwardAchieves(ops, j, k, known);
    } else if Overwritten(ops, j, k) && ops' == Without(ops, j) {
      OverwrittenSame(ops, j, k, known);
      DropAchieves(ops, j, known);
    } else {
      ReadBackSame(ops, j, k, known);
      DropAchieves(ops, k, known);
    }
  }

  lemma WrittenKnown(ops: seq<Op>, j: int, k: int, known: set<Value>)
    requires 0 <= j < k < |ops| && Ssa(ops, known)
    ensures Uses(ops[j]) <= known + AllDefs(ops[..k])
  {
    assert ops == ops[..j] + ops[j..] && ops[..k] == ops[..j] + ops[j..k];
    SsaBoth(ops[..j], ops[j..], known);
    SsaBoth(ops[..j], ops[j..k], known);
  }

  /** Any chain of rewrites, in whatever order they are found, keeps the meaning, and is
    * no longer than the number of reads and writes. */
  lemma {:induction false} RewritesKeepMeaning(chain: seq<seq<Op>>, known: set<Value>)
    requires chain != [] && Ssa(chain[0], known)
    requires forall i :: 0 <= i < |chain| - 1 ==> Rewrites(chain[i], chain[i + 1])
    ensures SameMeaning(chain[0], chain[|chain| - 1])
    ensures |chain| - 1 <= Weight(chain[0])
  {
    if |chain| > 1 {
      RewriteOnce(chain[0], chain[1], known);
      forall i | 0 <= i < |chain| - 2 ensures Rewrites(chain[1..][i], chain[1..][i + 1]) {
        assert Rewrites(chain[i + 1], chain[i + 2]);
      }
      RewritesKeepMeaning(chain[1..], known);
    }
  }

  // -------------------------------------------------------------- the driver

  /** Scan backwards for a write through the reference of read `k`: its place, or -1. */
  method LastWrite(ops: seq<Op>, k: nat) returns (j: int)
    requires k < |ops| && ops[k].Read?
    ensures if j >= 0 then CanForward(ops, j, k) else forall i :: !CanForward(ops, i, k)
  {
    j := k - 1;
    while j >= 0 && EffectFree(ops[j])
      invariant -1 <= j < k && FreeBetween(ops, j, k)
    {
      j := j - 1;
    }
    if !(j >= 0 && ops[j].Write? && ops[j].ref == ops[k].ref) { j := -1; }
  }

  /** Scan forwards for a write through the same reference. */
  method IsOverwritten(ops: seq<Op>, i: nat) returns (ok: bool)
    requires i < |ops| && ops[i].Write?
    ensures ok <==> exists k :: Overwritten(ops, i, k)
  {
    var next := i + 1;
    while next < |ops| && IsPure(ops[next])
      invariant i < next <= |ops| && forall k :: i < k < next ==> IsPure(ops[k])
    {
      next := next + 1;
    }
    ok := next < |ops| && ops[next].Write? && ops[next].ref == ops[i].ref;
    assert ok ==> Overwritten(ops, i, next);
  }

  /** Scan backwards for the read whose value is written back. */
  method IsReadBack(ops: seq<Op>, i: nat) returns (ok: bool)
    requires i < |ops| && ops[i].Write?
    ensures ok <==> exists j :: ReadBack(ops, j, i)
  {
    var j := i - 1;
    while j >= 0 && EffectFree(ops[j])
      invariant -1 <= j < i && FreeBetween(ops, j, i)
    {
      j := j - 1;
    }
    ok := j >= 0 && ops[j].Read? && ops[j].res == ops[i].val && ops[j].ref == ops[i].ref;
    assert ok ==> ReadBack(ops, j, i);
  }

  class Block {
    var ops: seq<Op>

    constructor (ops: seq<Op>)
      ensures this.ops == ops
    {
      this.ops := ops;
    }

    /** Forward the last write in this block, without crossing a possible effect. */
    method ForwardObjectWrite(k: nat) returns (ok: bool)
      requires k < |ops| && ops[k].Read?
      modifies this
      ensures ok <==> exists j :: CanForward(old(ops), j, k)
      ensures if ok then exists j :: CanForward(old(ops), j, k) && ops == Forwarded(old(ops), j, k) else ops == old(ops)
    {
      var j := LastWrite(ops, k);
      ok := j >= 0;
      if ok { ops := Forwarded(ops, j, k); }
    }

    /** Remove a write that is overwritten, or that restores what was read, without
      * intervening effects. */
    method SimplifyObjectWrite(i: nat) returns (ok: bool)
      requires i < |ops| && ops[i].Write?
      modifies this
      ensures ok <==> (exists k :: Overwritten(old(ops), i, k)) || (exists j :: ReadBack(old(ops), j, i))
      ensures ops == if ok then Without(old(ops), i) else old(ops)
    {
      ok := IsOverwritten(ops, i);
      if !ok { ok := IsReadBack(ops, i); }
      if ok { ops := Without(ops, i); }
    }

    /** Apply the rewrites until none applies. */
    method Canonicalize(ghost known: set<Value>)
      requires Ssa(ops, known)
      modifies this
      ensures SameMeaning(old(ops), ops) && Ssa(ops, known)
      ensures forall ops' :: !Rewrites(ops, ops')
    {
      var changed := true;
      while changed
        invariant SameMeaning(old(ops), ops) && Ssa(ops, known)
        invariant !changed ==> forall k :: 0 <= k < |ops| ==> Settled(ops, k)
        decreases Weight(ops), changed
      {
        changed := Sweep(known);
      }
      forall ops' ensures !Rewrites(ops, ops') {
        forall j, k | Apart(ops, j, k) || PureBetween(ops, j, k)
          ensures !CanForward(ops, j, k) && !Overwritten(ops, j, k) && !ReadBack(ops, j, k)
        {
          assert Settled(ops, j) && Settled(ops, k);
        }
      }
    }

    /** Try the rewrites at each operation in turn, until one applies. */
    method Sweep(ghost known: set<Value>) returns (changed: bool)
      requires Ssa(ops, known)
      modifies this
      ensures if changed then Achieves(old(ops), ops, known) else ops == old(ops)
      ensures !changed ==> forall k :: 0 <= k < |ops| ==> Settled(ops, k)
    {
      for k := 0 to |ops|
        invariant ops == old(ops) && forall i :: 0 <= i < k ==> Settled(ops, i)
      {
        ghost var was := ops;
        if ops[k].Read? {
          changed := ForwardObjectWrite(k);
          if changed {
            ghost var j :| CanForward(was, j, k) && ops == Forwarded(was, j, k);
            ForwardAchieves(was, j, k, known);
            return;
          }
        } else if ops[k].Write? {
          changed := SimplifyObjectWrite(k);
          if changed {
            if j :| ReadBack(was, j, k) {
              ReadBackSame(was, j, k, known);
            } else {
              ghost var i :| Overwritten(was, k, i);
              OverwrittenSame(was, k, i, known);
            }
            DropAchieves(was, k, known);
            return;
          }
        }
      }
      changed := false;
    }
  }

  /** No rewrite is found at operation `k`. */
  ghost predicate Settled(ops: seq<Op>, k: int)
    requires 0 <= k < |ops|
  {
    && (ops[k].Read? ==> forall j :: !CanForward(ops, j, k))
    && (ops[k].Write? ==> (forall i :: !Overwritten(ops, k, i)) && forall j :: !ReadBack(ops, j, k))
  }
}
