/** The closure conversion pass: it lifts nested subprograms innermost first,
  * in place, and refuses one call shape.
  */
module ClosureConversion {
  import opened Options
  import opened Ir
  import opened Lifting

  // ------------------------------------------------------- collection of work

  /** The subprograms of a scope: a subprogram, what it declares, and the next ones. */
  datatype Nest = NoSubp | Nest(sym: Sym, inner: Nest, next: Nest)

  function Syms(n: Nest): set<Sym> {
    if n.NoSubp? then {} else {n.sym} + Syms(n.inner) + Syms(n.next)
  }

  function PostOrder(n: Nest): seq<Sym> {
    if n.NoSubp? then [] else PostOrder(n.inner) + [n.sym] + PostOrder(n.next)
  }

  /** The walk of a module, keeping the subprograms declared inside another one. */
  function CollectNested(n: Nest): seq<Sym> {
    if n.NoSubp? then [] else PostOrder(n.inner) + CollectNested(n.next)
  }

  ghost predicate Distinct(n: Nest) {
    n.Nest? ==>
      && n.sym !in Syms(n.inner) + Syms(n.next)
      && Syms(n.inner) !! Syms(n.next)
      && Distinct(n.inner) && Distinct(n.next)
  }

  /** The nest declares its subprograms inside `above`. */
  ghost predicate LaidOut(m: Module, n: Nest, above: seq<Sym>) {
    n.Nest? ==>
      && n.sym in m.path && m.path[n.sym] == above + [n.sym]
      && LaidOut(m, n.inner, above + [n.sym]) && LaidOut(m, n.next, above)
  }

  lemma {:induction false} PathsStayInside(m: Module, n: Nest, above: seq<Sym>, f: Sym, g: Sym)
    requires LaidOut(m, n, above) && f in Syms(n) && f in m.path && g in m.path[f]
    ensures g in above || g in Syms(n)
    ensures |m.path[f]| > |above|
  {
    if f == n.sym {
    } else if f in Syms(n.inner) {
      PathsStayInside(m, n.inner, above + [n.sym], f, g);
    } else {
      PathsStayInside(m, n.next, above, f, g);
    }
  }

  lemma {:induction false} PathsOf(m: Module, n: Nest, above: seq<Sym>, f: Sym)
    requires LaidOut(m, n, above) && f in Syms(n)
    ensures f in m.path && |m.path[f]| > |above| && f in m.path[f]
  {
    if f == n.sym {
    } else if f in Syms(n.inner) {
      PathsOf(m, n.inner, above + [n.sym], f);
    } else {
      PathsOf(m, n.next, above, f);
    }
  }

  /** No subprogram occurs before one it encloses, and none occurs twice. */
  ghost predicate InnermostFirst(m: Module, order: seq<Sym>) {
    && (forall f :: f in order ==> f in m.path)
    && forall i, j :: 0 <= i < j < |order| ==> order[i] !in m.path[order[j]]
  }

  lemma {:induction false} PostOrderMembers(n: Nest)
    ensures forall f :: f in PostOrder(n) <==> f in Syms(n)
  {
    if n.Nest? {
      PostOrderMembers(n.inner);
      PostOrderMembers(n.next);
    }
  }

  lemma {:induction false} PostOrderInnermostFirst(m: Module, n: Nest, above: seq<Sym>)
    requires LaidOut(m, n, above) && Distinct(n)
    requires forall f :: f in above ==> f !in Syms(n)
    ensures InnermostFirst(m, PostOrder(n))
  {
    PostOrderMembers(n);
    forall f | f in PostOrder(n) ensures f in m.path { PathsOf(m, n, above, f); }
    if n.Nest? {
      var a, b := PostOrder(n.inner), PostOrder(n.next);
      PostOrderMembers(n.inner);
      PostOrderMembers(n.next);
      PostOrderInnermostFirst(m, n.inner, above + [n.sym]);
      PostOrderInnermostFirst(m, n.next, above);
      JoinInnermostFirst(m, n, above);
    }
  }

  lemma JoinInnermostFirst(m: Module, n: Nest, above: seq<Sym>)
    requires n.Nest? && LaidOut(m, n, above) && Distinct(n)
    requires forall f :: f in above ==> f !in Syms(n)
    requires InnermostFirst(m, PostOrder(n.inner)) && InnermostFirst(m, PostOrder(n.next))
    requires forall f :: f in PostOrder(n) ==> f in m.path
    ensures forall i, j :: 0 <= i < j < |PostOrder(n)| ==> PostOrder(n)[i] !in m.path[PostOrder(n)[j]]
  {
    var a, b := PostOrder(n.inner), PostOrder(n.next);
    var all := PostOrder(n);
    PostOrderMembers(n.inner);
    PostOrderMembers(n.next);
    forall i, j | 0 <= i < j < |all| ensures all[i] !in m.path[all[j]] {
      var f, g := all[i], all[j];
      if j < |a| {
        assert f == a[i] && g == a[j];
      } else if j == |a| {
        assert f in a && m.path[g] == above + [g];
      } else {
        assert g == b[j - |a| - 1] && g in Syms(n.next);
        if i > |a| {
          assert f == b[i - |a| - 1];
        } else {
          assert f in a || f == n.sym;
          if f in m.path[g] { PathsStayInside(m, n.next, above, g, f); }
        }
      }
    }
  }

  /** `nested` lists the subprograms that are not at library level, each once
    * and every one before those around it. */
  ghost predicate WorkList(m: Module, nested: seq<Sym>) {
    && InnermostFirst(m, nested)
    && forall f :: f in m.path ==> (f in nested <==> !LibraryLevel(m, f))
  }

  /** The post-order walk collects a work list. */
  lemma {:induction false} CollectedInnermostFirst(m: Module, n: Nest)
    requires LaidOut(m, n, []) && Distinct(n)
    ensures InnermostFirst(m, CollectNested(n))
    ensures forall f :: f in CollectNested(n) ==> f in Syms(n) && |m.path[f]| > 1
    ensures forall f :: f in Syms(n) && !LibraryLevel(m, f) ==> f in CollectNested(n)
  {
    if n.Nest? {
      CollectedInnermostFirst(m, n.next);
      assert [] + [n.sym] == [n.sym];
      PostOrderInnermostFirst(m, n.inner, [n.sym]);
      PostOrderMembers(n.inner);
      var a, b := PostOrder(n.inner), CollectNested(n.next);
      forall f | f in a ensures |m.path[f]| > 1 { PathsOf(m, n.inner, [n.sym], f); }
      forall i, j | 0 <= i < j < |a + b| ensures (a + b)[i] !in m.path[(a + b)[j]] {
        if i < |a| <= j {
          assert (a + b)[i] in a && (a + b)[j] in b;
          if (a + b)[i] in m.path[(a + b)[j]] { PathsStayInside(m, n.next, [], (a + b)[j], (a + b)[i]); }
        } else if j < |a| {
          assert (a + b)[i] == a[i] && (a + b)[j] == a[j];
        } else {
          assert (a + b)[i] == b[i - |a|] && (a + b)[j] == b[j - |a|];
        }
      }
    }
  }

  // ------------------------------------------------------------ what is needed

  /** `f` needs the up-level value `v`, within `n` calls: it uses it, or calls
    * a subprogram that needs it. */
  ghost predicate NeedsWithin(m: Module, f: Sym, v: Value, n: nat)
    decreases n
  {
    && f in m.subps && v in m.home && m.home[v] != f
    && (UsedIn(m.subps[f].blocks, v)
        || (n > 0 && exists g :: CalledIn(m.subps[f].blocks, g) && NeedsWithin(m, g, v, n - 1)))
  }

  ghost predicate Needs(m: Module, f: Sym, v: Value) {
    exists n: nat :: NeedsWithin(m, f, v, n)
  }

  /** The refused shape: a call from a subprogram to one lifted after it (one
    * around it, or mutually recursive with it) that needs a value from above. */
  ghost predicate Refused(m: Module, nested: seq<Sym>) {
    exists i, j, v :: 0 <= i < j < |nested| && nested[i] in m.subps
                      && CalledIn(m.subps[nested[i]].blocks, nested[j]) && Needs(m, nested[j], v)
  }

  // -------------------------------------------------------- declaration order

  ghost predicate Before(order: seq<Sym>, f: Sym, g: Sym) {
    forall i, j :: 0 <= i < |order| && 0 <= j < |order| && order[i] == f && order[j] == g ==> i < j
  }

  /** `g` is declared before `f`, or before something around `f`, or inside what is so declared. */
  ghost predicate DeclaredBefore(n: Nest, g: Sym, f: Sym) {
    && n.Nest?
    && (|| (g in {n.sym} + Syms(n.inner) && f in Syms(n.next))
        || DeclaredBefore(n.inner, g, f)
        || DeclaredBefore(n.next, g, f))
  }

  lemma {:induction false} PostOrderDeclared(n: Nest, pre: seq<Sym>, post: seq<Sym>, f: Sym, g: Sym)
    requires Distinct(n) && DeclaredBefore(n, f, g)
    requires forall h :: h in pre || h in post ==> h !in Syms(n)
    ensures Before(pre + PostOrder(n) + post, f, g)
  {
    var a, b := PostOrder(n.inner), PostOrder(n.next);
    var all := pre + PostOrder(n) + post;
    PostOrderMembers(n.inner);
    PostOrderMembers(n.next);
    if f in {n.sym} + Syms(n.inner) && g in Syms(n.next) {
      OrderSplits(pre + (a + [n.sym]), b + post, f, g);
      assert all == (pre + (a + [n.sym])) + (b + post);
    } else if DeclaredBefore(n.inner, f, g) {
      PostOrderDeclared(n.inner, pre, [n.sym] + b + post, f, g);
      assert all == pre + a + ([n.sym] + b + post);
    } else {
      PostOrderDeclared(n.next, pre + a + [n.sym], post, f, g);
      assert all == (pre + a + [n.sym]) + b + post;
    }
  }

  /** What only occurs in the first part is before what only occurs in the second. */
  lemma OrderSplits(a: seq<Sym>, b: seq<Sym>, f: Sym, g: Sym)
    requires f !in b && g !in a
    ensures Before(a + b, f, g)
  {
  }

  /** The walk goes in declaration order: at every level, a subprogram and everything in
    * it comes before what is declared after it. */
  lemma {:induction false} CollectedInDeclarationOrder(n: Nest, pre: seq<Sym>, f: Sym, g: Sym)
    requires Distinct(n) && DeclaredBefore(n, f, g) && forall h :: h in pre ==> h !in Syms(n)
    ensures Before(pre + CollectNested(n), f, g)
  {
    var a, b := PostOrder(n.inner), CollectNested(n.next);
    PostOrderMembers(n.inner);
    CollectedMembers(n.next);
    assert pre + CollectNested(n) == (pre + a) + b == pre + a + b;
    if f in {n.sym} + Syms(n.inner) && g in Syms(n.next) {
      OrderSplits(pre + a, b, f, g);
    } else if DeclaredBefore(n.inner, f, g) {
      PostOrderDeclared(n.inner, pre, b, f, g);
    } else {
      CollectedInDeclarationOrder(n.next, pre + a, f, g);
    }
  }

  lemma {:induction false} CollectedMembers(n: Nest)
    ensures forall f :: f in CollectNested(n) ==> f in Syms(n)
  {
    if n.Nest? {
      PostOrderMembers(n.inner);
      CollectedMembers(n.next);
    }
  }

  /** Calls as Ada's declaration order has them, but for calls to something around the
    * caller: to itself, to what is inside it, or to what is declared before it or before
    * something around it; and calls to library level. */
  ghost predicate CallsBackwards(m: Module, n: Nest) {
    forall f, g :: f in CollectNested(n) && f in m.subps && CalledIn(m.subps[f].blocks, g) ==>
      || g == f || (g in m.path && f in m.path[g]) || DeclaredBefore(n, g, f) || g !in CollectNested(n)
  }

  lemma LaterNotDeclaredBefore(n: Nest, i: int, j: int)
    requires Distinct(n) && 0 <= i < j < |CollectNested(n)|
    ensures !DeclaredBefore(n, CollectNested(n)[j], CollectNested(n)[i])
  {
    var order := CollectNested(n);
    assert [] + order == order;
    if DeclaredBefore(n, order[j], order[i]) { CollectedInDeclarationOrder(n, [], order[j], order[i]); }
  }

  /** Such a module is never refused. */
  lemma BackwardsNotRefused(m: Module, n: Nest)
    requires LaidOut(m, n, []) && Distinct(n) && CallsBackwards(m, n)
    ensures !Refused(m, CollectNested(n))
  {
    var order := CollectNested(n);
    CollectedInnermostFirst(m, n);
    forall i, j | 0 <= i < j < |order| && order[i] in m.subps
      ensures !CalledIn(m.subps[order[i]].blocks, order[j])
    {
      PathsOf(m, n, [], order[j]);
      LaterNotDeclaredBefore(n, i, j);
      assert order[i] !in m.path[order[j]];
    }
  }

  // ----------------------------------------------------- captures of a region

  function BlocksUses(blocks: seq<Block>): (r: seq<Value>)
    ensures forall v :: v in r <==> UsedIn(blocks, v)
  {
    if blocks == [] then [] else
    var rest := BlocksUses(blocks[1..]);
    assert forall b :: 0 <= b < |blocks| - 1 ==> blocks[1..][b] == blocks[b + 1];
    assert forall b :: 0 < b < |blocks| ==> blocks[b] == blocks[1..][b - 1];
    Uses(blocks[0].code) + rest
  }

  /** The operands inside the region of `p`: its own, and those of whatever is
    * still nested in it. */
  function RegionUses(m: Module, walk: seq<Sym>, p: Sym): (r: seq<Value>)
    ensures forall v :: v in r <==>
      exists f :: f in walk && f in m.path && f in m.subps && p in m.path[f] && UsedIn(m.subps[f].blocks, v)
  {
    if walk == [] then [] else
    var f := walk[0];
    (if f in m.path && f in m.subps && p in m.path[f] then BlocksUses(m.subps[f].blocks) else [])
      + RegionUses(m, walk[1..], p)
  }

  predicate FromAbove(m: Module, p: Sym, v: Value) {
    v in m.home && m.home[v] in m.path && p !in m.path[m.home[v]]
  }

  /** The values used in the region of `p` but defined above it, in order of first use. */
  function UsedFromAbove(m: Module, p: Sym, uses: seq<Value>): (r: seq<Value>)
    ensures NoDup(r)
    ensures forall v :: v in r <==> v in uses && FromAbove(m, p, v)
  {
    if uses == [] then [] else
    var last := uses[|uses| - 1];
    var r := UsedFromAbove(m, p, uses[..|uses| - 1]);
    assert uses == uses[..|uses| - 1] + [last];
    if FromAbove(m, p, last) && last !in r then r + [last] else r
  }

  // -------------------------------------------------------------- code lemmas

  lemma {:induction false} RenNothing(code: Code)
    ensures RenCode([], [], code) == code
  {
    match code
    case Do(op, rest) =>
      RenNothing(rest);
      RenAllNothing(OpUses(op));
      if op.AdaCall? {
        RenAllNothing(op.inputs);
        RenAllNothing(op.initials);
        RenAllNothing(op.ranges);
      }
    case Br(_, args) => RenAllNothing(args);
    case CondBr(_, _, targs, _, eargs) =>
      RenAllNothing(targs);
      RenAllNothing(eargs);
    case Return(values) => RenAllNothing(values);
  }

  lemma RenAllNothing(vs: seq<Value>)
    ensures RenAll([], [], vs) == vs
  {
  }

  lemma RenSelf(from: seq<Value>, to: seq<Value>)
    requires |from| == |to| && NoDup(from)
    ensures RenAll(from, to, from) == to
  {
  }

  lemma {:induction false} PassTwice(caps: Captures, p: Sym, extra: seq<Value>, code: Code)
    requires CapturesOf(caps, p) == []
    ensures PassCode(map[p := extra], PassCode(caps, code)) == PassCode(caps[p := extra], code)
  {
    if code.Do? {
      PassTwice(caps, p, extra, code.rest);
      if code.op.AdaCall? {
        var ins := code.op.inputs;
        assert ins + [] == ins;
        assert (ins + CapturesOf(caps, code.op.callee)) + [] == ins + CapturesOf(caps, code.op.callee);
      }
    }
  }

  lemma {:induction false} PassLifted(caps: Captures, p: Sym, own: seq<Value>, lifted: seq<Value>, code: Code)
    requires CapturesOf(caps, p) == [] && |own| == |lifted| && NoDup(own)
    ensures PassCode(map[p := lifted], RenCode(own, lifted, PassCode(caps, code)))
         == RenCode(own, lifted, PassCode(caps[p := own], code))
  {
    if code.Do? {
      PassLifted(caps, p, own, lifted, code.rest);
      if code.op.AdaCall? {
        var ins, more := code.op.inputs, CapturesOf(caps, code.op.callee);
        RenSelf(own, lifted);
        assert RenAll(own, lifted, ins + more) + [] == RenAll(own, lifted, ins + more);
        if code.op.callee == p {
          assert RenAll(own, lifted, ins + more) + lifted == RenAll(own, lifted, ins + own);
        }
      }
    }
  }

  lemma {:induction false} PassUnchanged(caps: Captures, p: Sym, extra: seq<Value>, code: Code)
    requires CapturesOf(caps, p) == [] && (!Calls(code, p) || extra == [])
    ensures PassCode(caps[p := extra], code) == PassCode(caps, code)
  {
    if code.Do? {
      PassUnchanged(caps, p, extra, code.rest);
    }
  }

  lemma {:induction false} SameCalls(caps: Captures, own: seq<Value>, lifted: seq<Value>, code: Code, g: Sym)
    requires |own| == |lifted|
    ensures Calls(RenCode(own, lifted, PassCode(caps, code)), g) <==> Calls(code, g)
  {
    if code.Do? {
      SameCalls(caps, own, lifted, code.rest, g);
    }
  }

  /** What a passed call uses: an original operand, or a capture of a callee. */
  lemma {:induction false} PassedUses(caps: Captures, code: Code, v: Value)
    ensures v in Uses(code) ==> v in Uses(PassCode(caps, code))
    ensures v in Uses(PassCode(caps, code)) ==>
      v in Uses(code) || exists g :: Calls(code, g) && v in CapturesOf(caps, g)
    ensures forall g :: code.Do? && Calls(code.rest, g) ==> Calls(code, g)
  {
    if code.Do? {
      PassedUses(caps, code.rest, v);
    }
  }

  // ------------------------------------------------- the state of the pass

  /** Where the pass is with `f`, in terms of the module `m0` it started from:
    * `f` takes its captures as parameters once it has been lifted, and calls to
    * what has been lifted pass captures everywhere. */
  ghost predicate LiftState(m0: Module, m: Module, done: set<Sym>, caps: Captures, lifts: Captures, f: Sym)
    requires f in m0.subps && f in m0.path && f in m.subps && f in m.path
  {
    var own, lifted := CapturesOf(caps, f), CapturesOf(lifts, f);
    && |own| == |lifted|
    && m.subps[f] == LiftSubp(caps, own, lifted, m0.subps[f])
    && m.path[f] == (if f in done then [f] else m0.path[f])
    && (f !in done ==> own == [])
  }

  ghost predicate NameState(m0: Module, m: Module, caps: Captures, lifts: Captures, f: Sym)
    requires f in m0.path
  {
    var own, lifted := CapturesOf(caps, f), CapturesOf(lifts, f);
    && NoDup(own) && NoDup(lifted)
    && (forall i :: 0 <= i < |lifted| ==> lifted[i] !in m0.home && lifted[i] in m.home && m.home[lifted[i]] == f)
    && (forall v :: v in own ==> v in m0.home && m0.home[v] in m0.path[f] && m0.home[v] != f && Needs(m0, f, v))
  }

  /** What `f` uses once its calls pass captures: nothing from above if it has
    * been lifted, and otherwise only what is visible where it is declared. */
  ghost predicate ScopeState(m0: Module, done: set<Sym>, caps: Captures, f: Sym)
    requires f in m0.subps && f in m0.path
  {
    && (f in done ==> Closed(m0, caps, f))
    && forall v :: UsedIn(PassBlocks(caps, m0.subps[f].blocks), v) ==> v in m0.home && m0.home[v] in m0.path[f]
  }

  /** What has not been lifted is still where it was declared, inside nothing that has been. */
  ghost predicate AncestorState(m: Module, done: set<Sym>, f: Sym)
    requires f in m.path
  {
    f !in done ==> forall g :: g in m.path[f] ==> g !in done
  }

  /** Values keep their homes, and new ones get new numbers. */
  ghost predicate HomeState(m0: Module, m: Module, next: nat) {
    && (forall v {:trigger v in m0.home} {:trigger m.home[v]} :: v in m0.home ==>
          v in m.home && m.home[v] == m0.home[v])
    && (forall v :: v in m.home ==> v < next)
  }

  ghost predicate Progress(m0: Module, m: Module, done: set<Sym>, caps: Captures, lifts: Captures, next: nat) {
    && m.subps.Keys == m.path.Keys == m0.subps.Keys == m0.path.Keys
    && HomeState(m0, m, next)
    && (forall f {:trigger LiftState(m0, m, done, caps, lifts, f)} ::
          f in m0.subps ==> LiftState(m0, m, done, caps, lifts, f))
    && (forall f {:trigger NameState(m0, m, caps, lifts, f)} :: f in m0.subps ==> NameState(m0, m, caps, lifts, f))
    && (forall f {:trigger ScopeState(m0, done, caps, f)} :: f in m0.subps ==> ScopeState(m0, done, caps, f))
    && (forall f {:trigger AncestorState(m, done, f)} :: f in m0.subps ==> AncestorState(m, done, f))
  }

  lemma ProgressStarts(m: Module, next: nat)
    requires WellFormed(m) && forall v :: v in m.home ==> v < next
    ensures Progress(m, m, {}, map[], map[], next)
  {
    forall f | f in m.subps
      ensures LiftState(m, m, {}, map[], map[], f) && ScopeState(m, {}, map[], f)
    {
      assert SubpOk(m, f);
      NothingPassed(m.subps[f].blocks);
      assert m.subps[f].params + [] == m.subps[f].params;
    }
  }

  lemma NothingPassed(blocks: seq<Block>)
    ensures PassBlocks(map[], blocks) == blocks && RenBlocks([], [], blocks) == blocks
  {
    forall b | 0 <= b < |blocks|
      ensures PassCode(map[], blocks[b].code) == blocks[b].code && RenCode([], [], blocks[b].code) == blocks[b].code
    {
      PassNothing(blocks[b].code);
      RenNothing(blocks[b].code);
    }
  }

  lemma {:induction false} PassNothing(code: Code)
    ensures PassCode(map[], code) == code
  {
    if code.Do? {
      PassNothing(code.rest);
      if code.op.AdaCall? { assert code.op.inputs + [] == code.op.inputs; }
    }
  }

  // ------------------------------------------------------ one iteration

  /** The next subprogram of a work list has nothing left nested in it. */
  lemma RegionIsSelf(m0: Module, m: Module, nested: seq<Sym>, k: nat, caps: Captures, lifts: Captures, next: nat,
                     f: Sym)
    requires WellFormed(m0) && WorkList(m0, nested) && k < |nested|
    requires Progress(m0, m, Done(nested, k), caps, lifts, next)
    requires f in m.path
    ensures nested[k] in m.path[f] <==> f == nested[k]
  {
    assert LiftState(m0, m, Done(nested, k), caps, lifts, f) && ValidPath(m0, f);
    var p := nested[k];
    assert m0.path[f][|m0.path[f]| - 1] == f;
    if p in m0.path[f] && f != p {
      assert !LibraryLevel(m0, f);
      var j :| 0 <= j < |nested| && nested[j] == f;
      assert j < k;
    }
    NotYetDone(m0, nested, k);
  }

  function Done(nested: seq<Sym>, k: nat): set<Sym>
    requires k <= |nested|
  {
    set i | 0 <= i < k :: nested[i]
  }

  lemma NotYetDone(m0: Module, nested: seq<Sym>, k: nat)
    requires WellFormed(m0) && WorkList(m0, nested) && k < |nested|
    ensures nested[k] !in Done(nested, k)
    ensures Done(nested, k + 1) == Done(nested, k) + {nested[k]}
  {
    assert ValidPath(m0, nested[k]);
    assert nested[k] in m0.path[nested[k]] by {
      assert m0.path[nested[k]][|m0.path[nested[k]]| - 1] == nested[k];
    }
  }

  lemma {:induction false} CallVisible(m: Module, f: Sym, code: Code, g: Sym)
    requires CallsOk(m, f, code) && Calls(code, g)
    ensures f in m.path && g in m.path && |m.path[g]| > 0 && Visible(m, f, g)
  {
    if !(IsCall(code.op) && code.op.callee == g) { CallVisible(m, f, code.rest, g); }
  }

  lemma {:induction false} PassMoreUses(caps: Captures, p: Sym, extra: seq<Value>, code: Code, v: Value)
    requires CapturesOf(caps, p) == []
    ensures v in Uses(PassCode(caps[p := extra], code)) ==>
      v in Uses(PassCode(caps, code)) || (Calls(code, p) && v in extra)
  {
    if code.Do? { PassMoreUses(caps, p, extra, code.rest, v); }
  }

  lemma {:induction false} PassAbsent(p: Sym, extra: seq<Value>, code: Code)
    requires !Calls(code, p) || extra == []
    ensures PassCode(map[p := extra], code) == code
  {
    if code.Do? {
      PassAbsent(p, extra, code.rest);
      if code.op.AdaCall? { assert code.op.inputs + [] == code.op.inputs; }
    }
  }

  /** The captures found for the next subprogram: exactly what it uses from
    * above once its calls pass captures, and it needs each of them. */
  lemma CapturesFound(m0: Module, m: Module, nested: seq<Sym>, k: nat, caps: Captures, lifts: Captures, next: nat,
                      walk: seq<Sym>, found: seq<Value>)
    requires WellFormed(m0) && WorkList(m0, nested) && k < |nested|
    requires Progress(m0, m, Done(nested, k), caps, lifts, next)
    requires forall f :: f in walk <==> f in m.subps
    requires found == UsedFromAbove(m, nested[k], RegionUses(m, walk, nested[k]))
    ensures CapturesOf(caps, nested[k]) == []
    ensures var p := nested[k]; m.subps[p].blocks == PassBlocks(caps, m0.subps[p].blocks)
    ensures var p := nested[k]; forall v :: v in found <==>
      UsedIn(PassBlocks(caps, m0.subps[p].blocks), v) && v in m0.home && m0.home[v] != p
    ensures forall v :: v in found ==> m0.home[v] in m0.path[nested[k]]
  {
    var p := nested[k];
    NotYetDone(m0, nested, k);
    assert LiftState(m0, m, Done(nested, k), caps, lifts, p) && ScopeState(m0, Done(nested, k), caps, p);
    var passed := PassBlocks(caps, m0.subps[p].blocks);
    assert RenBlocks([], [], passed) == passed by {
      forall b | 0 <= b < |passed| { RenNothing(passed[b].code); }
    }
    forall f | f in m.path ensures p in m.path[f] <==> f == p {
      RegionIsSelf(m0, m, nested, k, caps, lifts, next, f);
    }
    forall v ensures v in RegionUses(m, walk, p) <==> UsedIn(passed, v) {}
    forall v | UsedIn(passed, v) ensures FromAbove(m, p, v) <==> m0.home[v] != p {
      assert m.home[v] == m0.home[v];
      assert ValidPath(m0, p);
    }
  }

  lemma FoundNeeded(m0: Module, m: Module, caps: Captures, lifts: Captures, p: Sym, v: Value)
    requires WellFormed(m0) && p in m0.subps && v in m0.home && m0.home[v] != p
    requires UsedIn(PassBlocks(caps, m0.subps[p].blocks), v)
    requires forall g {:trigger NameState(m0, m, caps, lifts, g)} :: g in m0.subps ==> NameState(m0, m, caps, lifts, g)
    ensures Needs(m0, p, v)
  {
    var blocks := m0.subps[p].blocks;
    var b :| 0 <= b < |blocks| && v in Uses(PassBlocks(caps, blocks)[b].code);
    PassedUses(caps, blocks[b].code, v);
    if v in Uses(blocks[b].code) {
      assert UsedIn(blocks, v);
      assert NeedsWithin(m0, p, v, 0);
    } else {
      var g :| Calls(blocks[b].code, g) && v in CapturesOf(caps, g);
      assert SubpOk(m0, p);
      CallVisible(m0, p, blocks[b].code, g);
      assert NameState(m0, m, caps, lifts, g);
      var n: nat :| NeedsWithin(m0, g, v, n);
      assert CalledIn(blocks, g);
      assert NeedsWithin(m0, p, v, n + 1);
    }
  }

  /** A call to capturing `p`, outside of it, sits in an already hoisted subprogram. */
  ghost predicate Stranded(m: Module, done: set<Sym>, p: Sym, found: seq<Value>) {
    && found != []
    && exists f ::
         f in done && f in m.subps && f in m.path && p !in m.path[f] && CalledIn(m.subps[f].blocks, p)
  }

  /** What an iteration turns `f` into, from its state once the region of `p`
    * has been isolated: calls to `p` pass the captures, or the lifted
    * parameters where the call is inside `p` itself. */
  function Passed(m: Module, p: Sym, found: seq<Value>, lifted: seq<Value>, f: Sym): Subp
    requires f in m.subps && f in m.path
  {
    var extra := if p in m.path[f] then lifted else found;
    if CalledIn(m.subps[f].blocks, p) then m.subps[f].(blocks := PassBlocks(map[p := extra], m.subps[f].blocks))
    else m.subps[f]
  }

  /** Isolating the region of `p`: its new parameters replace what it used from above. */
  function Isolated(m: Module, p: Sym, found: seq<Value>, lifted: seq<Value>, f: Sym): Subp
    requires f in m.subps && f in m.path && |found| == |lifted|
  {
    var subp := m.subps[f];
    if p in m.path[f] then
      Subp(if f == p then subp.params + lifted else subp.params, subp.formals, RenBlocks(found, lifted, subp.blocks))
    else subp
  }

  function IsolatedModule(m: Module, p: Sym, found: seq<Value>, lifted: seq<Value>): Module
    requires |found| == |lifted| && m.subps.Keys == m.path.Keys
  {
    Module(map f | f in m.subps :: Isolated(m, p, found, lifted, f), m.path, m.home + map v | v in lifted :: p)
  }

  /** The region of `p` with values replaced. */
  function RenamedRegion(m: Module, p: Sym, from: seq<Value>, to: seq<Value>): Module
    requires |from| == |to| && m.subps.Keys == m.path.Keys
  {
    Module(map f | f in m.subps ::
             if p in m.path[f] then m.subps[f].(blocks := RenBlocks(from, to, m.subps[f].blocks)) else m.subps[f],
           m.path, m.home)
  }

  function AppendedParam(m: Module, p: Sym, v: Value): Module
    requires p in m.subps
  {
    Module(m.subps[p := m.subps[p].(params := m.subps[p].params + [v])], m.path, m.home[v := p])
  }

  /** `p` with the parameters `vs` appended. */
  function WithParams(m: Module, p: Sym, vs: seq<Value>): Module
    requires p in m.subps
  {
    Module(m.subps[p := m.subps[p].(params := m.subps[p].params + vs)], m.path, WithHomes(m.home, p, vs))
  }

  function WithHomes(home: map<Value, Sym>, p: Sym, vs: seq<Value>): map<Value, Sym> {
    if vs == [] then home else WithHomes(home, p, vs[..|vs| - 1])[vs[|vs| - 1] := p]
  }

  function PassedModule(m: Module, p: Sym, found: seq<Value>, lifted: seq<Value>): Module
    requires m.subps.Keys == m.path.Keys
  {
    Module(map f | f in m.subps :: Passed(m, p, found, lifted, f), m.path, m.home)
  }

  function IteratedModule(m: Module, p: Sym, found: seq<Value>, lifted: seq<Value>): Module
    requires |found| == |lifted| && m.subps.Keys == m.path.Keys
  {
    HoistedModule(PassedModule(IsolatedModule(m, p, found, lifted), p, found, lifted), p)
  }

  function HoistedModule(m: Module, p: Sym): Module {
    Module(m.subps, map f | f in m.path :: Hoisted(m.path[f], p), m.home)
  }

  /** Moving `p`, with whatever is nested in it, to module level. */
  function Hoisted(path: seq<Sym>, p: Sym): seq<Sym> {
    if p in path then path[Find(path, p)..] else path
  }

  lemma IterationLifts(m0: Module, m: Module, m': Module, done: set<Sym>, p: Sym, caps: Captures, lifts: Captures,
                       found: seq<Value>, lifted: seq<Value>, f: Sym)
    requires f in m0.subps && f in m0.path && f in m.subps && f in m.path && f in m'.subps && f in m'.path
    requires ValidPath(m0, f) && LiftState(m0, m, done, caps, lifts, f)
    requires p in m.path[f] <==> f == p
    requires p !in done && CapturesOf(caps, p) == [] && |found| == |lifted| && NoDup(found)
    requires f in done && CalledIn(m.subps[f].blocks, p) ==> found == []
    requires m'.subps[f].params == Isolated(m, p, found, lifted, f).params
    requires m'.subps[f].formals == m.subps[f].formals
    requires m'.subps[f].blocks == PassBlocks(map[p := if p in m.path[f] then lifted else found],
                                              Isolated(m, p, found, lifted, f).blocks)
    requires m'.path[f] == Hoisted(m.path[f], p)
    ensures LiftState(m0, m', done + {p}, caps[p := found], lifts[p := lifted], f)
    ensures f in done ==> PassBlocks(caps[p := found], m0.subps[f].blocks) == PassBlocks(caps, m0.subps[f].blocks)
  {
    var blocks := m0.subps[f].blocks;
    if f == p {
      BlocksOfLifted(caps, p, found, lifted, blocks);
      LastIsSelf(m0.path[f], f, m0);
      assert m0.subps[f].params + [] == m0.subps[f].params;
    } else if f in done {
      BlocksOfDone(caps, p, found, CapturesOf(caps, f), CapturesOf(lifts, f), blocks);
    } else {
      BlocksOfOthers(caps, p, found, blocks);
    }
  }

  lemma BlocksOfLifted(caps: Captures, p: Sym, found: seq<Value>, lifted: seq<Value>, blocks: seq<Block>)
    requires CapturesOf(caps, p) == [] && |found| == |lifted| && NoDup(found)
    ensures PassBlocks(map[p := lifted], RenBlocks(found, lifted, RenBlocks([], [], PassBlocks(caps, blocks))))
         == RenBlocks(found, lifted, PassBlocks(caps[p := found], blocks))
  {
    forall b | 0 <= b < |blocks|
      ensures PassCode(map[p := lifted], RenCode(found, lifted, RenCode([], [], PassCode(caps, blocks[b].code))))
           == RenCode(found, lifted, PassCode(caps[p := found], blocks[b].code))
    {
      RenNothing(PassCode(caps, blocks[b].code));
      PassLifted(caps, p, found, lifted, blocks[b].code);
    }
  }

  lemma BlocksOfOthers(caps: Captures, p: Sym, found: seq<Value>, blocks: seq<Block>)
    requires CapturesOf(caps, p) == []
    ensures PassBlocks(map[p := found], RenBlocks([], [], PassBlocks(caps, blocks)))
         == RenBlocks([], [], PassBlocks(caps[p := found], blocks))
  {
    forall b | 0 <= b < |blocks|
      ensures PassCode(map[p := found], RenCode([], [], PassCode(caps, blocks[b].code)))
           == RenCode([], [], PassCode(caps[p := found], blocks[b].code))
    {
      RenNothing(PassCode(caps, blocks[b].code));
      PassTwice(caps, p, found, blocks[b].code);
      RenNothing(PassCode(caps[p := found], blocks[b].code));
    }
  }

  lemma BlocksOfDone(caps: Captures, p: Sym, found: seq<Value>, own: seq<Value>, renamed: seq<Value>,
                     blocks: seq<Block>)
    requires CapturesOf(caps, p) == [] && |own| == |renamed|
    requires CalledIn(RenBlocks(own, renamed, PassBlocks(caps, blocks)), p) ==> found == []
    ensures PassBlocks(caps[p := found], blocks) == PassBlocks(caps, blocks)
    ensures PassBlocks(map[p := found], RenBlocks(own, renamed, PassBlocks(caps, blocks)))
         == RenBlocks(own, renamed, PassBlocks(caps, blocks))
  {
    var now := RenBlocks(own, renamed, PassBlocks(caps, blocks));
    forall b | 0 <= b < |blocks|
      ensures PassCode(map[p := found], now[b].code) == now[b].code
      ensures PassCode(caps[p := found], blocks[b].code) == PassCode(caps, blocks[b].code)
    {
      SameCalls(caps, own, renamed, blocks[b].code, p);
      assert Calls(now[b].code, p) ==> CalledIn(now, p);
      PassAbsent(p, found, now[b].code);
      PassUnchanged(caps, p, found, blocks[b].code);
    }
  }

  lemma LastIsSelf(path: seq<Sym>, f: Sym, m: Module)
    requires f in m.path && path == m.path[f] && ValidPath(m, f)
    ensures Hoisted(path, f) == [f]
  {
    var k := Find(path, f);
    assert path[k] == f && m.path[path[k]] == path[..k + 1];
  }

  lemma IterationScopes(m0: Module, m: Module, nested: seq<Sym>, k: nat, caps: Captures, lifts: Captures, next: nat,
                        found: seq<Value>, f: Sym)
    requires WellFormed(m0) && WorkList(m0, nested) && k < |nested| && f in m0.subps
    requires Progress(m0, m, Done(nested, k), caps, lifts, next)
    requires CapturesOf(caps, nested[k]) == []
    requires var p := nested[k]; forall v :: v in found <==>
      UsedIn(PassBlocks(caps, m0.subps[p].blocks), v) && v in m0.home && m0.home[v] != p
    requires forall v :: v in found ==> m0.home[v] in m0.path[nested[k]]
    requires f in Done(nested, k) ==>
      PassBlocks(caps[nested[k] := found], m0.subps[f].blocks) == PassBlocks(caps, m0.subps[f].blocks)
    ensures ScopeState(m0, Done(nested, k + 1), caps[nested[k] := found], f)
  {
    var p, blocks, caps' := nested[k], m0.subps[f].blocks, caps[nested[k] := found];
    NotYetDone(m0, nested, k);
    assert ScopeState(m0, Done(nested, k), caps, f) && ScopeState(m0, Done(nested, k), caps, p);
    forall v | UsedIn(PassBlocks(caps', blocks), v)
      ensures v in m0.home && m0.home[v] in m0.path[f]
      ensures UsedIn(PassBlocks(caps, blocks), v) || v in found
    {
      var b :| 0 <= b < |blocks| && v in Uses(PassBlocks(caps', blocks)[b].code);
      PassMoreUses(caps, p, found, blocks[b].code, v);
      if v in Uses(PassCode(caps, blocks[b].code)) {
        assert v in Uses(PassBlocks(caps, blocks)[b].code);
      } else {
        assert SubpOk(m0, f);
        CallVisible(m0, f, blocks[b].code, p);
        FoundVisible(m0, f, p, v);
      }
    }
  }

  lemma FoundVisible(m: Module, f: Sym, p: Sym, v: Value)
    requires WellFormed(m) && f in m.path && p in m.path && |m.path[p]| > 0 && Visible(m, f, p)
    requires v in m.home && m.home[v] in m.path[p] && m.home[v] != p
    ensures m.home[v] in m.path[f]
  {
    assert ValidPath(m, p);
    var d :| 0 <= d < |m.path[p]| && m.path[p][d] == m.home[v];
    assert m.path[p][..|m.path[p]| - 1][d] == m.home[v];
  }

  // -------------------------------------------------- the iteration as a whole

  /** One iteration, as a relation: isolate, pass, hoist. */
  ghost predicate Iterated(m: Module, m': Module, p: Sym, found: seq<Value>, lifted: seq<Value>, next: nat)
    requires |found| == |lifted| && m.subps.Keys == m.path.Keys
  {
    && m'.subps.Keys == m'.path.Keys == m.subps.Keys
    && lifted == FreshFrom(next, |found|)
    && (forall v {:trigger m'.home[v]} {:trigger v in m'.home} :: v in m.home ==>
          v in m'.home && m'.home[v] == m.home[v])
    && (forall v :: v in m'.home && v !in m.home ==> v in lifted)
    && (forall v :: v in lifted ==> v in m'.home && m'.home[v] == p)
    && (forall f {:trigger m'.subps[f]} :: f in m.subps ==>
        var iso := Isolated(m, p, found, lifted, f);
        m'.subps[f] == iso.(blocks := PassBlocks(map[p := if p in m.path[f] then lifted else found], iso.blocks)))
    && (forall f {:trigger m'.path[f]} :: f in m.subps ==> m'.path[f] == Hoisted(m.path[f], p))
  }

  lemma IterationIs(m: Module, p: Sym, found: seq<Value>, next: nat)
    requires m.subps.Keys == m.path.Keys && forall v :: v in m.home ==> v < next
    ensures var lifted := FreshFrom(next, |found|);
            Iterated(m, IteratedModule(m, p, found, lifted), p, found, lifted, next)
  {
    var lifted := FreshFrom(next, |found|);
    forall f | f in m.subps {
      BlocksAbsentOrPassed(p, if p in m.path[f] then lifted else found, Isolated(m, p, found, lifted, f));
    }
  }

  lemma BlocksAbsentOrPassed(p: Sym, extra: seq<Value>, subp: Subp)
    ensures !CalledIn(subp.blocks, p) ==> subp.(blocks := PassBlocks(map[p := extra], subp.blocks)) == subp
  {
    if !CalledIn(subp.blocks, p) { BlocksAbsent(p, extra, subp.blocks); }
  }

  lemma IterationNames(m0: Module, m: Module, m': Module, p: Sym, caps: Captures, lifts: Captures,
                       found: seq<Value>, lifted: seq<Value>, next: nat, f: Sym)
    requires WellFormed(m0) && f in m0.subps && p in m0.subps && |found| == |lifted| && NoDup(found)
    requires m.subps.Keys == m.path.Keys && Iterated(m, m', p, found, lifted, next)
    requires forall v :: v in m.home ==> v < next
    requires forall v :: v in m0.home ==> v in m.home
    requires forall g {:trigger NameState(m0, m, caps, lifts, g)} :: g in m0.subps ==> NameState(m0, m, caps, lifts, g)
    requires forall v :: v in found ==>
      UsedIn(PassBlocks(caps, m0.subps[p].blocks), v) && v in m0.home && m0.home[v] != p && m0.home[v] in m0.path[p]
    ensures NameState(m0, m', caps[p := found], lifts[p := lifted], f)
  {
    assert NameState(m0, m, caps, lifts, f);
    if f == p {
      forall v | v in found ensures Needs(m0, p, v) { FoundNeeded(m0, m, caps, lifts, p, v); }
    }
  }

  lemma IterationKeeps(m0: Module, m: Module, m': Module, nested: seq<Sym>, k: nat, caps: Captures, lifts: Captures,
                       next: nat, found: seq<Value>, lifted: seq<Value>, f: Sym)
    requires WellFormed(m0) && WorkList(m0, nested) && k < |nested| && f in m0.subps
    requires Progress(m0, m, Done(nested, k), caps, lifts, next)
    requires FoundFor(m0, nested[k], caps, found) && |found| == |lifted|
    requires Iterated(m, m', nested[k], found, lifted, next)
    requires !Stranded(m, Done(nested, k), nested[k], found)
    ensures LiftState(m0, m', Done(nested, k + 1), caps[nested[k] := found], lifts[nested[k] := lifted], f)
    ensures NameState(m0, m', caps[nested[k] := found], lifts[nested[k] := lifted], f)
    ensures ScopeState(m0, Done(nested, k + 1), caps[nested[k] := found], f)
  {
    var p, done := nested[k], Done(nested, k);
    NotYetDone(m0, nested, k);
    assert LiftState(m0, m, done, caps, lifts, f) && ValidPath(m0, f);
    RegionIsSelf(m0, m, nested, k, caps, lifts, next, f);
    IterationLifts(m0, m, m', done, p, caps, lifts, found, lifted, f);
    IterationNames(m0, m, m', p, caps, lifts, found, lifted, next, f);
    IterationScopes(m0, m, nested, k, caps, lifts, next, found, f);
  }

  /** Every iteration that is not refused keeps the invariant. */
  lemma IterationProgress(m0: Module, m: Module, m': Module, nested: seq<Sym>, k: nat, caps: Captures, lifts: Captures,
                          next: nat, walk: seq<Sym>, found: seq<Value>, lifted: seq<Value>)
    requires WellFormed(m0) && WorkList(m0, nested) && k < |nested|
    requires Progress(m0, m, Done(nested, k), caps, lifts, next) && NoneRefused(m0, nested, k, caps)
    requires forall f :: f in walk <==> f in m.subps
    requires found == UsedFromAbove(m, nested[k], RegionUses(m, walk, nested[k])) && |found| == |lifted|
    requires Iterated(m, m', nested[k], found, lifted, next) && !Stranded(m, Done(nested, k), nested[k], found)
    ensures Progress(m0, m', Done(nested, k + 1), caps[nested[k] := found], lifts[nested[k] := lifted], next + |found|)
    ensures NoneRefused(m0, nested, k + 1, caps[nested[k] := found])
  {
    CapturesFound(m0, m, nested, k, caps, lifts, next, walk, found);
    NoneRefusedNext(m0, m, nested, k, caps, lifts, next, found);
    ProgressNext(m0, m, m', nested, k, caps, lifts, next, found, lifted);
  }

  /** The captures found for the next subprogram, as the iteration relies on them. */
  ghost predicate FoundFor(m0: Module, p: Sym, caps: Captures, found: seq<Value>)
    requires p in m0.subps && p in m0.path
  {
    && CapturesOf(caps, p) == [] && NoDup(found)
    && (forall v :: v in found <==> UsedIn(PassBlocks(caps, m0.subps[p].blocks), v) && v in m0.home && m0.home[v] != p)
    && (forall v :: v in found ==> m0.home[v] in m0.path[p])
  }

  lemma ProgressNext(m0: Module, m: Module, m': Module, nested: seq<Sym>, k: nat, caps: Captures, lifts: Captures,
                     next: nat, found: seq<Value>, lifted: seq<Value>)
    requires WellFormed(m0) && WorkList(m0, nested) && k < |nested|
    requires Progress(m0, m, Done(nested, k), caps, lifts, next)
    requires FoundFor(m0, nested[k], caps, found) && |found| == |lifted|
    requires Iterated(m, m', nested[k], found, lifted, next) && !Stranded(m, Done(nested, k), nested[k], found)
    ensures Progress(m0, m', Done(nested, k + 1), caps[nested[k] := found], lifts[nested[k] := lifted], next + |found|)
  {
    IterationHome(m0, m, m', nested[k], found, lifted, next);
    var done', caps', lifts' := Done(nested, k + 1), caps[nested[k] := found], lifts[nested[k] := lifted];
    forall f | f in m0.subps
      ensures LiftState(m0, m', done', caps', lifts', f) && NameState(m0, m', caps', lifts', f)
      ensures ScopeState(m0, done', caps', f) && AncestorState(m', done', f)
    {
      IterationKeeps(m0, m, m', nested, k, caps, lifts, next, found, lifted, f);
      if f !in done' { UnprocessedAbove(m0, nested, k + 1, f); }
    }
  }

  /** As the order is innermost first, nothing above an unprocessed subprogram has been processed. */
  lemma UnprocessedAbove(m0: Module, nested: seq<Sym>, k: nat, f: Sym)
    requires WellFormed(m0) && WorkList(m0, nested) && k <= |nested| && f in m0.subps && f !in Done(nested, k)
    ensures forall g :: g in m0.path[f] ==> g !in Done(nested, k)
  {
    assert ValidPath(m0, f);
    forall g | g in m0.path[f] && g != f ensures g !in Done(nested, k) {
      assert !LibraryLevel(m0, f);
      var j :| 0 <= j < |nested| && nested[j] == f;
      assert j >= k;
    }
  }

  lemma IterationHome(m0: Module, m: Module, m': Module, p: Sym, found: seq<Value>, lifted: seq<Value>, next: nat)
    requires HomeState(m0, m, next) && |found| == |lifted| && m.subps.Keys == m.path.Keys
    requires Iterated(m, m', p, found, lifted, next)
    ensures HomeState(m0, m', next + |found|)
  {
  }

  /** When every nested subprogram has been processed, the module is a lifting
    * of the one the pass started from. */
  lemma SuccessLifts(m0: Module, m: Module, nested: seq<Sym>, caps: Captures, lifts: Captures, next: nat)
    requires WellFormed(m0) && WorkList(m0, nested)
    requires Progress(m0, m, Done(nested, |nested|), caps, lifts, next)
    ensures LiftedFrom(m0, m, caps, lifts)
  {
    var done := Done(nested, |nested|);
    forall f | f in m0.subps
      ensures NamesOk(m0, m, caps, lifts, f) && Closed(m0, caps, f) && CodeLifted(m0, m, caps, lifts, f)
    {
      assert LiftState(m0, m, done, caps, lifts, f);
      assert NameState(m0, m, caps, lifts, f) && ScopeState(m0, done, caps, f);
      assert ValidPath(m0, f);
      if f !in done { assert f !in nested && LibraryLevel(m0, f); }
      if LibraryLevel(m0, f) { assert f !in nested; }
      if m0.subps[f].blocks == [] {
        ExternalNeedsNothing(m0, f);
        NoMembers(CapturesOf(caps, f));
      }
    }
  }

  lemma NoMembers(vs: seq<Value>)
    ensures (forall v :: v !in vs) ==> vs == []
  {
    assert vs == [] || vs[0] in vs;
  }

  lemma ExternalNeedsNothing(m: Module, f: Sym)
    requires f in m.subps && m.subps[f].blocks == []
    ensures forall v :: !Needs(m, f, v)
  {
    forall v, n: nat ensures !NeedsWithin(m, f, v, n) {}
  }

  /** On success every needed value is captured: the captures are the least
    * solution of the flow of needs along calls. */
  lemma {:induction false} NeededIsCaptured(m0: Module, m: Module, caps: Captures, lifts: Captures, f: Sym, v: Value,
                                            n: nat)
    requires WellFormed(m0) && LiftedFrom(m0, m, caps, lifts) && NeedsWithin(m0, f, v, n)
    ensures v in CapturesOf(caps, f)
    decreases n
  {
    var blocks := m0.subps[f].blocks;
    assert Closed(m0, caps, f);
    if UsedIn(blocks, v) {
      var b :| 0 <= b < |blocks| && v in Uses(blocks[b].code);
      PassedUses(caps, blocks[b].code, v);
      assert v in Uses(PassBlocks(caps, blocks)[b].code);
    } else {
      var g :| CalledIn(blocks, g) && NeedsWithin(m0, g, v, n - 1);
      NeededIsCaptured(m0, m, caps, lifts, g, v, n - 1);
      var b :| 0 <= b < |blocks| && Calls(blocks[b].code, g);
      assert SubpOk(m0, f);
      CaptureIsPassed(m0, caps, f, blocks[b].code, g, v);
      assert v in Uses(PassBlocks(caps, blocks)[b].code);
    }
  }

  /** On success a subprogram captures what it needs, and nothing else. */
  lemma CapturesAreNeeds(m0: Module, m: Module, nested: seq<Sym>, caps: Captures, lifts: Captures, next: nat)
    requires WellFormed(m0) && LiftedFrom(m0, m, caps, lifts)
    requires Progress(m0, m, Done(nested, |nested|), caps, lifts, next)
    ensures forall f, v :: f in m0.subps ==> (v in CapturesOf(caps, f) <==> Needs(m0, f, v))
  {
    forall f, v | f in m0.subps ensures v in CapturesOf(caps, f) <==> Needs(m0, f, v) {
      assert NameState(m0, m, caps, lifts, f);
      if Needs(m0, f, v) {
        var n: nat :| NeedsWithin(m0, f, v, n);
        NeededIsCaptured(m0, m, caps, lifts, f, v, n);
      }
    }
  }

  lemma {:induction false} CaptureIsPassed(m: Module, caps: Captures, f: Sym, code: Code, g: Sym, v: Value)
    requires Calls(code, g) && v in CapturesOf(caps, g) && CallsOk(m, f, code)
    ensures v in Uses(PassCode(caps, code))
  {
    if !(IsCall(code.op) && code.op.callee == g) { CaptureIsPassed(m, caps, f, code.rest, g, v); }
  }

  lemma SameCallsIn(caps: Captures, own: seq<Value>, lifted: seq<Value>, blocks: seq<Block>, g: Sym)
    requires |own| == |lifted|
    ensures CalledIn(RenBlocks(own, lifted, PassBlocks(caps, blocks)), g) <==> CalledIn(blocks, g)
  {
    forall b | 0 <= b < |blocks| { SameCalls(caps, own, lifted, blocks[b].code, g); }
    if CalledIn(blocks, g) {
      var b :| 0 <= b < |blocks| && Calls(blocks[b].code, g);
      assert Calls(RenBlocks(own, lifted, PassBlocks(caps, blocks))[b].code, g);
    }
  }

  /** No call so far leads from a lifted subprogram to one with captures lifted after it. */
  ghost predicate NoneRefused(m0: Module, nested: seq<Sym>, k: nat, caps: Captures)
    requires k <= |nested|
  {
    forall i, j :: 0 <= i < j < k && nested[i] in m0.subps && CalledIn(m0.subps[nested[i]].blocks, nested[j]) ==>
      CapturesOf(caps, nested[j]) == []
  }

  lemma SuccessNotRefused(m0: Module, m: Module, nested: seq<Sym>, caps: Captures, lifts: Captures)
    requires WellFormed(m0) && LiftedFrom(m0, m, caps, lifts) && NoneRefused(m0, nested, |nested|, caps)
    ensures !Refused(m0, nested)
  {
    forall i, j, v | 0 <= i < j < |nested| && nested[i] in m0.subps && CalledIn(m0.subps[nested[i]].blocks, nested[j])
      ensures !Needs(m0, nested[j], v)
    {
      if Needs(m0, nested[j], v) {
        var n: nat :| NeedsWithin(m0, nested[j], v, n);
        NeededIsCaptured(m0, m, caps, lifts, nested[j], v, n);
      }
    }
  }

  /** The pass only refuses the call shape it does not handle. */
  lemma RefusalFound(m0: Module, m: Module, nested: seq<Sym>, k: nat, caps: Captures, lifts: Captures, next: nat,
                     walk: seq<Sym>, found: seq<Value>)
    requires WellFormed(m0) && WorkList(m0, nested) && k < |nested|
    requires Progress(m0, m, Done(nested, k), caps, lifts, next)
    requires forall g :: g in walk <==> g in m.subps
    requires found == UsedFromAbove(m, nested[k], RegionUses(m, walk, nested[k]))
    requires Stranded(m, Done(nested, k), nested[k], found)
    ensures Refused(m0, nested)
  {
    var p, v := nested[k], found[0];
    var f :| f in Done(nested, k) && f in m.subps && CalledIn(m.subps[f].blocks, p);
    CapturesFound(m0, m, nested, k, caps, lifts, next, walk, found);
    assert v in found;
    FoundNeeded(m0, m, caps, lifts, p, v);
    assert LiftState(m0, m, Done(nested, k), caps, lifts, f);
    SameCallsIn(caps, CapturesOf(caps, f), CapturesOf(lifts, f), m0.subps[f].blocks, p);
    var i :| 0 <= i < k && nested[i] == f;
    assert CalledIn(m0.subps[nested[i]].blocks, nested[k]) && Needs(m0, nested[k], v);
  }

  lemma NoneRefusedNext(m0: Module, m: Module, nested: seq<Sym>, k: nat, caps: Captures, lifts: Captures, next: nat,
                        found: seq<Value>)
    requires WellFormed(m0) && WorkList(m0, nested) && k < |nested|
    requires Progress(m0, m, Done(nested, k), caps, lifts, next) && NoneRefused(m0, nested, k, caps)
    requires !Stranded(m, Done(nested, k), nested[k], found)
    ensures NoneRefused(m0, nested, k + 1, caps[nested[k] := found])
  {
    NotYetDone(m0, nested, k);
    forall i | 0 <= i < k && nested[i] in m0.subps && CalledIn(m0.subps[nested[i]].blocks, nested[k])
      ensures found == []
    {
      var f := nested[i];
      assert f in Done(nested, k);
      assert LiftState(m0, m, Done(nested, k), caps, lifts, f);
      SameCallsIn(caps, CapturesOf(caps, f), CapturesOf(lifts, f), m0.subps[f].blocks, nested[k]);
      RegionIsSelf(m0, m, nested, k, caps, lifts, next, f);
    }
  }

  /** The walk has passed the captures of `p` in the subprograms `seen`. */
  ghost predicate PassedUpTo(m: Module, now: Module, p: Sym, found: seq<Value>, lifted: seq<Value>, seen: set<Sym>)
    requires m.subps.Keys == m.path.Keys
  {
    && now.subps.Keys == m.subps.Keys && now.path == m.path && now.home == m.home
    && forall f :: f in m.subps ==> now.subps[f] == if f in seen then Passed(m, p, found, lifted, f) else m.subps[f]
  }

  lemma PassOne(m: Module, now: Module, p: Sym, found: seq<Value>, lifted: seq<Value>, seen: set<Sym>, done: set<Sym>,
                f: Sym)
    requires m.subps.Keys == m.path.Keys && PassedUpTo(m, now, p, found, lifted, seen)
    requires f in m.subps && f !in seen && !Stranded(m, seen * done, p, found)
    ensures now.subps[f] == m.subps[f] && now.path[f] == m.path[f]
    ensures PassedUpTo(m, now.(subps := now.subps[f := Passed(m, p, found, lifted, f)]), p, found, lifted, seen + {f})
    ensures !CalledIn(m.subps[f].blocks, p) ==> PassedUpTo(m, now, p, found, lifted, seen + {f})
    ensures !(f in done && p !in m.path[f] && CalledIn(m.subps[f].blocks, p)) ==>
      !Stranded(m, (seen + {f}) * done, p, found)
  {
  }

  lemma PassedToAll(m: Module, now: Module, p: Sym, found: seq<Value>, lifted: seq<Value>)
    requires m.subps.Keys == m.path.Keys && PassedUpTo(m, now, p, found, lifted, m.subps.Keys)
    ensures now == PassedModule(m, p, found, lifted)
  {
  }

  // ---------------------------------------------------------------- the pass

  class Pass {
    var ir: Module
    var processed: set<Sym>
    var next: nat  // no SSA value has this number or a greater one

    constructor (m: Module, next: nat)
      ensures ir == m && this.next == next && processed == {}
    {
      ir, processed, this.next := m, {}, next;
    }

    method AppendParam(p: Sym) returns (v: Value)
      requires p in ir.subps
      modifies this`ir, this`next
      ensures v == old(next) && next == old(next) + 1 && ir == AppendedParam(old(ir), p, v)
    {
      v := next;
      ir, next := AppendedParam(ir, p, v), next + 1;
    }

    /** Append a parameter per value used from above in the region of `p`, in the order of
      * first use. */
    method AppendCaptures(p: Sym, uses: seq<Value>) returns (found: seq<Value>, lifted: seq<Value>)
      requires p in ir.subps && p in ir.path && p in ir.path[p] && forall v :: v in ir.home ==> v < next
      modifies this`ir, this`next
      ensures found == UsedFromAbove(old(ir), p, uses) && InOrderOfUse(found, uses)
      ensures lifted == FreshFrom(old(next), |found|) && next == old(next) + |found|
      ensures ir == WithParams(old(ir), p, lifted)
    {
      ghost var m, first := ir, next;
      found, lifted := [], [];
      NoParams(ir, p);
      for k := 0 to |uses|
        invariant Appended(m, first, p, uses[..k], found, lifted, ir, next)
      {
        AppendMore(m, first, p, uses, k, found, lifted, ir, next);
        if FromAbove(ir, p, uses[k]) && uses[k] !in found {
          var v := AppendParam(p);
          found, lifted := found + [uses[k]], lifted + [v];
        }
      }
      assert uses[..|uses|] == uses;
    }

    /** Use the parameters instead of the captures, one after the other, in the region of `p`. */
    method ReplaceCaptures(p: Sym, found: seq<Value>, lifted: seq<Value>)
      requires |found| == |lifted| && ir.subps.Keys == ir.path.Keys && NoDup(found)
      requires forall v :: v in found ==> v !in lifted
      modifies this`ir
      ensures ir == RenamedRegion(old(ir), p, found, lifted)
    {
      ghost var m := ir;
      NothingRenamed(m, p);
      for k := 0 to |found|
        invariant ir == RenamedRegion(m, p, found[..k], lifted[..k])
      {
        RenameMore(m, p, found, lifted, k);
        ir := RenamedRegion(ir, p, [found[k]], [lifted[k]]);
      }
      assert found[..|found|] == found && lifted[..|found|] == lifted;
    }

    /** Isolate the region of `p`. Captured is each value from above once, in the order of
      * first use; no use from above is left in the region. */
    method IsolateFromAbove(p: Sym, walk: seq<Sym>) returns (found: seq<Value>, lifted: seq<Value>)
      requires p in ir.subps && ir.subps.Keys == ir.path.Keys && p in ir.path[p]
      requires forall v :: v in ir.home ==> v < next
      modifies this`ir, this`next
      ensures CapturesAbove(old(ir), p, walk, found) && IsolatedRegion(ir, p, walk)
      ensures found == UsedFromAbove(old(ir), p, RegionUses(old(ir), walk, p))
      ensures lifted == FreshFrom(old(next), |found|) && next == old(next) + |found|
      ensures ir == IsolatedModule(old(ir), p, found, lifted)
    {
      ghost var m := ir;
      found, lifted := AppendCaptures(p, RegionUses(ir, walk, p));
      CapturesInOrder(m, walk, p, found);
      ReplaceCaptures(p, found, lifted);
      RegionRenamed(m, p, found, lifted);
      NothingFromAbove(m, p, walk, found, lifted);
    }

    /** Pass the captures of `p` at every call to it, unless the call is in a
      * subprogram that has been hoisted already and cannot forward them. */
    method PassCaptures(p: Sym, found: seq<Value>, lifted: seq<Value>, walk: seq<Sym>) returns (ok: bool)
      requires ir.subps.Keys == ir.path.Keys && (forall f :: f in walk <==> f in ir.subps)
      requires found != [] && forall i, j :: 0 <= i < j < |walk| ==> walk[i] != walk[j]
      modifies this`ir
      ensures ok <==> !Stranded(old(ir), processed, p, found)
      ensures ok ==> ir == PassedModule(old(ir), p, found, lifted)
    {
      ghost var m := ir;
      ghost var seen: set<Sym> := {};
      for i := 0 to |walk|
        invariant seen <= m.subps.Keys && forall j :: 0 <= j < |walk| ==> (walk[j] in seen <==> j < i)
        invariant PassedUpTo(m, ir, p, found, lifted, seen) && !Stranded(m, seen * processed, p, found)
      {
        var f := walk[i];
        var subp := ir.subps[f];
        PassOne(m, ir, p, found, lifted, seen, processed, f);
        if CalledIn(subp.blocks, p) {
          var inside := p in ir.path[f];
          if !inside && f in processed {
            return false;
          }
          var extra := if inside then lifted else found;
          ir := ir.(subps := ir.subps[f := subp.(blocks := PassBlocks(map[p := extra], subp.blocks))]);
        }
        seen := seen + {f};
      }
      assert seen * processed == processed * m.subps.Keys && seen == m.subps.Keys;
      PassedToAll(m, ir, p, found, lifted);
      ok := true;
    }

    /** Lift and hoist one subprogram, or find a call that cannot forward its captures. */
    method Lift(p: Sym, walk: seq<Sym>) returns (ok: bool, found: seq<Value>, lifted: seq<Value>)
      requires ir.subps.Keys == ir.path.Keys && p in ir.subps && (forall f :: f in walk <==> f in ir.subps)
      requires forall i, j :: 0 <= i < j < |walk| ==> walk[i] != walk[j]
      requires p in ir.path[p] && forall v :: v in ir.home ==> v < next
      modifies this
      ensures found == UsedFromAbove(old(ir), p, RegionUses(old(ir), walk, p))
      ensures lifted == FreshFrom(old(next), |found|)
      ensures ok <==> !Stranded(old(ir), old(processed), p, found)
      ensures ok ==> ir == IteratedModule(old(ir), p, found, lifted)
      ensures ok ==> processed == old(processed) + {p} && next == old(next) + |found|
    {
      ghost var m := ir;
      found, lifted := IsolateFromAbove(p, walk);
      StrandedIsolated(m, processed, p, found, lifted);
      if found != [] {
        ok := PassCaptures(p, found, lifted, walk);
        if !ok {
          return;
        }
      } else {
        NothingToPass(ir, p, lifted);
      }
      ir := HoistedModule(ir, p);
      processed := processed + {p};
      ok := true;
    }

    /** Lift the nested subprograms one by one, innermost first. The pass fails
      * exactly on the refused call shape; otherwise the module it leaves is a
      * lifting of the one it found. */
    method Run(nested: seq<Sym>, walk: seq<Sym>) returns (ok: bool, ghost caps: Captures, ghost lifts: Captures)
      requires WellFormed(ir) && WorkList(ir, nested) && processed == {}
      requires forall v :: v in ir.home ==> v < next
      requires forall f :: f in walk <==> f in ir.subps
      requires forall i, j :: 0 <= i < j < |walk| ==> walk[i] != walk[j]
      modifies this
      ensures ok ==> LiftedFrom(old(ir), ir, caps, lifts)
      ensures ok <==> !Refused(old(ir), nested)
      ensures ok ==> forall f, v :: f in old(ir).subps ==> (v in CapturesOf(caps, f) <==> Needs(old(ir), f, v))
    {
      ghost var m0 := ir;
      caps, lifts := map[], map[];
      ProgressStarts(m0, next);
      for k := 0 to |nested|
        invariant processed == Done(nested, k)
        invariant Progress(m0, ir, Done(nested, k), caps, lifts, next)
        invariant NoneRefused(m0, nested, k, caps)
      {
        ghost var m, first := ir, next;
        var found, lifted;
        RegionIsSelf(m0, m, nested, k, caps, lifts, next, nested[k]);
        ok, found, lifted := Lift(nested[k], walk);
        if !ok {
          RefusalFound(m0, m, nested, k, caps, lifts, first, walk, found);
          return;
        }
        IterationIs(m, nested[k], found, first);
        IterationProgress(m0, m, ir, nested, k, caps, lifts, first, walk, found, lifted);
        caps, lifts := caps[nested[k] := found], lifts[nested[k] := lifted];
        NotYetDone(m0, nested, k);
      }
      ok := true;
      SuccessLifts(m0, ir, nested, caps, lifts, next);
      SuccessNotRefused(m0, ir, nested, caps, lifts);
      CapturesAreNeeds(m0, ir, nested, caps, lifts, next);
    }

    /** The whole module: collect its nested subprograms, then lift them. A module whose
      * calls go backwards is always lifted. */
    method RunOnModule(n: Nest, walk: seq<Sym>) returns (ok: bool, ghost caps: Captures, ghost lifts: Captures)
      requires WellFormed(ir) && LaidOut(ir, n, []) && Distinct(n) && Syms(n) == ir.path.Keys && processed == {}
      requires forall v :: v in ir.home ==> v < next
      requires forall f :: f in walk <==> f in ir.subps
      requires forall i, j :: 0 <= i < j < |walk| ==> walk[i] != walk[j]
      modifies this
      ensures ok ==> LiftedFrom(old(ir), ir, caps, lifts)
      ensures ok <==> !Refused(old(ir), CollectNested(n))
      ensures CallsBackwards(old(ir), n) ==> ok
    {
      ghost var m := ir;
      CollectedInnermostFirst(m, n);
      if CallsBackwards(m, n) { BackwardsNotRefused(m, n); }
      ok, caps, lifts := Run(CollectNested(n), walk);
    }
  }

  /** Captured is what the region of `p` uses from above, each value once, in the order
    * of first use. */
  ghost predicate CapturesAbove(m: Module, p: Sym, walk: seq<Sym>, found: seq<Value>) {
    && (forall v :: v in found <==> v in RegionUses(m, walk, p) && FromAbove(m, p, v))
    && NoDup(found) && InOrderOfUse(found, RegionUses(m, walk, p)) && FirstUsedInOrder(m, walk, p, found)
  }

  /** Operand `u` of block `b` of the subprogram `walk[k]`, which is in the region of `p`, is `v`. */
  ghost predicate UseAt(m: Module, walk: seq<Sym>, p: Sym, k: nat, b: nat, u: nat, v: Value) {
    && k < |walk| && walk[k] in m.path && walk[k] in m.subps && p in m.path[walk[k]]
    && BlockUseAt(m.subps[walk[k]].blocks, b, u, v)
  }

  ghost predicate BlockUseAt(blocks: seq<Block>, b: nat, u: nat, v: Value) {
    b < |blocks| && u < |Uses(blocks[b].code)| && Uses(blocks[b].code)[u] == v
  }

  /** Any use of a value comes after some use of each value captured before it, in the
    * order of subprograms, of blocks and of operands. */
  ghost predicate FirstUsedInOrder(m: Module, walk: seq<Sym>, p: Sym, found: seq<Value>) {
    forall i, j, k: nat, b: nat, u: nat {:trigger found[i], UseAt(m, walk, p, k, b, u, found[j])} ::
      0 <= i < j < |found| && UseAt(m, walk, p, k, b, u, found[j]) ==> UsedBefore(m, walk, p, k, b, u, found[i])
  }

  ghost predicate UsedBefore(m: Module, walk: seq<Sym>, p: Sym, k: nat, b: nat, u: nat, v: Value) {
    exists k': nat, b': nat, u': nat ::
      UseAt(m, walk, p, k', b', u', v) && (k' < k || (k' == k && (b' < b || (b' == b && u' < u))))
  }

  lemma {:induction false} IndexInBoth(a: seq<Value>, b: seq<Value>, v: Value)
    requires v in a + b
    ensures Index(a + b, v) == if v in a then Index(a, v) else |a| + Index(b, v)
  {
    if a == [] {
      assert a + b == b;
    } else if a[0] != v {
      assert (a + b)[1..] == a[1..] + b && (v in a <==> v in a[1..]);
      IndexInBoth(a[1..], b, v);
    }
  }

  lemma {:induction false} IndexAtMost(uses: seq<Value>, u: nat)
    requires u < |uses|
    ensures Index(uses, uses[u]) <= u
  {
    if u > 0 && uses[0] != uses[u] { IndexAtMost(uses[1..], u - 1); }
  }

  /** What is first used before `w` is used before any use of `w`: in blocks, */
  lemma {:induction false} BlocksInOrder(blocks: seq<Block>, v: Value, w: Value, b: nat, u: nat)
    returns (b': nat, u': nat)
    requires BlockUseAt(blocks, b, u, w) && v in BlocksUses(blocks) && w in BlocksUses(blocks)
    requires Index(BlocksUses(blocks), v) < Index(BlocksUses(blocks), w)
    ensures BlockUseAt(blocks, b', u', v) && (b' < b || (b' == b && u' < u))
  {
    var first, rest := Uses(blocks[0].code), BlocksUses(blocks[1..]);
    assert BlocksUses(blocks) == first + rest;
    IndexInBoth(first, rest, v);
    IndexInBoth(first, rest, w);
    if v in first {
      b', u' := 0, Index(first, v);
      if b == 0 { IndexAtMost(first, u); }
    } else {
      assert b > 0 && BlockUseAt(blocks[1..], b - 1, u, w);
      var b1, u1 := BlocksInOrder(blocks[1..], v, w, b - 1, u);
      b', u' := b1 + 1, u1;
    }
  }

  /** and in a region. */
  lemma {:induction false} RegionInOrder(m: Module, walk: seq<Sym>, p: Sym, v: Value, w: Value, k: nat, b: nat, u: nat)
    returns (k': nat, b': nat, u': nat)
    requires UseAt(m, walk, p, k, b, u, w) && v in RegionUses(m, walk, p) && w in RegionUses(m, walk, p)
    requires Index(RegionUses(m, walk, p), v) < Index(RegionUses(m, walk, p), w)
    ensures UseAt(m, walk, p, k', b', u', v) && (k' < k || (k' == k && (b' < b || (b' == b && u' < u))))
  {
    var f := walk[0];
    var here := f in m.path && f in m.subps && p in m.path[f];
    var first := if here then BlocksUses(m.subps[f].blocks) else [];
    var rest := RegionUses(m, walk[1..], p);
    assert RegionUses(m, walk, p) == first + rest;
    IndexInBoth(first, rest, v);
    IndexInBoth(first, rest, w);
    if v in first {
      if k == 0 {
        assert w in first;
        var b1, u1 := BlocksInOrder(m.subps[f].blocks, v, w, b, u);
        k', b', u' := 0, b1, u1;
      } else {
        b' :| 0 <= b' < |m.subps[f].blocks| && v in Uses(m.subps[f].blocks[b'].code);
        k', u' := 0, Index(Uses(m.subps[f].blocks[b'].code), v);
      }
    } else {
      assert k > 0 && UseAt(m, walk[1..], p, k - 1, b, u, w);
      var k1, b1, u1 := RegionInOrder(m, walk[1..], p, v, w, k - 1, b, u);
      k', b', u' := k1 + 1, b1, u1;
    }
  }

  lemma CapturesInOrder(m: Module, walk: seq<Sym>, p: Sym, found: seq<Value>)
    requires InOrderOfUse(found, RegionUses(m, walk, p))
    ensures FirstUsedInOrder(m, walk, p, found)
  {
    forall i, j, k: nat, b: nat, u: nat | 0 <= i < j < |found| && UseAt(m, walk, p, k, b, u, found[j])
      ensures UsedBefore(m, walk, p, k, b, u, found[i])
    {
      assert found[i] in found && found[j] in found;
      var k', b', u' := RegionInOrder(m, walk, p, found[i], found[j], k, b, u);
    }
  }

  ghost predicate IsolatedRegion(m: Module, p: Sym, walk: seq<Sym>) {
    forall v :: v in RegionUses(m, walk, p) ==> !FromAbove(m, p, v)
  }

  /** The captures are in the order in which they are first used. */
  ghost predicate InOrderOfUse(found: seq<Value>, uses: seq<Value>) {
    && (forall v :: v in found ==> v in uses)
    && forall i, j :: 0 <= i < j < |found| ==> Index(uses, found[i]) < Index(uses, found[j])
  }

  lemma {:induction false} IndexOfPrefix(uses: seq<Value>, k: nat, v: Value)
    requires k <= |uses| && v in uses[..k]
    ensures v in uses && Index(uses, v) == Index(uses[..k], v)
  {
    if uses[0] != v {
      assert uses[..k][1..] == uses[1..][..k - 1];
      IndexOfPrefix(uses[1..], k - 1, v);
    }
  }

  lemma {:induction false} IndexOfNew(uses: seq<Value>, k: nat)
    requires k < |uses| && uses[k] !in uses[..k]
    ensures Index(uses, uses[k]) == k
  {
    if k > 0 {
      assert uses[0] in uses[..k] && uses[1..][k - 1] == uses[k] && uses[1..][..k - 1] == uses[..k][1..];
      IndexOfNew(uses[1..], k - 1);
    }
  }

  /** One more operand: it is captured when it is from above, and has not been used before. */
  lemma UseMore(m: Module, p: Sym, found: seq<Value>, uses: seq<Value>, k: nat)
    requires k < |uses| && Scanned(m, p, uses[..k], found)
    ensures if FromAbove(m, p, uses[k]) && uses[k] !in found then Scanned(m, p, uses[..k + 1], found + [uses[k]])
            else Scanned(m, p, uses[..k + 1], found)
  {
    var now, v := uses[..k + 1], uses[k];
    assert now[..k] == uses[..k] && now[..|now| - 1] == uses[..k];
    var found' := UsedFromAbove(m, p, now);
    forall u | u in found ensures Index(now, u) == Index(uses[..k], u) { IndexOfPrefix(now, k, u); }
    if found' != found { IndexOfNew(now, k); }
  }

  /** After some of the uses, in a module that was `m` and had its first free number `first`. */
  ghost predicate Appended(m: Module, first: nat, p: Sym, uses: seq<Value>, found: seq<Value>, lifted: seq<Value>,
                           now: Module, next: nat)
  {
    && p in m.subps && Scanned(m, p, uses, found)
    && lifted == FreshFrom(first, |found|) && next == first + |found| && now == WithParams(m, p, lifted)
  }

  /** One use more: it is captured if it is from above and not captured yet. */
  lemma AppendMore(m: Module, first: nat, p: Sym, uses: seq<Value>, k: nat, found: seq<Value>, lifted: seq<Value>,
                   now: Module, next: nat)
    requires k < |uses| && Appended(m, first, p, uses[..k], found, lifted, now, next)
    requires p in m.path && p in m.path[p] && forall v :: v in m.home ==> v < first
    ensures p in now.subps && p in now.path
    ensures if FromAbove(now, p, uses[k]) && uses[k] !in found
            then Appended(m, first, p, uses[..k + 1], found + [uses[k]], lifted + [next], AppendedParam(now, p, next),
                          next + 1)
            else Appended(m, first, p, uses[..k + 1], found, lifted, now, next)
  {
    ParamsMore(m, first, p, |found|, uses[k]);
    UseMore(m, p, found, uses, k);
  }

  lemma ParamsMore(m: Module, first: nat, p: Sym, count: nat, u: Value)
    requires p in m.subps && p in m.path && p in m.path[p] && forall v :: v in m.home ==> v < first
    ensures var now := WithParams(m, p, FreshFrom(first, count));
            && p in now.subps && (FromAbove(now, p, u) <==> FromAbove(m, p, u))
            && AppendedParam(now, p, first + count) == WithParams(m, p, FreshFrom(first, count + 1))
    ensures FreshFrom(first, count) + [first + count] == FreshFrom(first, count + 1)
  {
    FreshMore(m, first, count);
    ParamsNotAbove(m, p, FreshFrom(first, count), u);
    ParamMore(m, p, FreshFrom(first, count), first + count);
  }

  lemma FreshMore(m: Module, first: nat, count: nat)
    requires forall v :: v in m.home ==> v < first
    ensures forall v :: v in FreshFrom(first, count) ==> v !in m.home
    ensures FreshFrom(first, count) + [first + count] == FreshFrom(first, count + 1)
  {
  }

  lemma NoParams(m: Module, p: Sym)
    requires p in m.subps
    ensures WithParams(m, p, []) == m
  {
    assert m.subps[p].params + [] == m.subps[p].params;
    assert m.subps[p := m.subps[p]] == m.subps;
  }

  lemma ParamMore(m: Module, p: Sym, vs: seq<Value>, v: Value)
    requires p in m.subps
    ensures AppendedParam(WithParams(m, p, vs), p, v) == WithParams(m, p, vs + [v])
  {
    var subp := m.subps[p];
    assert (subp.params + vs) + [v] == subp.params + (vs + [v]);
    assert (vs + [v])[..|vs|] == vs;
    UpdateTwice(m.subps, p, subp.(params := subp.params + vs), subp.(params := subp.params + (vs + [v])));
  }

  lemma UpdateTwice(subps: map<Sym, Subp>, p: Sym, a: Subp, b: Subp)
    ensures subps[p := a][p := b] == subps[p := b]
  {
  }

  lemma {:induction false} HomesAt(home: map<Value, Sym>, p: Sym, vs: seq<Value>)
    ensures WithHomes(home, p, vs) == home + map v | v in vs :: p
  {
    if vs != [] {
      var init, last := vs[..|vs| - 1], vs[|vs| - 1];
      HomesAt(home, p, init);
      assert forall v :: v in vs <==> v in init || v == last;
    } else {
      assert home + map[] == home;
    }
  }

  /** New parameters of `p` do not come from above it. */
  lemma ParamsNotAbove(m: Module, p: Sym, vs: seq<Value>, v: Value)
    requires p in m.subps && p in m.path && p in m.path[p] && forall u :: u in vs ==> u !in m.home
    ensures FromAbove(WithParams(m, p, vs), p, v) <==> FromAbove(m, p, v)
  {
    HomesAt(m.home, p, vs);
  }

  lemma NothingRenamed(m: Module, p: Sym)
    requires m.subps.Keys == m.path.Keys
    ensures RenamedRegion(m, p, [], []) == m
  {
    forall f | f in m.subps ensures RenBlocks([], [], m.subps[f].blocks) == m.subps[f].blocks {
      forall b | 0 <= b < |m.subps[f].blocks| { RenNothing(m.subps[f].blocks[b].code); }
    }
  }

  /** What the operands `uses` take from above has been found. */
  ghost predicate Scanned(m: Module, p: Sym, uses: seq<Value>, found: seq<Value>) {
    found == UsedFromAbove(m, p, uses) && InOrderOfUse(found, uses)
  }

  lemma {:induction false} RenTwice(from: seq<Value>, to: seq<Value>, v: Value, w: Value, code: Code)
    requires |from| == |to| && v !in from && v !in to
    ensures RenCode([v], [w], RenCode(from, to, code)) == RenCode(from + [v], to + [w], code)
  {
    match code
    case Do(op, rest) =>
      RenTwice(from, to, v, w, rest);
      RenOpTwice(from, to, v, w, op);
    case Br(_, args) => RenAllTwice(from, to, v, w, args);
    case CondBr(cond, _, targs, _, eargs) =>
      RenValueTwice(from, to, v, w, cond);
      RenAllTwice(from, to, v, w, targs);
      RenAllTwice(from, to, v, w, eargs);
    case Return(values) => RenAllTwice(from, to, v, w, values);
  }

  lemma RenOpTwice(from: seq<Value>, to: seq<Value>, v: Value, w: Value, op: Op)
    requires |from| == |to| && v !in from && v !in to
    ensures RenOp([v], [w], RenOp(from, to, op)) == RenOp(from + [v], to + [w], op)
  {
    match op
    case Eval(_, _, args) => RenAllTwice(from, to, v, w, args);
    case Object(_, initial) => if initial.Some? { RenValueTwice(from, to, v, w, initial.value); }
    case Read(_, ref) => RenValueTwice(from, to, v, w, ref);
    case Write(val, ref) =>
      RenValueTwice(from, to, v, w, val);
      RenValueTwice(from, to, v, w, ref);
    case AdaCall(_, _, inputs, initials, ranges, _) =>
      RenAllTwice(from, to, v, w, inputs);
      RenAllTwice(from, to, v, w, initials);
      RenAllTwice(from, to, v, w, ranges);
    case FuncCall(_, _, inputs) => RenAllTwice(from, to, v, w, inputs);
  }

  lemma RenAllTwice(from: seq<Value>, to: seq<Value>, v: Value, w: Value, vs: seq<Value>)
    requires |from| == |to| && v !in from && v !in to
    ensures RenAll([v], [w], RenAll(from, to, vs)) == RenAll(from + [v], to + [w], vs)
  {
    forall i | 0 <= i < |vs| { RenValueTwice(from, to, v, w, vs[i]); }
  }

  lemma RenValueTwice(from: seq<Value>, to: seq<Value>, v: Value, w: Value, u: Value)
    requires |from| == |to| && v !in from && v !in to
    ensures Ren([v], [w], Ren(from, to, u)) == Ren(from + [v], to + [w], u)
  {
    if u in from {
      assert (from + [v])[..|from|] == from;
      IndexOfPrefix(from + [v], |from|, u);
      assert to[Index(from, u)] in to;
    } else if u == v {
      assert (from + [v])[|from|] == v && (from + [v])[..|from|] == from;
      IndexOfNew(from + [v], |from|);
    }
  }

  /** Replacing one capture after the other replaces all of them. */
  lemma RenameMore(m: Module, p: Sym, found: seq<Value>, lifted: seq<Value>, k: nat)
    requires |found| == |lifted| && k < |found| && m.subps.Keys == m.path.Keys && NoDup(found)
    requires forall v :: v in found ==> v !in lifted
    ensures RenamedRegion(RenamedRegion(m, p, found[..k], lifted[..k]), p, [found[k]], [lifted[k]])
         == RenamedRegion(m, p, found[..k + 1], lifted[..k + 1])
  {
    var from, to, v, w := found[..k], lifted[..k], found[k], lifted[k];
    assert found[..k + 1] == from + [v] && lifted[..k + 1] == to + [w];
    assert v in found && v !in from;
    forall f | f in m.subps
      ensures RenBlocks([v], [w], RenBlocks(from, to, m.subps[f].blocks))
        == RenBlocks(from + [v], to + [w], m.subps[f].blocks)
    {
      forall b | 0 <= b < |m.subps[f].blocks| { RenTwice(from, to, v, w, m.subps[f].blocks[b].code); }
    }
  }

  lemma RegionRenamed(m: Module, p: Sym, found: seq<Value>, lifted: seq<Value>)
    requires |found| == |lifted| && m.subps.Keys == m.path.Keys && p in m.subps && p in m.path[p]
    ensures RenamedRegion(WithParams(m, p, lifted), p, found, lifted) == IsolatedModule(m, p, found, lifted)
  {
    HomesAt(m.home, p, lifted);
  }

  /** What the region still uses is its own, or what it already did not take from above. */
  lemma NothingFromAbove(m: Module, p: Sym, walk: seq<Sym>, found: seq<Value>, lifted: seq<Value>)
    requires |found| == |lifted| && m.subps.Keys == m.path.Keys && p in m.subps && p in m.path[p]
    requires forall v :: v in found <==> v in RegionUses(m, walk, p) && FromAbove(m, p, v)
    requires forall v :: v in lifted ==> v !in m.home
    ensures IsolatedRegion(IsolatedModule(m, p, found, lifted), p, walk)
  {
    var m' := IsolatedModule(m, p, found, lifted);
    forall v | v in RegionUses(m', walk, p) && v !in lifted ensures !FromAbove(m', p, v) {
      var f :| f in walk && f in m'.path && f in m'.subps && p in m'.path[f] && UsedIn(m'.subps[f].blocks, v);
      var b :| 0 <= b < |m'.subps[f].blocks| && v in Uses(m'.subps[f].blocks[b].code);
      RenamedUses(found, lifted, m.subps[f].blocks[b].code, v);
      assert UsedIn(m.subps[f].blocks, v);
    }
  }

  lemma StrandedIsolated(m: Module, done: set<Sym>, p: Sym, found: seq<Value>, lifted: seq<Value>)
    requires |found| == |lifted| && m.subps.Keys == m.path.Keys
    ensures Stranded(IsolatedModule(m, p, found, lifted), done, p, found) <==> Stranded(m, done, p, found)
  {
    var iso := IsolatedModule(m, p, found, lifted);
    assert forall f :: f in m.subps && p !in m.path[f] ==> iso.subps[f] == m.subps[f];
  }

  lemma NothingToPass(m: Module, p: Sym, lifted: seq<Value>)
    requires m.subps.Keys == m.path.Keys && lifted == []
    ensures PassedModule(m, p, [], lifted) == m
  {
    forall f | f in m.subps ensures Passed(m, p, [], lifted, f) == m.subps[f] {
      BlocksAbsent(p, [], m.subps[f].blocks);
    }
  }

  lemma BlocksAbsent(p: Sym, extra: seq<Value>, blocks: seq<Block>)
    requires !CalledIn(blocks, p) || extra == []
    ensures PassBlocks(map[p := extra], blocks) == blocks
  {
    forall b | 0 <= b < |blocks| ensures PassCode(map[p := extra], blocks[b].code) == blocks[b].code {
      assert Calls(blocks[b].code, p) ==> CalledIn(blocks, p);
      PassAbsent(p, extra, blocks[b].code);
    }
  }
}
