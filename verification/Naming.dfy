/** Symbol names: making them unique, recovering the simple name, and mangling. */
module Naming {
  import opened Options

  // ----------------------------------------------------------------- strings

  predicate IsDigit(c: char) { '0' <= c <= '9' }

  predicate AllDigits(s: string) { forall i :: 0 <= i < |s| ==> IsDigit(s[i]) }

  function Digit(d: nat): (c: char)
    requires d < 10
    ensures IsDigit(c)
  {
    '0' + (d as char)
  }

  /** The decimal digits of `n`. */
  function Digits(n: nat): (s: string)
    ensures |s| > 0 && AllDigits(s)
  {
    if n < 10 then [Digit(n)] else Digits(n / 10) + [Digit(n % 10)]
  }

  function Number(s: string): nat
    requires AllDigits(s)
  {
    if s == "" then 0 else 10 * Number(s[..|s| - 1]) + (s[|s| - 1] - '0') as nat
  }

  lemma {:induction false} NumberOfDigits(n: nat)
    ensures Number(Digits(n)) == n
    decreases n
  {
    if n >= 10 {
      var s := Digits(n / 10) + [Digit(n % 10)];
      assert s[..|s| - 1] == Digits(n / 10);
      NumberOfDigits(n / 10);
    } else {
      assert [Digit(n)][..0] == "";
    }
  }

  /** The decimal digit of `n` at place `k`, from the right. */
  function DigitAt(n: nat, k: nat): nat { if k == 0 then n % 10 else DigitAt(n / 10, k - 1) }

  /** Digits are decimal, most significant first, without a leading zero. */
  lemma {:induction false} DigitsDecimal(n: nat, k: nat)
    requires k < |Digits(n)|
    ensures Digits(n)[|Digits(n)| - 1 - k] as int == '0' as int + DigitAt(n, k)
    ensures n > 0 ==> Digits(n)[0] != '0'
  {
    if n >= 10 { DigitsDecimal(n / 10, if k == 0 then 0 else k - 1); }
  }

  // ------------------------------------------------------------ unique names

  /** `candidate__n`. */
  function Numbered(candidate: string, n: nat): string { candidate + "__" + Digits(n) }

  lemma NumberedApart(candidate: string, m: nat, n: nat)
    requires Numbered(candidate, m) == Numbered(candidate, n)
    ensures m == n
  {
    var prefix := candidate + "__";
    assert Numbered(candidate, m)[|prefix|..] == Digits(m) && Numbered(candidate, n)[|prefix|..] == Digits(n);
    NumberOfDigits(m);
    NumberOfDigits(n);
  }

  /** The names `candidate__2` up to `candidate__(n - 1)`. */
  function Tried(candidate: string, n: nat): (s: set<string>)
    requires n >= 2
    ensures forall k :: 2 <= k < n ==> Numbered(candidate, k) in s
  {
    if n == 2 then {} else Tried(candidate, n - 1) + {Numbered(candidate, n - 1)}
  }

  /** They are all different: `n - 2` of them. */
  lemma {:induction false} TriedCount(candidate: string, n: nat)
    requires n >= 2
    ensures |Tried(candidate, n)| == n - 2
    ensures forall x :: x in Tried(candidate, n) ==> exists k :: 2 <= k < n && x == Numbered(candidate, k)
    decreases n
  {
    if n > 2 {
      TriedCount(candidate, n - 1);
      var x := Numbered(candidate, n - 1);
      if x in Tried(candidate, n - 1) {
        var k :| 2 <= k < n - 1 && x == Numbered(candidate, k);
        NumberedApart(candidate, k, n - 1);
      }
      forall y | y in Tried(candidate, n) ensures exists k :: 2 <= k < n && y == Numbered(candidate, k) {
        if y != x { assert y in Tried(candidate, n - 1); }
      }
    }
  }

  lemma SubsetCount(a: set<string>, b: set<string>)
    requires a <= b
    ensures |a| <= |b|
  {
    assert a + (b - a) == b && a * (b - a) == {};
  }

  class Names {
    var used: set<string>

    constructor ()
      ensures used == {}
    {
      used := {};
    }

    /** `candidate` if it is unused, else the first unused of `candidate__2`,
      * `candidate__3`, and so on. The search ends: the names it passes over are
      * different, and all of them used. */
    method MakeUnique(candidate: string) returns (name: string)
      modifies this
      ensures name !in old(used) && used == old(used) + {name}
      ensures candidate !in old(used) ==> name == candidate
      ensures candidate in old(used) ==>
        exists n :: n >= 2 && name == Numbered(candidate, n)
          && forall k :: 2 <= k < n ==> Numbered(candidate, k) in old(used)
    {
      if candidate !in used {
        used := used + {candidate};
        return candidate;
      }
      var n := 2;
      while Numbered(candidate, n) in used
        invariant n >= 2 && Tried(candidate, n) <= used
        invariant forall k :: 2 <= k < n ==> Numbered(candidate, k) in used
        invariant used == old(used)
        decreases |used| + 2 - n
      {
        assert Tried(candidate, n + 1) == Tried(candidate, n) + {Numbered(candidate, n)};
        TriedCount(candidate, n + 1);
        SubsetCount(Tried(candidate, n + 1), used);
        n := n + 1;
      }
      name := Numbered(candidate, n);
      used := used + {name};
    }

    /** Over any sequence of requests, no name is given twice. */
    method MakeAll(candidates: seq<string>) returns (names: seq<string>)
      modifies this
      ensures |names| == |candidates|
      ensures forall i, j :: 0 <= i < j < |names| ==> names[i] != names[j]
      ensures forall i :: 0 <= i < |names| ==> names[i] !in old(used) && names[i] in used
    {
      names := [];
      for k := 0 to |candidates|
        invariant |names| == k && old(used) <= used
        invariant forall i, j :: 0 <= i < j < k ==> names[i] != names[j]
        invariant forall i :: 0 <= i < k ==> names[i] !in old(used) && names[i] in used
      {
        var name := MakeUnique(candidates[k]);
        names := names + [name];
      }
    }
  }

  // ------------------------------------------------------------- simple names

  /** What follows the last dot, or everything when there is none or nothing follows. */
  function LastSegment(s: string): string {
    var seg := AfterLastDot(s);
    if seg == None || seg.value == "" then s else seg.value
  }

  function AfterLastDot(s: string): Option<string> {
    if s == "" then None
    else if s[|s| - 1] == '.' then Some("")
    else match AfterLastDot(s[..|s| - 1]) case Some(seg) => Some(seg + [s[|s| - 1]]) case None => None
  }

  /** The place of the last double underscore. */
  function LastDouble(s: string): (pos: Option<nat>)
    ensures pos.Some? ==> pos.value + 2 <= |s|
  {
    if |s| < 2 then None
    else if s[|s| - 2] == '_' && s[|s| - 1] == '_' then Some(|s| - 2)
    else LastDouble(s[..|s| - 1])
  }

  /** The simple name in a qualified one, without a collision suffix. */
  function BareName(qualified: string): string {
    var seg := LastSegment(qualified);
    var pos := LastDouble(seg);
    if pos.Some? && pos.value + 2 < |seg| && AllDigits(seg[pos.value + 2..]) then seg[..pos.value] else seg
  }

  predicate NoDot(s: string) { '.' !in s }

  /** A name that does not itself end like one with a collision suffix. */
  predicate Unsuffixed(s: string) {
    var pos := LastDouble(s);
    pos.Some? && pos.value + 2 < |s| ==> !AllDigits(s[pos.value + 2..])
  }

  lemma {:induction false} AfterDot(prefix: string, s: string)
    requires NoDot(s)
    ensures AfterLastDot(prefix + "." + s) == Some(s)
    decreases |s|
  {
    var q := prefix + "." + s;
    if s == "" {
      assert q[|q| - 1] == '.';
    } else {
      var init := s[..|s| - 1];
      assert q[..|q| - 1] == prefix + "." + init;
      AfterDot(prefix, init);
      assert init + [s[|s| - 1]] == s;
    }
  }

  lemma {:induction false} AfterNoDot(s: string)
    requires NoDot(s)
    ensures AfterLastDot(s) == None
    decreases |s|
  {
    if s != "" { AfterNoDot(s[..|s| - 1]); }
  }

  /** Digits after a double underscore do not hide it. */
  lemma {:induction false} DoubleBeforeDigits(s: string, digits: string)
    requires AllDigits(digits)
    ensures LastDouble(s + "__" + digits) == Some(|s|)
    decreases |digits|
  {
    var q := s + "__" + digits;
    if digits == "" {
      assert q[|q| - 2] == '_' && q[|q| - 1] == '_';
    } else {
      var init := digits[..|digits| - 1];
      assert q[..|q| - 1] == s + "__" + init;
      assert q[|q| - 1] == digits[|digits| - 1];
      DoubleBeforeDigits(s, init);
    }
  }

  function Qualified(scope: string, simple: string): string { if scope == "" then simple else scope + "." + simple }

  lemma QualifiedSegment(scope: string, simple: string)
    requires NoDot(simple) && simple != ""
    ensures LastSegment(Qualified(scope, simple)) == simple
  {
    if scope == "" { AfterNoDot(simple); } else { AfterDot(scope, simple); }
  }

  lemma SuffixDropped(simple: string, digits: string)
    requires AllDigits(digits)
    ensures var suffixed := simple + "__" + digits;
            LastDouble(suffixed) == Some(|simple|) && suffixed[|simple| + 2..] == digits
            && suffixed[..|simple|] == simple
  {
    DoubleBeforeDigits(simple, digits);
  }

  lemma NumberedInScope(scope: string, simple: string, n: nat)
    ensures Numbered(Qualified(scope, simple), n) == Qualified(scope, Numbered(simple, n))
  {
    var digits := Digits(n);
    assert scope + "." + simple + "__" + digits == scope + "." + (simple + "__" + digits);
  }

  /** The simple name comes back from a name made unique in a scope, with or without
    * a collision suffix. */
  lemma BareNameRecovers(scope: string, simple: string, n: nat)
    requires simple != "" && NoDot(simple) && Unsuffixed(simple)
    ensures BareName(Qualified(scope, simple)) == simple
    ensures BareName(Numbered(Qualified(scope, simple), n)) == simple
  {
    QualifiedSegment(scope, simple);
    NumberedInScope(scope, simple, n);
    QualifiedSegment(scope, Numbered(simple, n));
    SuffixDropped(simple, Digits(n));
  }

  lemma {:induction false} DoubleAt(s: string)
    requires LastDouble(s).Some?
    ensures var pos := LastDouble(s).value; s == s[..pos] + "__" + s[pos + 2..]
  {
    var pos, init := LastDouble(s).value, s[..|s| - 1];
    if pos + 2 < |s| {
      DoubleAt(init);
      assert init[pos] == '_' && init[pos + 1] == '_';
    }
    assert s[pos..pos + 2] == "__";
    assert s == s[..pos] + s[pos..pos + 2] + s[pos + 2..];
  }

  lemma {:induction false} AfterDotIs(s: string)
    ensures AfterLastDot(s).None? <==> NoDot(s)
    ensures AfterLastDot(s).Some? ==>
      var seg := AfterLastDot(s).value; NoDot(seg) && |seg| < |s| && s == s[..|s| - |seg| - 1] + "." + seg
  {
    if s != "" {
      var init, c := s[..|s| - 1], s[|s| - 1];
      assert s == init + [c];
      if c != '.' {
        AfterDotIs(init);
        if AfterLastDot(init).Some? {
          var seg, k := AfterLastDot(init).value, |init| - |AfterLastDot(init).value| - 1;
          assert init[..k] == s[..k];
          assert s == s[..k] + "." + (seg + [c]);
        }
      }
    }
  }

  /** For any text: `r` is what follows its last dot, or the whole of it if nothing does,
    * without double underscore and digits at the end if it has them. */
  ghost predicate Simple(q: string, r: string) {
    exists s :: Segment(q, s) && if HasSuffix(s) then Suffixed(s, r) else r == s
  }

  ghost predicate Segment(q: string, s: string) {
    || (s == q && (NoDot(q) || q[|q| - 1] == '.'))
    || (s != "" && NoDot(s) && exists prefix :: q == prefix + "." + s)
  }

  ghost predicate Suffixed(s: string, r: string) {
    exists digits :: digits != "" && AllDigits(digits) && s == r + "__" + digits
  }

  ghost predicate HasSuffix(s: string) { exists r :: Suffixed(s, r) }

  lemma BareNameSimple(q: string)
    ensures Simple(q, BareName(q))
  {
    var s, r := LastSegment(q), BareName(q);
    AfterDotIs(q);
    assert Segment(q, s);
    if r != s {
      DoubleAt(s);
      assert Suffixed(s, r);
    } else if r' :| Suffixed(s, r') {
      var digits :| digits != "" && AllDigits(digits) && s == r' + "__" + digits;
      SuffixDropped(r', digits);
    }
  }
}
