/** Lowering integer conversions: checks and casts on machine words that stand
  * for the same integer, or raise (section 4.6 of the Ada Reference Manual).
  */
module Conversions {
  import opened Options
  import opened Words

  datatype Bounds = Bounds(lo: int, hi: int)

  predicate In(v: int, b: Bounds) { b.lo <= v <= b.hi }

  /** An integer type: its base (identity, range), its machine word, and its own
    * bounds, unless a bound is dynamic. `constrained` holds for a subtype. */
  datatype IntType = IntType(name: nat, base: nat, baseRange: Bounds, width: nat, unsigned: bool, constrained: bool,
                             bounds: Option<Bounds>)
  {
    predicate Valid() {
      && width > 0 && In(baseRange.lo, baseRange) && In(baseRange.hi, baseRange)
      && Fits(baseRange.lo, width, unsigned) && Fits(baseRange.hi, width, unsigned)
      && (bounds.Some? ==> Fits(bounds.value.lo, width, unsigned) && Fits(bounds.value.hi, width, unsigned))
      && (!constrained ==> bounds == Some(baseRange))
    }
  }

  /** Types with the same base share its range and its words. */
  predicate Agree(s: IntType, t: IntType) {
    && (s.base == t.base ==> s.baseRange == t.baseRange && s.unsigned == t.unsigned)
    && (s.name == t.name ==> s == t)
  }

  /** What the lowering emits. A check reads its word, and its bounds, as signed or
    * unsigned; `descriptor` stands for bounds elaborated at run time. */
  datatype Step =
    | Check(width: nat, unsigned: bool, lo: nat, hi: nat)
    | CheckDescriptor(width: nat, unsigned: bool)
    | Truncate(to: nat)
    | SignExtend(from: nat, to: nat)
    | ZeroExtend(to: nat)

  datatype Descriptor = Descriptor(lo: nat, hi: nat)

  predicate Passes(word: nat, w: nat, unsigned: bool, lo: nat, hi: nat) {
    Decode(lo, w, unsigned) <= Decode(word, w, unsigned) <= Decode(hi, w, unsigned)
  }

  /** The word that is left, or none after a raise. */
  function Run(steps: seq<Step>, word: nat, d: Descriptor): Option<nat> {
    if steps == [] then Some(word) else
    match steps[0]
    case Check(w, u, lo, hi) => if Passes(word, w, u, lo, hi) then Run(steps[1..], word, d) else None
    case CheckDescriptor(w, u) => if Passes(word, w, u, d.lo, d.hi) then Run(steps[1..], word, d) else None
    case Truncate(to) => Run(steps[1..], Encode(word, to), d)
    case SignExtend(from, to) => Run(steps[1..], Encode(Decode(word, from, false), to), d)
    case ZeroExtend(_) => Run(steps[1..], word, d)
  }

  /** The range a value must be in to be converted to `t`. */
  function TargetRange(t: IntType, d: Descriptor): Bounds {
    match t.bounds
    case Some(b) => b
    case None => Bounds(Decode(d.lo, t.width, t.unsigned), Decode(d.hi, t.width, t.unsigned))
  }

  /** What is known of the value converted: that it is a constant, or its type's bounds. */
  function Known(s: IntType, constant: Option<int>): Option<Bounds> {
    match constant
    case Some(c) => Some(Bounds(c, c))
    case None => s.bounds
  }

  /** A value of type `s`, and the constant it is, if any. */
  predicate ValueOf(s: IntType, constant: Option<int>, v: int) {
    && In(v, s.baseRange) && (s.bounds.Some? ==> In(v, s.bounds.value))
    && (constant.Some? ==> v == constant.value)
  }

  /** The elaborated bounds of a dynamic `t`: values of its base, unless the range is null. */
  predicate Elaborated(t: IntType, d: Descriptor) {
    && d.lo < Pow2(t.width) && d.hi < Pow2(t.width)
    && (t.bounds.None? && TargetRange(t, d).lo <= TargetRange(t, d).hi ==>
        In(TargetRange(t, d).lo, t.baseRange) && In(TargetRange(t, d).hi, t.baseRange))
  }

  /** What a conversion must do with `v`: yield a word that the target reads as `v`
    * when it is in the target's range, raise otherwise. A type converted to
    * itself has nothing to establish. */
  predicate Exact(s: IntType, t: IntType, steps: seq<Step>, v: int, d: Descriptor) {
    var r := Run(steps, Encode(v, s.width), d);
    if s == t || In(v, TargetRange(t, d)) then
      r.Some? && r.value < Pow2(t.width) && Decode(r.value, t.width, t.unsigned) == v
    else r.None?
  }

  predicate Within(known: Bounds, b: Bounds) { In(known.lo, b) && In(known.hi, b) }

  predicate KnownWithin(known: Option<Bounds>, b: Bounds) { known.Some? && Within(known.value, b) }

  /** `b` restricted to the integers of a word: a range nothing is in when that is empty. */
  function ClampTo(b: Bounds, w: nat, unsigned: bool): (r: Bounds)
    requires w > 0
    ensures Fits(r.lo, w, unsigned) && Fits(r.hi, w, unsigned)
    ensures forall v :: Fits(v, w, unsigned) ==> (In(v, r) <==> In(v, b))
  {
    var min, max := First(w, unsigned), Last(w, unsigned);
    var l, h := if b.lo < min then min else b.lo, if b.hi > max then max else b.hi;
    if l > h then Bounds(max, min) else Bounds(l, h)
  }

  // ------------------------------------------------------------ single steps

  function CheckFor(b: Bounds, w: nat, unsigned: bool): Step {
    Check(w, unsigned, Encode(b.lo, w), Encode(b.hi, w))
  }

  function CastFor(s: IntType, t: IntType): seq<Step> {
    if t.width < s.width then [Truncate(t.width)]
    else if t.width == s.width then []
    else if s.unsigned then [ZeroExtend(t.width)]
    else [SignExtend(s.width, t.width)]
  }

  lemma CheckRuns(b: Bounds, w: nat, unsigned: bool, rest: seq<Step>, v: int, d: Descriptor)
    requires w > 0 && Fits(b.lo, w, unsigned) && Fits(b.hi, w, unsigned) && Fits(v, w, unsigned)
    ensures Run([CheckFor(b, w, unsigned)] + rest, Encode(v, w), d)
         == if In(v, b) then Run(rest, Encode(v, w), d) else None
  {
    DecodeEncode(v, w, unsigned);
    DecodeEncode(b.lo, w, unsigned);
    DecodeEncode(b.hi, w, unsigned);
    assert ([CheckFor(b, w, unsigned)] + rest)[1..] == rest;
  }

  /** A cast yields the target's word for the integer that the source word stands for. */
  lemma CastRuns(s: IntType, t: IntType, rest: seq<Step>, v: int, d: Descriptor)
    requires s.width > 0 && Fits(v, s.width, s.unsigned)
    ensures Run(CastFor(s, t) + rest, Encode(v, s.width), d) == Run(rest, Encode(v, t.width), d)
  {
    if t.width < s.width {
      assert (CastFor(s, t) + rest)[1..] == rest;
      TruncateEncode(v, s.width, t.width);
    } else if t.width > s.width {
      assert (CastFor(s, t) + rest)[1..] == rest;
      DecodeEncode(v, s.width, s.unsigned);
      Pow2Monotone(s.width, t.width);
    } else {
      assert CastFor(s, t) + rest == rest;
    }
  }

  lemma DescriptorRuns(t: IntType, v: int, d: Descriptor)
    requires t.width > 0 && Fits(v, t.width, t.unsigned) && t.bounds.None?
    ensures Run([CheckDescriptor(t.width, t.unsigned)], Encode(v, t.width), d)
         == if In(v, TargetRange(t, d)) then Some(Encode(v, t.width)) else None
  {
    DecodeEncode(v, t.width, t.unsigned);
  }

  // ---------------------------------------------------- which checks are left

  predicate HasCheck(steps: seq<Step>) { exists i :: 0 <= i < |steps| && steps[i].Check? }
  predicate HasDescriptorCheck(steps: seq<Step>) { exists i :: 0 <= i < |steps| && steps[i].CheckDescriptor? }

  /** The operand is a constant in `b`, or not a constant and of a type with its bounds in `b`. */
  predicate Inside(s: IntType, constant: Option<int>, b: Bounds) {
    match constant
    case Some(c) => b.lo <= c <= b.hi
    case None =>
      s.bounds.Some? && b.lo <= s.bounds.value.lo <= b.hi && b.lo <= s.bounds.value.hi <= b.hi
  }

  /** Every value of the source is one of the target's words. */
  predicate Widens(s: IntType, t: IntType) { t.width > s.width && (s.unsigned || !t.unsigned) }

  /** A static check is made exactly when the operand is not known to be in the range of the
    * target; a conversion to the very type or, in one representation, to an unconstrained
    * one needs none. A dynamic target is checked against its descriptor, and before that,
    * if the cast could lose what the descriptor is compared with, against its base. */
  ghost predicate ChecksAsNeeded(s: IntType, t: IntType, constant: Option<int>, steps: seq<Step>) {
    var trivial := s.base == t.base && s.width == t.width && (s.name == t.name || !t.constrained);
    var ranged := t.bounds.Some? || !((s.base == t.base && s.width == t.width) || Widens(s, t));
    && (HasDescriptorCheck(steps) <==> !trivial && t.bounds.None?)
    && (HasCheck(steps) <==>
          !trivial && ranged && !Inside(s, constant, if t.bounds.Some? then t.bounds.value else t.baseRange))
  }

  lemma SingleCheck(step: Step)
    ensures HasCheck([step]) <==> step.Check?
    ensures HasDescriptorCheck([step]) <==> step.CheckDescriptor?
  {
    assert [step][0] == step;
  }

  lemma ChecksAround(first: seq<Step>, cast: seq<Step>, last: seq<Step>)
    requires forall i :: 0 <= i < |cast| ==> !cast[i].Check? && !cast[i].CheckDescriptor?
    ensures HasCheck(first + (cast + last)) <==> HasCheck(first) || HasCheck(last)
    ensures HasDescriptorCheck(first + (cast + last)) <==> HasDescriptorCheck(first) || HasDescriptorCheck(last)
  {
    var all, n := first + (cast + last), |first| + |cast|;
    assert forall i :: 0 <= i < |first| ==> all[i] == first[i];
    assert forall i :: 0 <= i < |last| ==> all[n + i] == last[i];
    assert forall i :: n <= i < |all| ==> all[i] == last[i - n];
    assert forall i :: |first| <= i < n ==> all[i] == cast[i - |first|];
  }

  // ------------------------------------------------------------- the rewrites

  /** The same base and the same words: a check into a constrained target. None
    * without the descriptor that a dynamic target needs. */
  method SameRepresentation(s: IntType, t: IntType, constant: Option<int>, hasDescriptor: bool)
    returns (r: Option<seq<Step>>)
    requires s.Valid() && t.Valid() && Agree(s, t) && s.base == t.base && s.width == t.width
    ensures r.None? <==> s != t && t.bounds.None? && !hasDescriptor
    ensures r.Some? ==> forall v, d :: ValueOf(s, constant, v) && Elaborated(t, d) ==> Exact(s, t, r.value, v, d)
    ensures r.Some? ==> ChecksAsNeeded(s, t, constant, r.value)
  {
    forall v | In(v, s.baseRange)
      ensures Fits(v, s.width, s.unsigned) && Decode(Encode(v, t.width), t.width, t.unsigned) == v
    {
      DecodeEncode(v, s.width, s.unsigned);
    }
    SingleCheck(CheckDescriptor(t.width, t.unsigned));
    if s.name == t.name { return Some([]); }
    if !t.constrained { return Some([]); }
    if t.bounds.None? {
      if !hasDescriptor { return None; }
      forall v, d | ValueOf(s, constant, v) ensures Exact(s, t, [CheckDescriptor(t.width, t.unsigned)], v, d) {
        DescriptorRuns(t, v, d);
      }
      return Some([CheckDescriptor(t.width, t.unsigned)]);
    }
    var b := t.bounds.value;
    SingleCheck(CheckFor(b, t.width, t.unsigned));
    if KnownWithin(Known(s, constant), b) { return Some([]); }
    forall v, d | ValueOf(s, constant, v) ensures Exact(s, t, [CheckFor(b, t.width, t.unsigned)], v, d) {
      CheckRuns(b, t.width, t.unsigned, [], v, d);
      assert [CheckFor(b, t.width, t.unsigned)] + [] == [CheckFor(b, t.width, t.unsigned)];
    }
    return Some([CheckFor(b, t.width, t.unsigned)]);
  }

  /** Another base, or other words: the check comes before a cast that can lose
    * what it needs, restricted to the source's words, and after one that cannot. */
  method RepresentationChange(s: IntType, t: IntType, constant: Option<int>, hasDescriptor: bool)
    returns (r: Option<seq<Step>>)
    requires s.Valid() && t.Valid() && Agree(s, t) && !(s.base == t.base && s.width == t.width)
    ensures r.None? <==> t.bounds.None? && !hasDescriptor
    ensures r.Some? ==> forall v, d :: ValueOf(s, constant, v) && Elaborated(t, d) ==> Exact(s, t, r.value, v, d)
    ensures r.Some? ==> ChecksAsNeeded(s, t, constant, r.value)
  {
    var bounds := t.bounds;
    var dynamicRange := false;
    if bounds.None? {
      if !hasDescriptor { return None; }
      dynamicRange := true;
      bounds := Some(t.baseRange);
    }
    var b := bounds.value;
    var check := !KnownWithin(Known(s, constant), b);
    var preserving := t.width > s.width && (s.unsigned || !t.unsigned);
    var first, last: seq<Step> := [], [];
    if check && !preserving {
      first := [CheckFor(ClampTo(b, s.width, s.unsigned), s.width, s.unsigned)];
      check := false;
    }
    if dynamicRange {
      last := [CheckDescriptor(t.width, t.unsigned)];
    } else if check {
      last := [CheckFor(b, t.width, t.unsigned)];
    }
    ChangeChecks(s, t, constant, b, first, last);
    forall v, d | ValueOf(s, constant, v) && Elaborated(t, d)
      ensures Exact(s, t, first + (CastFor(s, t) + last), v, d)
    {
      ChangeExact(s, t, constant, b, preserving, first, last, v, d);
    }
    return Some(first + (CastFor(s, t) + last));
  }

  lemma ChangeChecks(s: IntType, t: IntType, constant: Option<int>, b: Bounds, first: seq<Step>, last: seq<Step>)
    requires !(s.base == t.base && s.width == t.width)
    requires b == (if t.bounds.Some? then t.bounds.value else t.baseRange) && s.width > 0
    requires var known := KnownWithin(Known(s, constant), b);
             && first == (if known || Widens(s, t) then []
                          else [CheckFor(ClampTo(b, s.width, s.unsigned), s.width, s.unsigned)])
             && last == (if t.bounds.None? then [CheckDescriptor(t.width, t.unsigned)]
                         else if !known && Widens(s, t) then [CheckFor(b, t.width, t.unsigned)] else [])
    ensures ChecksAsNeeded(s, t, constant, first + (CastFor(s, t) + last))
  {
    SingleCheck(CheckFor(b, t.width, t.unsigned));
    SingleCheck(CheckFor(ClampTo(b, s.width, s.unsigned), s.width, s.unsigned));
    SingleCheck(CheckDescriptor(t.width, t.unsigned));
    ChecksAround(first, CastFor(s, t), last);
    assert KnownWithin(Known(s, constant), b) <==> Inside(s, constant, b);
  }

  lemma ChangeExact(s: IntType, t: IntType, constant: Option<int>, b: Bounds, preserving: bool, first: seq<Step>,
                    last: seq<Step>, v: int, d: Descriptor)
    requires s.Valid() && t.Valid() && ValueOf(s, constant, v) && Elaborated(t, d) && s != t
    requires b == (if t.bounds.Some? then t.bounds.value else t.baseRange)
    requires preserving <==> t.width > s.width && (s.unsigned || !t.unsigned)
    requires var known := KnownWithin(Known(s, constant), b);
             && first == (if !known && !preserving then [CheckFor(ClampTo(b, s.width, s.unsigned), s.width, s.unsigned)]
                          else [])
             && last == (if t.bounds.None? then [CheckDescriptor(t.width, t.unsigned)]
                         else if !known && preserving then [CheckFor(b, t.width, t.unsigned)] else [])
    ensures Exact(s, t, first + (CastFor(s, t) + last), v, d)
  {
    var known := KnownWithin(Known(s, constant), b);
    var rest := CastFor(s, t) + last;
    if first != [] {
      CheckRuns(ClampTo(b, s.width, s.unsigned), s.width, s.unsigned, rest, v, d);
    } else {
      assert first + rest == rest;
    }
    CastRuns(s, t, last, v, d);
    if preserving { FitsWider(v, s.width, s.unsigned, t.width, t.unsigned); }
    if known || preserving || In(v, b) { LastExact(t, b, last, v, d); }
  }

  /** The check after the cast, when the target's words can hold the value. */
  lemma LastExact(t: IntType, b: Bounds, last: seq<Step>, v: int, d: Descriptor)
    requires t.Valid() && Fits(v, t.width, t.unsigned) && (t.bounds.Some? ==> b == t.bounds.value)
    requires if t.bounds.None? then last == [CheckDescriptor(t.width, t.unsigned)]
             else last == [CheckFor(b, t.width, t.unsigned)] || (last == [] && In(v, b))
    ensures Run(last, Encode(v, t.width), d) == if In(v, TargetRange(t, d)) then Some(Encode(v, t.width)) else None
    ensures Decode(Encode(v, t.width), t.width, t.unsigned) == v
  {
    DecodeEncode(v, t.width, t.unsigned);
    if t.bounds.None? {
      DescriptorRuns(t, v, d);
    } else if last != [] {
      CheckRuns(b, t.width, t.unsigned, [], v, d);
      assert last + [] == last;
    }
  }

  /** Every conversion between integer types takes one of the two rewrites. */
  method Lower(s: IntType, t: IntType, constant: Option<int>, hasDescriptor: bool) returns (r: Option<seq<Step>>)
    requires s.Valid() && t.Valid() && Agree(s, t)
    ensures r.None? <==> s != t && t.bounds.None? && !hasDescriptor
    ensures r.Some? ==> forall v, d ::
      && s.baseRange.lo <= v <= s.baseRange.hi && (constant.Some? ==> v == constant.value)
      && (s.bounds.Some? ==> s.bounds.value.lo <= v <= s.bounds.value.hi) && Elaborated(t, d) ==>
        Exact(s, t, r.value, v, d)
    ensures r.Some? ==> ChecksAsNeeded(s, t, constant, r.value)
  {
    if s.base == t.base && s.width == t.width {
      r := SameRepresentation(s, t, constant, hasDescriptor);
    } else {
      r := RepresentationChange(s, t, constant, hasDescriptor);
    }
  }

  // ------------------------------------------------------------ sample types

  // type Integer is range -2 ** 31 .. 2 ** 31 - 1;
  // subtype Part is Integer range Low .. High;  -- known at run time only
  // type Byte is mod 2 ** 8;
  function Word(): Bounds { Bounds(First(32, false), Last(32, false)) }
  function Integer(): IntType { IntType.IntType(0, 0, Word(), 32, false, false, Some(Word())) }
  function Part(): IntType { IntType.IntType(1, 0, Word(), 32, false, true, None) }
  function Byte(): IntType { IntType.IntType(2, 2, Bounds(0, 255), 8, true, false, Some(Bounds(0, 255))) }

  /** What is asked of types and descriptors is met by ordinary ones, and the descriptor
    * holds the bounds of the subtype. */
  lemma SampleTypes(low: int, high: int)
    requires Fits(low, 32, false) && Fits(high, 32, false)
    ensures Integer().Valid() && Part().Valid() && Byte().Valid()
    ensures Agree(Integer(), Part()) && Agree(Integer(), Byte()) && Agree(Byte(), Part())
    ensures var d := Descriptor(Encode(low, 32), Encode(high, 32));
            Elaborated(Part(), d) && TargetRange(Part(), d) == Bounds(low, high)
  {
    DecodeEncode(low, 32, false);
    DecodeEncode(high, 32, false);
    assert Pow2(8) == 256 by { assert Pow2(4) == 16; }
  }
}
