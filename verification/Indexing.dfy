/** Lowering an array index: when its check can be left out, and the offset that
  * is computed from it (sections 4.1.1 and 11.5 of the Ada Reference Manual).
  */
module Indexing {
  import opened Options
  import opened Words

  /** The type of an index: its words, and its static bounds, if it has some. */
  datatype IndexType = IndexType(width: nat, unsigned: bool, bounds: Option<(int, int)>)

  /** Where an index comes from: a check against constant bounds, words of the index
    * type; a constant; or anything else. */
  datatype Source = CheckedAgainst(lo: nat, hi: nat) | Constant(c: int) | Computed

  /** A value of the index type that has that origin. */
  predicate ValueOf(t: IndexType, src: Source, v: int) {
    && Fits(v, t.width, t.unsigned)
    && (t.bounds.Some? ==> t.bounds.value.0 <= v <= t.bounds.value.1)
    && (src.CheckedAgainst? ==> Decode(src.lo, t.width, t.unsigned) <= v <= Decode(src.hi, t.width, t.unsigned))
    && (src.Constant? ==> v == src.c)
  }

  /** What is emitted: a check against two words of the index type unless it is left
    * out, an extension to `wide` bits, and a subtraction. */
  datatype Code = Code(check: Option<(nat, nat)>, wide: nat, first: nat)

  /** The offset computed from an index word, or none after a raise. */
  function Run(code: Code, t: IndexType, word: nat): Option<nat> {
    var v := Decode(word, t.width, t.unsigned);
    if code.check.Some?
       && !(Decode(code.check.value.0, t.width, t.unsigned) <= v <= Decode(code.check.value.1, t.width, t.unsigned))
    then None
    else
      var raw := if t.unsigned then word else Encode(Decode(word, t.width, false), code.wide);
      Some(Encode(raw - code.first, code.wide))
  }

  predicate InBounds(v: int, lower: int, upper: int) { lower <= v <= upper }

  /** The bounds of a range, when they are read as signed words whatever the type, are
    * those of the array only if they really are: a modular bound with its sign bit
    * set reads as negative, which no modular bound is. */
  lemma SignedReadingIsSound(word: nat, bound: int, w: nat, unsigned: bool)
    requires w > 0 && word < Pow2(w) && Fits(bound, w, unsigned)
    ensures Decode(word, w, false) == bound ==> Decode(word, w, unsigned) == bound
  {
  }

  /** The difference of two values of a type is exact in a wider word. */
  lemma OffsetExact(t: IndexType, lower: int, v: int, wide: nat)
    requires 0 < t.width < wide && Fits(lower, t.width, t.unsigned) && Fits(v, t.width, t.unsigned) && lower <= v
    ensures var word := Encode(v, t.width);
            var raw := if t.unsigned then word else Encode(Decode(word, t.width, false), wide);
            Encode(raw - Encode(lower, wide), wide) == v - lower && v - lower < Pow2(wide - 1)
  {
    DecodeEncode(v, t.width, t.unsigned);
    Pow2Monotone(t.width, wide - 1);
    ModNear(v, Pow2(wide));
    ModNear(lower, Pow2(wide));
    ModNear(v - lower, Pow2(wide));
    ModNear(v - lower - Pow2(wide), Pow2(wide));
    ModNear(v - lower + Pow2(wide), Pow2(wide));
  }

  /** The index was checked against the bounds of the array before, read as signed words,
    * or is a constant within them, or is of a type whose bounds are. */
  predicate NoCheckNeeded(t: IndexType, src: Source, lower: int, upper: int) {
    || (src.CheckedAgainst? && Decode(src.lo, t.width, false) == lower && Decode(src.hi, t.width, false) == upper)
    || (src.Constant? && lower <= src.c <= upper)
    || (!src.Constant? && t.bounds.Some? && lower <= t.bounds.value.0 <= upper && lower <= t.bounds.value.1 <= upper)
  }

  /** Execution raises exactly for an index outside `lower .. upper`; otherwise the offset is
    * the distance from `lower`, below the extent, and not negative as a signed word either. */
  ghost predicate OffsetRight(code: Code, t: IndexType, v: int, lower: int, upper: int) {
    var r := Run(code, t, Encode(v, t.width));
    && (r.Some? <==> lower <= v <= upper)
    && (r.Some? ==> r.value == v - lower < upper - lower + 1 && Decode(r.value, code.wide, false) == v - lower)
  }

  lemma CodeRight(t: IndexType, code: Code, v: int, lower: int, upper: int)
    requires t.width > 0 && Fits(lower, t.width, t.unsigned) && Fits(upper, t.width, t.unsigned)
    requires Fits(v, t.width, t.unsigned) && code.wide > t.width && code.first == Encode(lower, code.wide)
    requires if code.check.None? then lower <= v <= upper
             else code.check.value == (Encode(lower, t.width), Encode(upper, t.width))
    ensures OffsetRight(code, t, v, lower, upper)
  {
    DecodeEncode(v, t.width, t.unsigned);
    DecodeEncode(lower, t.width, t.unsigned);
    DecodeEncode(upper, t.width, t.unsigned);
    if InBounds(v, lower, upper) { OffsetExact(t, lower, v, code.wide); }
  }

  /** So it is for every value, in the three cases without a check too. */
  method LowerIndex(t: IndexType, src: Source, lower: int, upper: int) returns (code: Code)
    requires t.width > 0 && Fits(lower, t.width, t.unsigned) && Fits(upper, t.width, t.unsigned)
    requires src.CheckedAgainst? ==> src.lo < Pow2(t.width) && src.hi < Pow2(t.width)
    ensures forall v ::
      && Fits(v, t.width, t.unsigned) && (t.bounds.Some? ==> t.bounds.value.0 <= v <= t.bounds.value.1)
      && (src.CheckedAgainst? ==> Decode(src.lo, t.width, t.unsigned) <= v <= Decode(src.hi, t.width, t.unsigned))
      && (src.Constant? ==> v == src.c) ==>
        OffsetRight(code, t, v, lower, upper)
    ensures code.check.None? <==> NoCheckNeeded(t, src, lower, upper)
    ensures code.wide == if t.width < 64 then 64 else t.width + 1
  {
    var checked := false;
    if src.CheckedAgainst? {
      checked := Decode(src.lo, t.width, false) == lower && Decode(src.hi, t.width, false) == upper;
      SignedReadingIsSound(src.lo, lower, t.width, t.unsigned);
      SignedReadingIsSound(src.hi, upper, t.width, t.unsigned);
    }
    if !checked {
      if src.Constant? {
        checked := InBounds(src.c, lower, upper);
      } else if t.bounds.Some? {
        checked := InBounds(t.bounds.value.0, lower, upper) && InBounds(t.bounds.value.1, lower, upper);
      }
    }
    var check := None;
    if !checked { check := Some((Encode(lower, t.width), Encode(upper, t.width))); }
    var wide := if t.width + 1 > 64 then t.width + 1 else 64;
    code := Code(check, wide, Encode(lower, wide));
    forall v | ValueOf(t, src, v) ensures OffsetRight(code, t, v, lower, upper) {
      CodeRight(t, code, v, lower, upper);
    }
  }

  // -------------------------------------------------------------- the extent

  /** The element count of an array type: `upper - lower + 1` in a signed word of 64 bits. */
  function Extent(lower: int, upper: int): int {
    Decode(Encode(upper - lower + 1, 64), 64, false)
  }

  /** A type whose count is negative is rejected. */
  predicate Accepted(lower: int, upper: int) { Extent(lower, upper) >= 0 }

  /** The count is right, and an array of a range that is not null is accepted, exactly
    * when the number of its values fits. */
  lemma ExtentExact(lower: int, upper: int)
    requires Fits(lower, 64, false) && Fits(upper, 64, false)
    ensures Extent(lower, upper) == upper - lower + 1 <==> Fits(upper - lower + 1, 64, false)
    ensures Accepted(lower, upper) && Extent(lower, upper) == upper - lower + 1 <==>
      0 <= upper - lower + 1 <= Last(64, false)
  {
    var count := upper - lower + 1;
    if Fits(count, 64, false) { DecodeEncode(count, 64, false); }
    EncodeDecode(Encode(count, 64), 64, false);
    assert First(64, false) < 0;
  }

  /** All the values of a 64-bit type: the count wraps to that of an empty array, which
    * is accepted. */
  lemma FullRangeExtent()
    ensures var lower, upper := First(64, false), Last(64, false);
            Extent(lower, upper) == 0 && Accepted(lower, upper) && upper - lower + 1 == Pow2(64)
  {
    ModNear(Pow2(64), Pow2(64));
  }
}
