/** The ABI names of subprograms, and renaming a module's subprograms to them. */
module Mangling {
  import opened Options
  import opened Naming

  // ---------------------------------------------------------------- segments

  const OPERATORS: seq<string> :=
    ["+", "-", "&", "*", "**", "/", "/=", "<", "<=", "=", ">", ">=", "abs", "and", "mod", "not", "or", "rem", "xor"]

  /** The name of an operator symbol; `arity` tells the two meanings of `+` and `-` apart. */
  function OperatorName(sym: string, arity: nat): string {
    if sym == "+" then (if arity == 1 then "Oplus" else "Oadd")
    else if sym == "-" then (if arity == 1 then "Ominus" else "Osubtract")
    else if sym == "&" then "Oconcat"
    else if sym == "*" then "Omultiply"
    else if sym == "**" then "Oexpon"
    else if sym == "/" then "Odivide"
    else if sym == "/=" then "One"
    else if sym == "<" then "Olt"
    else if sym == "<=" then "Ole"
    else if sym == "=" then "Oeq"
    else if sym == ">" then "Ogt"
    else if sym == ">=" then "Oge"
    else if sym == "abs" then "Oabs"
    else if sym == "and" then "Oand"
    else if sym == "mod" then "Omod"
    else if sym == "not" then "Onot"
    else if sym == "or" then "Oor"
    else if sym == "rem" then "Orem"
    else if sym == "xor" then "Oxor"
    else ""
  }

  /** The symbol an operator name stands for. */
  function OperatorSymbol(name: string): string {
    if name == "" || name[0] != 'O' then ""
    else if Words(name[1..]) then name[1..]
    else if name == "Oplus" || name == "Oadd" then "+"
    else if name == "Ominus" || name == "Osubtract" then "-"
    else if name == "Oconcat" then "&"
    else if name == "Omultiply" then "*"
    else if name == "Oexpon" then "**"
    else if name == "Odivide" then "/"
    else if name == "One" then "/="
    else if name == "Olt" then "<"
    else if name == "Ole" then "<="
    else if name == "Oeq" then "="
    else if name == "Ogt" then ">"
    else if name == "Oge" then ">="
    else ""
  }

  predicate Signs(s: string) { s == "+" || s == "-" || s == "&" || s == "*" || s == "**" || s == "/" || s == "/=" }
  predicate Relations(s: string) { s == "<" || s == "<=" || s == "=" || s == ">" || s == ">=" }
  predicate Words(s: string) {
    s == "abs" || s == "and" || s == "mod" || s == "not" || s == "or" || s == "rem" || s == "xor"
  }

  predicate NoDouble(s: string) { forall i :: 0 <= i < |s| - 1 ==> !(s[i] == '_' && s[i + 1] == '_') }

  /** An identifier in its canonical form, or the bytes of one: any letters, none of them a
    * capital O at its start, with single underscores inside; not a reserved operator word. */
  predicate Identifier(s: string) {
    && s != "" && !IsDigit(s[0]) && s[0] != '_' && s[0] != 'O' && s[|s| - 1] != '_'
    && NoDouble(s) && NoDot(s) && s !in OPERATORS
  }

  /** A segment of a qualified name: an identifier or an operator symbol, perhaps
    * with a collision suffix. */
  datatype Seg = Seg(base: string, suffix: Option<nat>) {
    predicate Valid() { Identifier(base) || base in OPERATORS }
    function Text(): string { match suffix case None => base case Some(n) => Numbered(base, n) }
  }

  predicate ValidName(segs: seq<Seg>) { segs != [] && forall i :: 0 <= i < |segs| ==> segs[i].Valid() }

  // ---------------------------------------------------------------- mangling

  /** A segment in a mangled name. An operator with a suffix is too long to be looked up. */
  function MangledSeg(text: string, arity: nat): string {
    if |text| <= 3 && OperatorName(text, arity) != "" then OperatorName(text, arity) else text
  }

  function Join(tokens: seq<string>): string {
    if tokens == [] then "" else if |tokens| == 1 then tokens[0] else tokens[0] + "__" + Join(tokens[1..])
  }

  /** The segments of a mangled name: only the last one's arity is known, and it counts
    * all the inputs. */
  function MangledSegs(segs: seq<Seg>, arity: nat): (r: seq<string>)
    ensures |r| == |segs|
  {
    if segs == [] then []
    else [MangledSeg(segs[0].Text(), if |segs| == 1 then arity else 2)] + MangledSegs(segs[1..], arity)
  }

  function Mangled(segs: seq<Seg>, arity: nat, public: bool): string {
    var name := Join(MangledSegs(segs, arity));
    if public && |segs| == 1 then "_ada_" + name else name
  }

  function JoinDots(texts: seq<string>): string {
    if texts == [] then "" else if |texts| == 1 then texts[0] else texts[0] + "." + JoinDots(texts[1..])
  }

  function Texts(segs: seq<Seg>): (r: seq<string>)
    ensures |r| == |segs| && forall i :: 0 <= i < |segs| ==> r[i] == segs[i].Text()
  {
    seq(|segs|, i requires 0 <= i < |segs| => segs[i].Text())
  }

  /** The symbol of a subprogram before mangling. */
  function Symbol(segs: seq<Seg>): string { JoinDots(Texts(segs)) }

  // ------------------------------------------------------------- demangling

  /** Split at double underscores, from the left. */
  function SplitDouble(s: string): (r: seq<string>)
    ensures r != []
    decreases |s|
  {
    if s == "" then [""]
    else if |s| >= 2 && s[0] == '_' && s[1] == '_' then [""] + SplitDouble(s[2..])
    else
      var rest := SplitDouble(s[1..]);
      [[s[0]] + rest[0]] + rest[1..]
  }

  /** A token survives splitting: it neither holds a double underscore nor ends in one. */
  predicate Token(t: string) { t != "" && NoDouble(t) && t[|t| - 1] != '_' }

  lemma {:induction false} SplitToken(t: string)
    requires NoDouble(t)
    ensures SplitDouble(t) == [t]
    decreases |t|
  {
    if t != "" {
      SplitToken(t[1..]);
      assert [[t[0]] + t[1..]] == [t] by { assert [t[0]] + t[1..] == t; }
    }
  }

  lemma {:induction false} SplitFirst(t: string, rest: string)
    requires NoDouble(t) && (t != "" ==> t[|t| - 1] != '_')
    ensures SplitDouble(t + "__" + rest) == [t] + SplitDouble(rest)
    decreases |t|
  {
    var s := t + "__" + rest;
    if t == "" {
      assert s[2..] == rest;
    } else {
      assert s[1..] == t[1..] + "__" + rest;
      assert s[0] == t[0] && (|t| > 1 ==> s[1] == t[1]);
      SplitFirst(t[1..], rest);
      assert [t[0]] + t[1..] == t;
    }
  }

  lemma {:induction false} SplitJoin(tokens: seq<string>)
    requires tokens != [] && forall i :: 0 <= i < |tokens| ==> Token(tokens[i])
    ensures SplitDouble(Join(tokens)) == tokens
  {
    if |tokens| == 1 {
      SplitToken(tokens[0]);
    } else {
      SplitJoin(tokens[1..]);
      SplitFirst(tokens[0], Join(tokens[1..]));
    }
  }

  /** The segments that tokens stand for: a token of digits is the suffix of the one before. */
  function Parse(tokens: seq<string>): seq<Seg>
    decreases |tokens|
  {
    if tokens == [] then []
    else
      var base := if OperatorSymbol(tokens[0]) != "" then OperatorSymbol(tokens[0]) else tokens[0];
      if |tokens| > 1 && tokens[1] != "" && AllDigits(tokens[1]) then
        [Seg(base, Some(Number(tokens[1])))] + Parse(tokens[2..])
      else [Seg(base, None)] + Parse(tokens[1..])
  }

  function Demangled(name: string): seq<Seg> {
    Parse(SplitDouble(if |name| >= 5 && name[..5] == "_ada_" then name[5..] else name))
  }

  // ------------------------------------------------------------ the theorems

  /** The tokens of a segment in a mangled name. */
  function TokensOf(seg: Seg, arity: nat): seq<string> {
    match seg.suffix
    case None => [MangledSeg(seg.base, arity)]
    case Some(n) => [seg.base, Digits(n)]
  }

  function Tokens(segs: seq<Seg>, arity: nat): seq<string> {
    if segs == [] then [] else TokensOf(segs[0], if |segs| == 1 then arity else 2) + Tokens(segs[1..], arity)
  }

  /** A token that does not start like a number or a prefix, and has no dot. */
  predicate Plain(t: string) { Token(t) && !IsDigit(t[0]) && t[0] != '_' && NoDot(t) }

  /** What is needed of the name of an operator: it is looked up both ways, and it is a
    * token unlike a number or an identifier. So is the symbol itself. */
  predicate OperatorOk(s: string, name: string) {
    && OperatorSymbol(name) == s && Plain(name)
    && |s| <= 3 && Plain(s) && OperatorSymbol(s) == ""
  }

  lemma OperatorsAre(s: string)
    requires s in OPERATORS
    ensures Signs(s) || Relations(s) || Words(s)
  {
  }

  /** Only the names of operators start with a capital. */
  lemma SymbolStarts(t: string)
    ensures OperatorSymbol(t) != "" ==> t != "" && t[0] == 'O'
  {
  }

  /** Letters without a dot, an underscore or a digit make a plain token. */
  lemma LettersArePlain(t: string)
    requires t != "" && forall i :: 0 <= i < |t| ==> t[i] != '_' && t[i] != '.' && !IsDigit(t[i])
    ensures Plain(t)
  {
  }

  lemma AddingNames()
    ensures OperatorSymbol("Oplus") == "+"
    ensures OperatorSymbol("Oadd") == "+"
    ensures Plain("Oplus") && Plain("Oadd")
  {
    LettersArePlain("Oplus");
    LettersArePlain("Oadd");
  }

  lemma SubtractingNames()
    ensures OperatorSymbol("Ominus") == "-"
    ensures OperatorSymbol("Osubtract") == "-"
    ensures Plain("Ominus") && Plain("Osubtract")
  {
    LettersArePlain("Ominus");
    LettersArePlain("Osubtract");
  }

  lemma JoiningNames()
    ensures OperatorSymbol("Oconcat") == "&"
    ensures OperatorSymbol("Omultiply") == "*"
    ensures Plain("Oconcat") && Plain("Omultiply")
  {
    LettersArePlain("Oconcat");
    LettersArePlain("Omultiply");
  }

  lemma RaisingNames()
    ensures OperatorSymbol("Oexpon") == "**"
    ensures OperatorSymbol("Odivide") == "/"
    ensures Plain("Oexpon") && Plain("Odivide")
  {
    LettersArePlain("Oexpon");
    LettersArePlain("Odivide");
  }

  lemma TestingNames()
    ensures OperatorSymbol("One") == "/="
    ensures OperatorSymbol("Olt") == "<"
    ensures OperatorSymbol("Ole") == "<="
    ensures Plain("One") && Plain("Olt") && Plain("Ole")
  {
    LettersArePlain("One");
    LettersArePlain("Olt");
    LettersArePlain("Ole");
  }

  lemma ComparingNames()
    ensures OperatorSymbol("Oeq") == "="
    ensures OperatorSymbol("Ogt") == ">"
    ensures OperatorSymbol("Oge") == ">="
    ensures Plain("Oeq") && Plain("Ogt") && Plain("Oge")
  {
    LettersArePlain("Oeq");
    LettersArePlain("Ogt");
    LettersArePlain("Oge");
  }

  lemma SignsOk(s: string, arity: nat)
    requires Signs(s)
    ensures OperatorOk(s, OperatorName(s, arity))
  {
    SymbolStarts(s);
    LettersArePlain(s);
    AddingNames();
    SubtractingNames();
    JoiningNames();
    RaisingNames();
    TestingNames();
  }

  lemma LessOk(s: string, arity: nat)
    requires s == "<" || s == "<=" || s == "="
    ensures OperatorOk(s, OperatorName(s, arity))
  {
    SymbolStarts(s);
    LettersArePlain(s);
    TestingNames();
    ComparingNames();
  }

  lemma GreaterOk(s: string, arity: nat)
    requires s == ">" || s == ">="
    ensures OperatorOk(s, OperatorName(s, arity))
  {
    SymbolStarts(s);
    LettersArePlain(s);
    ComparingNames();
  }

  lemma RelationsOk(s: string, arity: nat)
    requires Relations(s)
    ensures OperatorOk(s, OperatorName(s, arity))
  {
    if s == ">" || s == ">=" { GreaterOk(s, arity); } else { LessOk(s, arity); }
  }

  lemma WordsOk(s: string, arity: nat)
    requires Words(s)
    ensures OperatorOk(s, OperatorName(s, arity))
  {
    SymbolStarts(s);
    WordNamed(s, arity);
    LettersArePlain(s);
    LettersArePlain(OperatorName(s, arity));
  }

  lemma WordNamed(s: string, arity: nat)
    requires Words(s)
    ensures OperatorName(s, arity) == "O" + s && OperatorSymbol("O" + s) == s && |s| <= 3
  {
    assert ("O" + s)[1..] == s;
  }

  lemma OperatorTokens(s: string, arity: nat)
    requires s in OPERATORS
    ensures OperatorOk(s, OperatorName(s, arity))
  {
    OperatorsAre(s);
    if Signs(s) { SignsOk(s, arity); } else if Relations(s) { RelationsOk(s, arity); } else { WordsOk(s, arity); }
  }

  lemma IdentifierTokens(s: string, arity: nat)
    requires Identifier(s)
    ensures Plain(s) && OperatorName(s, arity) == "" && OperatorSymbol(s) == ""
  {
    if OperatorName(s, arity) != "" { NamedOperator(s, arity); }
    SymbolStarts(s);
  }

  lemma NamedOperator(s: string, arity: nat)
    requires OperatorName(s, arity) != ""
    ensures s in OPERATORS
  {
    assert OPERATORS[0] == "+" && OPERATORS[1] == "-" && OPERATORS[2] == "&" && OPERATORS[3] == "*"
        && OPERATORS[4] == "**" && OPERATORS[5] == "/" && OPERATORS[6] == "/=" && OPERATORS[7] == "<"
        && OPERATORS[8] == "<=" && OPERATORS[9] == "=" && OPERATORS[10] == ">" && OPERATORS[11] == ">="
        && OPERATORS[12] == "abs" && OPERATORS[13] == "and" && OPERATORS[14] == "mod"
        && OPERATORS[15] == "not" && OPERATORS[16] == "or" && OPERATORS[17] == "rem" && OPERATORS[18] == "xor";
  }

  lemma DigitsToken(n: nat)
    ensures Token(Digits(n)) && NoDot(Digits(n))
  {
    var d := Digits(n);
    assert IsDigit(d[|d| - 1]);
  }

  lemma {:induction false} JoinBoth(a: seq<string>, b: seq<string>)
    requires a != [] && b != []
    ensures Join(a + b) == Join(a) + "__" + Join(b)
  {
    if |a| == 1 {
      assert (a + b)[1..] == b;
    } else {
      assert (a + b)[1..] == a[1..] + b;
      JoinBoth(a[1..], b);
    }
  }

  /** A valid segment: its tokens are tokens, they make up its text, and they are parsed back. */
  lemma SegTokens(seg: Seg, arity: nat)
    requires seg.Valid()
    ensures var tokens := TokensOf(seg, arity);
            && tokens != [] && (forall i :: 0 <= i < |tokens| ==> Token(tokens[i]) && NoDot(tokens[i]))
            && Plain(tokens[0]) && Join(tokens) == MangledSeg(seg.Text(), arity)
    ensures Plain(seg.base) && OperatorSymbol(seg.base) == ""
    ensures seg.suffix.None? ==>
      || MangledSeg(seg.base, arity) == seg.base
      || (OperatorSymbol(MangledSeg(seg.base, arity)) == seg.base && seg.base != "")
  {
    if seg.base in OPERATORS { OperatorTokens(seg.base, arity); } else { IdentifierTokens(seg.base, arity); }
    if seg.suffix.Some? {
      DigitsToken(seg.suffix.value);
      assert Join([seg.base, Digits(seg.suffix.value)]) == seg.base + "__" + Digits(seg.suffix.value);
    }
  }

  /** The tokens of a mangled name. */
  lemma {:induction false} NameTokens(segs: seq<Seg>, arity: nat)
    requires ValidName(segs)
    ensures var tokens := Tokens(segs, arity);
            && tokens != [] && (forall i :: 0 <= i < |tokens| ==> Token(tokens[i]) && NoDot(tokens[i]))
            && Plain(tokens[0]) && Join(tokens) == Join(MangledSegs(segs, arity))
  {
    var here := if |segs| == 1 then arity else 2;
    SegTokens(segs[0], here);
    if |segs| == 1 {
      assert Tokens(segs, arity) == TokensOf(segs[0], arity) + [] == TokensOf(segs[0], arity);
      assert MangledSegs(segs, arity) == [MangledSeg(segs[0].Text(), arity)];
    } else {
      assert ValidName(segs[1..]);
      NameTokens(segs[1..], arity);
      JoinBoth(TokensOf(segs[0], 2), Tokens(segs[1..], arity));
      JoinBoth([MangledSeg(segs[0].Text(), 2)], MangledSegs(segs[1..], arity));
    }
  }

  /** Parsing the tokens of a segment, before tokens that do not start with a number. */
  lemma ParseSeg(seg: Seg, first: seq<string>, rest: seq<string>)
    requires first == (match seg.suffix case None => first case Some(n) => [seg.base, Digits(n)]) && first != []
    requires OperatorSymbol(seg.base) == ""
    requires seg.suffix.None? ==>
      |first| == 1 && (first[0] == seg.base || (OperatorSymbol(first[0]) == seg.base && seg.base != ""))
    requires rest != [] ==> Plain(rest[0])
    ensures Parse(first + rest) == [seg] + Parse(rest)
  {
    var tokens := first + rest;
    if seg.suffix.Some? {
      NumberOfDigits(seg.suffix.value);
      assert tokens[1] == Digits(seg.suffix.value) && tokens[2..] == rest;
    } else {
      assert tokens[1..] == rest;
      if rest != [] { assert tokens[1] == rest[0] && !AllDigits(rest[0]); }
    }
  }

  lemma {:induction false} ParseTokens(segs: seq<Seg>, arity: nat)
    requires ValidName(segs)
    ensures Parse(Tokens(segs, arity)) == segs
  {
    var here := if |segs| == 1 then arity else 2;
    SegTokens(segs[0], here);
    if |segs| == 1 {
      ParseSeg(segs[0], TokensOf(segs[0], here), []);
      assert Tokens(segs, arity) == TokensOf(segs[0], here) + [];
    } else {
      assert ValidName(segs[1..]);
      ParseTokens(segs[1..], arity);
      NameTokens(segs[1..], arity);
      ParseSeg(segs[0], TokensOf(segs[0], here), Tokens(segs[1..], arity));
    }
  }

  lemma JoinStarts(tokens: seq<string>)
    requires tokens != [] && tokens[0] != ""
    ensures Join(tokens) != "" && Join(tokens)[0] == tokens[0][0]
  {
  }

  /** The name of a subprogram can be read back from its mangled name, whatever its arity
    * and visibility. */
  lemma DemangledMangled(segs: seq<Seg>, arity: nat, public: bool)
    requires ValidName(segs)
    ensures Demangled(Mangled(segs, arity, public)) == segs
  {
    var tokens := Tokens(segs, arity);
    NameTokens(segs, arity);
    JoinStarts(tokens);
    SplitJoin(tokens);
    ParseTokens(segs, arity);
    Unprefixed(Join(tokens), public && |segs| == 1);
  }

  lemma Unprefixed(name: string, prefixed: bool)
    requires name != "" && name[0] != '_'
    ensures var mangled := if prefixed then "_ada_" + name else name;
            (if |mangled| >= 5 && mangled[..5] == "_ada_" then mangled[5..] else mangled) == name
  {
    if prefixed {
      assert ("_ada_" + name)[..5] == "_ada_" && ("_ada_" + name)[5..] == name;
    } else if |name| >= 5 {
      assert name[..5][0] == name[0];
    }
  }

  /** Distinct symbols have distinct mangled names. */
  lemma MangledApart(a: seq<Seg>, b: seq<Seg>, arityA: nat, arityB: nat, publicA: bool, publicB: bool)
    requires ValidName(a) && ValidName(b) && Mangled(a, arityA, publicA) == Mangled(b, arityB, publicB)
    ensures a == b
  {
    DemangledMangled(a, arityA, publicA);
    DemangledMangled(b, arityB, publicB);
  }

  lemma {:induction false} JoinNoDot(tokens: seq<string>)
    requires forall i :: 0 <= i < |tokens| ==> NoDot(tokens[i])
    ensures NoDot(Join(tokens))
  {
    if |tokens| > 1 { JoinNoDot(tokens[1..]); }
  }

  lemma MangledNoDot(segs: seq<Seg>, arity: nat, public: bool)
    requires ValidName(segs)
    ensures NoDot(Mangled(segs, arity, public))
  {
    NameTokens(segs, arity);
    JoinNoDot(Tokens(segs, arity));
  }

  lemma SymbolHasDot(segs: seq<Seg>)
    requires |segs| > 0
    ensures |segs| > 1 ==> !NoDot(Symbol(segs))
  {
    if |segs| > 1 { assert Symbol(segs)[|Texts(segs)[0]|] == '.'; }
  }

  /** A mangled name is not the symbol of another subprogram, renamed or not. */
  lemma MangledIsNoSymbol(a: seq<Seg>, b: seq<Seg>, arity: nat, public: bool)
    requires ValidName(a) && ValidName(b) && Mangled(a, arity, public) == Symbol(b)
    ensures a == b
  {
    var tokens := Tokens(a, arity);
    NameTokens(a, arity);
    JoinStarts(tokens);
    SegTokens(b[0], arity);
    SymbolHasDot(b);
    MangledNoDot(a, arity, public);
    var raw := if b[0].suffix.Some? then [b[0].base, Digits(b[0].suffix.value)] else [b[0].base];
    assert Symbol(b) == Join(raw);
    if b[0].suffix.Some? { DigitsToken(b[0].suffix.value); }
    JoinStarts(raw);
    SplitJoin(tokens);
    SplitJoin(raw);
    ParseTokens(a, arity);
    ParseSeg(b[0], raw, []);
    assert raw + [] == raw;
  }

  /** The enclosing scopes in a mangled name. */
  function Scopes(scope: seq<Seg>): (r: seq<string>)
    ensures |r| == |scope|
  {
    if scope == [] then [] else [MangledSeg(scope[0].Text(), 2)] + Scopes(scope[1..])
  }

  lemma {:induction false} LeafMangled(scope: seq<Seg>, leaf: Seg, arity: nat)
    ensures MangledSegs(scope + [leaf], arity) == Scopes(scope) + [MangledSeg(leaf.Text(), arity)]
  {
    if scope == [] {
      assert scope + [leaf] == [leaf] && [leaf][1..] == [];
    } else {
      assert (scope + [leaf])[1..] == scope[1..] + [leaf];
      LeafMangled(scope[1..], leaf, arity);
    }
  }

  lemma JoinEnds(tokens: seq<string>, a: string, b: string)
    requires a != b && |a| != |b|
    ensures Join(tokens + [a]) != Join(tokens + [b])
  {
    if tokens == [] {
      assert [] + [a] == [a] && [] + [b] == [b];
    } else {
      JoinMore(tokens, a);
      JoinMore(tokens, b);
    }
  }

  function UnaryName(s: string): string { if s == "+" then "Oplus" else "Ominus" }
  function BinaryName(s: string): string { if s == "+" then "Oadd" else "Osubtract" }

  /** The arity that tells a unary `+` or `-` from a binary one counts every input of the
    * lifted subprogram: in any scope, it is given the unary name exactly when it has one
    * input, so not when it captures something. */
  lemma CapturesMakeBinary(scope: seq<Seg>, s: string, arity: nat, public: bool)
    requires s == "+" || s == "-"
    ensures Mangled(scope + [Seg(s, None)], arity, public)
         == (if public && scope == [] then "_ada_" else "")
            + Join(Scopes(scope) + [if arity == 1 then UnaryName(s) else BinaryName(s)])
    ensures Mangled(scope + [Seg(s, None)], arity, public) == Mangled(scope + [Seg(s, None)], 1, public) <==> arity == 1
  {
    var prefix := if public && scope == [] then "_ada_" else "";
    LeafMangled(scope, Seg(s, None), arity);
    LeafMangled(scope, Seg(s, None), 1);
    assert MangledSeg(s, arity) == if arity == 1 then UnaryName(s) else BinaryName(s);
    JoinEnds(Scopes(scope), UnaryName(s), BinaryName(s));
    var unary, binary := Join(Scopes(scope) + [UnaryName(s)]), Join(Scopes(scope) + [BinaryName(s)]);
    assert (prefix + unary)[|prefix|..] == unary && (prefix + binary)[|prefix|..] == binary;
    assert "" + unary == unary && "" + binary == binary;
  }

  // ---------------------------------------------------------------- renaming

  /** A subprogram as the renaming sees it: its symbol, and the symbols it refers to. */
  datatype Sub = Sub(sym: string, uses: seq<string>)

  function Renamed(olds: seq<string>, news: seq<string>, n: nat, x: string): string
    requires n <= |olds| == |news|
  {
    if n == 0 then x else if x == olds[n - 1] then news[n - 1] else Renamed(olds, news, n - 1, x)
  }

  /** Renaming in turn what the first `n` names have become. */
  lemma {:induction false} RenamedIs(olds: seq<string>, news: seq<string>, n: nat, x: string)
    requires n <= |olds| == |news| && forall i, j :: 0 <= i < j < |olds| ==> olds[i] != olds[j]
    ensures forall k :: 0 <= k < n && x == olds[k] ==> Renamed(olds, news, n, x) == news[k]
    ensures (forall k :: 0 <= k < n ==> x != olds[k]) ==> Renamed(olds, news, n, x) == x
  {
    if n > 0 { RenamedIs(olds, news, n - 1, x); }
  }

  class Module {
    var subps: seq<Sub>

    constructor (subps: seq<Sub>)
      ensures this.subps == subps
    {
      this.subps := subps;
    }

    /** Rename one subprogram, and every reference to its symbol. */
    method Rename(i: nat, new': string)
      requires i < |subps|
      modifies this
      ensures |subps| == |old(subps)|
      ensures forall k :: 0 <= k < |subps| ==> subps[k].sym == if k == i then new' else old(subps)[k].sym
      ensures forall k :: 0 <= k < |subps| ==> |subps[k].uses| == |old(subps)[k].uses|
      ensures forall k, u :: 0 <= k < |subps| && 0 <= u < |subps[k].uses| ==>
        subps[k].uses[u] == if old(subps)[k].uses[u] == old(subps)[i].sym then new' else old(subps)[k].uses[u]
    {
      var was := subps[i].sym;
      var k := 0;
      while k < |subps|
        invariant k <= |subps| == |old(subps)|
        invariant forall j :: 0 <= j < |subps| ==>
          subps[j].sym == old(subps)[j].sym && |subps[j].uses| == |old(subps)[j].uses|
        invariant forall j :: k <= j < |subps| ==> subps[j] == old(subps)[j]
        invariant forall j, u :: 0 <= j < k && 0 <= u < |subps[j].uses| ==>
          subps[j].uses[u] == if old(subps)[j].uses[u] == was then new' else old(subps)[j].uses[u]
      {
        var uses := subps[k].uses;
        var renamed := seq(|uses|, u requires 0 <= u < |uses| => if uses[u] == was then new' else uses[u]);
        subps := subps[k := Sub(subps[k].sym, renamed)];
        k := k + 1;
      }
      subps := subps[i := Sub(new', subps[i].uses)];
    }

    /** Rename every subprogram, one after the other. As no new name is the old name of
      * another, every reference follows the subprogram it named: the result is that
      * of renaming all of them at once. */
    method RenameAll(news: seq<string>)
      requires |news| == |subps| && forall i, j :: 0 <= i < j < |subps| ==> subps[i].sym != subps[j].sym
      requires forall i, j :: 0 <= i < |subps| && 0 <= j < |subps| && news[i] == subps[j].sym ==> i == j
      modifies this
      ensures AllRenamed(old(subps), subps, news)
    {
      ghost var was, olds := subps, Syms(subps);
      for i := 0 to |subps|
        invariant |subps| == |was| == |olds| == |news|
        invariant forall k :: 0 <= k < |subps| ==>
          subps[k].sym == (if k < i then news[k] else olds[k]) && |subps[k].uses| == |was[k].uses|
        invariant forall k, u :: 0 <= k < |subps| && 0 <= u < |subps[k].uses| ==>
          subps[k].uses[u] == Renamed(olds, news, i, was[k].uses[u])
      {
        ghost var mid := subps;
        Rename(i, news[i]);
        UsesRenamed(was, mid, subps, olds, news, i);
      }
      RenamedOnce(was, subps, news);
    }
  }

  function Syms(subps: seq<Sub>): (r: seq<string>)
    ensures |r| == |subps| && forall k :: 0 <= k < |subps| ==> r[k] == subps[k].sym
  {
    seq(|subps|, k requires 0 <= k < |subps| => subps[k].sym)
  }

  /** A reference to a subprogram becomes its new name; any other stays. */
  ghost predicate UseRenamed(was: seq<Sub>, now: seq<Sub>, news: seq<string>, k: nat, u: nat)
    requires |now| == |was| == |news| && k < |was| && u < |was[k].uses| == |now[k].uses|
  {
    && (forall t :: 0 <= t < |was| && was[k].uses[u] == was[t].sym ==> now[k].uses[u] == news[t] == now[t].sym)
    && ((forall t :: 0 <= t < |was| ==> was[k].uses[u] != was[t].sym) ==> now[k].uses[u] == was[k].uses[u])
  }

  /** The module with every subprogram renamed at once. */
  ghost predicate AllRenamed(was: seq<Sub>, now: seq<Sub>, news: seq<string>) {
    && |now| == |was| == |news|
    && (forall k :: 0 <= k < |was| ==> now[k].sym == news[k] && |now[k].uses| == |was[k].uses|)
    && forall k, u :: 0 <= k < |was| && 0 <= u < |was[k].uses| ==> UseRenamed(was, now, news, k, u)
  }

  /** Renaming one more subprogram. */
  lemma UsesRenamed(was: seq<Sub>, mid: seq<Sub>, now: seq<Sub>, olds: seq<string>, news: seq<string>, i: nat)
    requires |was| == |mid| == |now| == |olds| == |news| && i < |was|
    requires forall j, k :: 0 <= j < k < |olds| ==> olds[j] != olds[k]
    requires forall k :: 0 <= k < |was| ==> |was[k].uses| == |mid[k].uses| == |now[k].uses|
    requires forall k, u :: 0 <= k < |mid| && 0 <= u < |mid[k].uses| ==>
      mid[k].uses[u] == Renamed(olds, news, i, was[k].uses[u])
    requires forall k, u :: 0 <= k < |now| && 0 <= u < |now[k].uses| ==>
      now[k].uses[u] == if mid[k].uses[u] == olds[i] then news[i] else mid[k].uses[u]
    requires forall j, k :: 0 <= j < i && 0 <= k < |olds| && news[j] == olds[k] ==> j == k
    ensures forall k, u :: 0 <= k < |now| && 0 <= u < |now[k].uses| ==>
      now[k].uses[u] == Renamed(olds, news, i + 1, was[k].uses[u])
  {
    forall k, u | 0 <= k < |now| && 0 <= u < |now[k].uses|
      ensures now[k].uses[u] == Renamed(olds, news, i + 1, was[k].uses[u])
    {
      RenamedIs(olds, news, i, was[k].uses[u]);
    }
  }

  lemma RenamedOnce(was: seq<Sub>, now: seq<Sub>, news: seq<string>)
    requires |now| == |was| == |news| && forall i, j :: 0 <= i < j < |was| ==> was[i].sym != was[j].sym
    requires forall k :: 0 <= k < |was| ==> now[k].sym == news[k] && |now[k].uses| == |was[k].uses|
    requires forall k, u :: 0 <= k < |was| && 0 <= u < |was[k].uses| ==>
      now[k].uses[u] == Renamed(Syms(was), news, |was|, was[k].uses[u])
    ensures AllRenamed(was, now, news)
  {
    forall k, u | 0 <= k < |was| && 0 <= u < |was[k].uses| ensures UseRenamed(was, now, news, k, u) {
      RenamedIs(Syms(was), news, |was|, was[k].uses[u]);
    }
  }

  // ----------------------------------------------------- mangling a module

  /** A subprogram by its qualified name, its arity and its visibility. */
  datatype Profile = Profile(segs: seq<Seg>, arity: nat, public: bool)

  function SplitDots(s: string): (r: seq<string>)
    ensures r != []
  {
    if s == "" then [""]
    else
      var rest := SplitDots(s[1..]);
      if s[0] == '.' then [""] + rest else [[s[0]] + rest[0]] + rest[1..]
  }

  lemma {:induction false} SplitDotsFirst(t: string, rest: string)
    requires NoDot(t)
    ensures SplitDots(t + "." + rest) == [t] + SplitDots(rest) && SplitDots(t) == [t]
  {
    var s := t + "." + rest;
    if t == "" {
      assert s[1..] == rest;
    } else {
      assert s[1..] == t[1..] + "." + rest && s[0] == t[0];
      SplitDotsFirst(t[1..], rest);
      assert [t[0]] + t[1..] == t;
    }
  }

  lemma {:induction false} SplitSymbol(texts: seq<string>)
    requires texts != [] && forall i :: 0 <= i < |texts| ==> NoDot(texts[i])
    ensures SplitDots(JoinDots(texts)) == texts
  {
    if |texts| == 1 {
      SplitDotsFirst(texts[0], "");
    } else {
      SplitSymbol(texts[1..]);
      SplitDotsFirst(texts[0], JoinDots(texts[1..]));
    }
  }

  lemma TextsPlain(segs: seq<Seg>)
    requires ValidName(segs)
    ensures forall i :: 0 <= i < |segs| ==> NoDot(segs[i].Text()) && segs[i].Text() != ""
  {
    forall i | 0 <= i < |segs| ensures NoDot(segs[i].Text()) && segs[i].Text() != "" {
      SegTokens(segs[i], 2);
      if segs[i].suffix.Some? { DigitsToken(segs[i].suffix.value); }
    }
  }

  lemma {:induction false} MangledSegsAt(segs: seq<Seg>, arity: nat, i: nat)
    requires i < |segs|
    ensures MangledSegs(segs, arity)[i] == MangledSeg(segs[i].Text(), if i + 1 == |segs| then arity else 2)
  {
    var first := MangledSeg(segs[0].Text(), if |segs| == 1 then arity else 2);
    assert MangledSegs(segs, arity) == [first] + MangledSegs(segs[1..], arity);
    if i > 0 {
      MangledSegsAt(segs[1..], arity, i - 1);
      assert segs[1..][i - 1] == segs[i];
    }
  }

  lemma {:induction false} JoinMore(tokens: seq<string>, t: string)
    requires tokens != []
    ensures Join(tokens + [t]) == Join(tokens) + "__" + t
  {
    JoinBoth(tokens, [t]);
  }

  lemma MangledNotEmpty(seg: Seg, arity: nat)
    requires seg.Valid()
    ensures MangledSeg(seg.Text(), arity) != ""
  {
    SegTokens(seg, arity);
    JoinStarts(TokensOf(seg, arity));
  }

  // ----------------------------------------------------- what a name looks like

  /** The operator symbols in GNAT's names, `+` and `-` by their arity. */
  lemma GnatNames(n: nat)
    ensures OperatorName("+", n) == (if n == 1 then "Oplus" else "Oadd")
    ensures OperatorName("-", n) == (if n == 1 then "Ominus" else "Osubtract")
    ensures OperatorName("&", n) == "Oconcat" && OperatorName("*", n) == "Omultiply"
    ensures OperatorName("**", n) == "Oexpon" && OperatorName("/", n) == "Odivide" && OperatorName("/=", n) == "One"
    ensures OperatorName("<", n) == "Olt" && OperatorName("<=", n) == "Ole" && OperatorName("=", n) == "Oeq"
    ensures OperatorName(">", n) == "Ogt" && OperatorName(">=", n) == "Oge"
    ensures forall s :: s in {"abs", "and", "mod", "not", "or", "rem", "xor"} ==> OperatorName(s, n) == "O" + s
  {
    forall s | s in {"abs", "and", "mod", "not", "or", "rem", "xor"} ensures OperatorName(s, n) == "O" + s {
      WordNamed(s, n);
    }
  }

  /** The token of a segment: the GNAT name of an operator without a suffix, of two inputs
    * unless it is the last one, and else the text itself. */
  function TokenOf(segs: seq<Seg>, arity: nat, k: nat): string
    requires k < |segs|
  {
    if segs[k].base in OPERATORS && segs[k].suffix.None? then
      OperatorName(segs[k].base, if k + 1 == |segs| then arity else 2)
    else segs[k].Text()
  }

  /** The tokens joined by double underscores, with `_ada_` in front of a public symbol
    * without a scope, and of no other. */
  ghost predicate Spells(name: string, segs: seq<Seg>, arity: nat, public: bool) {
    exists tokens: seq<string> ::
      && |tokens| == |segs| && (forall k :: 0 <= k < |segs| ==> tokens[k] == TokenOf(segs, arity, k))
      && name == (if public && |segs| == 1 then "_ada_" else "") + Join(tokens)
  }

  /** What is neither an operator nor its text with a suffix is not looked up. */
  lemma TextMangled(seg: Seg, arity: nat)
    requires seg.Valid()
    ensures MangledSeg(seg.Text(), arity)
         == if seg.base in OPERATORS && seg.suffix.None? then OperatorName(seg.base, arity) else seg.Text()
  {
    if seg.base in OPERATORS { OperatorTokens(seg.base, arity); } else { IdentifierTokens(seg.base, arity); }
    if seg.suffix.Some? {
      var text := seg.Text();
      assert |text| >= 4;
    } else if seg.base in OPERATORS {
      assert OperatorName(seg.base, arity) != "";
    }
  }

  lemma MangledSpells(segs: seq<Seg>, arity: nat, public: bool)
    requires ValidName(segs)
    ensures Spells(Mangled(segs, arity, public), segs, arity, public)
  {
    var tokens := MangledSegs(segs, arity);
    forall k | 0 <= k < |segs| ensures tokens[k] == TokenOf(segs, arity, k) {
      MangledSegsAt(segs, arity, k);
      TextMangled(segs[k], if k + 1 == |segs| then arity else 2);
    }
    assert "" + Join(tokens) == Join(tokens);
  }

  predicate Prefixed(name: string) { |name| >= 5 && name[..5] == "_ada_" }

  lemma MangledPrefix(segs: seq<Seg>, arity: nat, public: bool)
    requires ValidName(segs)
    ensures Prefixed(Mangled(segs, arity, public)) <==> public && |segs| == 1
  {
    var name := Join(MangledSegs(segs, arity));
    NameTokens(segs, arity);
    JoinStarts(Tokens(segs, arity));
    if public && |segs| == 1 {
      assert ("_ada_" + name)[..5] == "_ada_";
    } else if |name| >= 5 {
      assert name[..5][0] == name[0];
    }
  }

  /** A library procedure: the name that a binder calls. */
  lemma MainName()
    ensures var main := [Seg("main", None)];
            ValidName(main) && Symbol(main) == "main" && Mangled(main, 0, true) == "_ada_main"
  {
    assert MangledSegs([Seg("main", None)], 0) == ["main"];
  }

  const PLUS := [Seg("pkg", None), Seg("+", None)]

  /** An operator of a package. */
  lemma PlusName()
    ensures ValidName(PLUS) && Symbol(PLUS) == "pkg.+" && Mangled(PLUS, 2, true) == "pkg__Oadd"
  {
    PlusSymbol();
    PlusMangled();
  }

  lemma PlusSymbol()
    ensures Symbol(PLUS) == "pkg.+"
  {
    assert Texts(PLUS) == ["pkg", "+"];
    TwoDots("pkg", "+");
  }

  lemma PlusMangled()
    ensures Mangled(PLUS, 2, true) == "pkg__Oadd"
  {
    TwoSegs(PLUS[0], PLUS[1], 2);
    GnatNames(2);
    PackageKept();
    TwoJoined("pkg", "Oadd");
  }

  lemma PackageKept()
    ensures MangledSeg("pkg", 2) == "pkg" && Identifier("pkg")
  {
    IdentifierTokens("pkg", 2);
  }

  lemma TwoSegs(a: Seg, b: Seg, arity: nat)
    ensures MangledSegs([a, b], arity) == [MangledSeg(a.Text(), 2), MangledSeg(b.Text(), arity)]
  {
    assert [a, b][1..] == [b];
    assert MangledSegs([b], arity) == [MangledSeg(b.Text(), arity)];
  }

  lemma TwoDots(a: string, b: string)
    ensures JoinDots([a, b]) == a + "." + b
  {
    assert [a, b][1..] == [b];
  }

  lemma TwoJoined(a: string, b: string)
    ensures Join([a, b]) == a + "__" + b
  {
    assert [a, b][1..] == [b];
  }

  /** The mangled name of a symbol: split on the dots, map operators, join. */
  method MangledName(sym: string, arity: nat, public: bool, ghost segs: seq<Seg>) returns (name: string)
    requires ValidName(segs) && sym == Symbol(segs)
    ensures name == Mangled(segs, arity, public) && Spells(name, segs, arity, public)
    ensures Prefixed(name) <==> public && |segs| == 1
  {
    var parts := SplitDots(sym);
    TextsPlain(segs);
    SplitSymbol(Texts(segs));
    name := JoinedName(parts, arity, segs);
    if public && |parts| == 1 { name := "_ada_" + name; }
    MangledSpells(segs, arity, public);
    MangledPrefix(segs, arity, public);
  }

  lemma JoinNext(segs: seq<Seg>, arity: nat, i: nat)
    requires ValidName(segs) && i < |segs|
    ensures var tokens := MangledSegs(segs, arity);
            && Join(tokens[..i + 1]) == (if i == 0 then "" else Join(tokens[..i]) + "__")
                                        + MangledSeg(Texts(segs)[i], if i + 1 == |segs| then arity else 2)
            && Join(tokens[..i + 1]) != ""
  {
    MangledNonEmpty(segs, arity);
    MangledSegsAt(segs, arity, i);
    JoinStep(MangledSegs(segs, arity), i);
  }

  method JoinedName(parts: seq<string>, arity: nat, ghost segs: seq<Seg>) returns (name: string)
    requires ValidName(segs) && parts == Texts(segs)
    ensures name == Join(MangledSegs(segs, arity))
  {
    ghost var mangled := MangledSegs(segs, arity);
    name := "";
    for i := 0 to |parts|
      invariant name == Join(mangled[..i]) && (i > 0 ==> name != "")
    {
      var seg := LowerSeg(parts[i], i + 1 == |parts|, arity);
      JoinNext(segs, arity, i);
      if name != "" { name := name + "__"; }
      name := name + seg;
    }
    assert mangled[..|parts|] == mangled;
  }

  /** Arity is only known for the last segment. */
  method LowerSeg(text: string, last: bool, arity: nat) returns (seg: string)
    ensures seg == MangledSeg(text, if last then arity else 2)
  {
    var n := if last then arity else 2;
    seg := text;
    if |text| <= 3 {
      var gnat := OperatorName(text, n);
      if gnat != "" { seg := gnat; }
    }
  }

  lemma JoinStep(tokens: seq<string>, i: nat)
    requires i < |tokens| && forall k :: 0 <= k < |tokens| ==> tokens[k] != ""
    ensures Join(tokens[..i + 1]) == (if i == 0 then "" else Join(tokens[..i]) + "__") + tokens[i]
    ensures Join(tokens[..i + 1]) != "" && (Join(tokens[..i]) != "" <==> i > 0)
  {
    assert tokens[..i + 1] == tokens[..i] + [tokens[i]];
    if i > 0 {
      JoinMore(tokens[..i], tokens[i]);
      JoinStarts(tokens[..i]);
    }
  }

  lemma MangledNonEmpty(segs: seq<Seg>, arity: nat)
    requires ValidName(segs)
    ensures forall k :: 0 <= k < |segs| ==> MangledSegs(segs, arity)[k] != ""
  {
    forall k | 0 <= k < |segs| ensures MangledSegs(segs, arity)[k] != "" {
      MangledSegsAt(segs, arity, k);
      MangledNotEmpty(segs[k], if k + 1 == |segs| then arity else 2);
    }
  }

  function NewName(profile: Profile): string { Mangled(profile.segs, profile.arity, profile.public) }

  function MangledNames(profiles: seq<Profile>): (r: seq<string>)
    ensures |r| == |profiles|
    ensures forall k :: 0 <= k < |profiles| ==> r[k] == NewName(profiles[k])
  {
    seq(|profiles|, k requires 0 <= k < |profiles| => NewName(profiles[k]))
  }

  /** New names differ from each other, and from the old names of other subprograms. */
  lemma NewsApart(profiles: seq<Profile>, syms: seq<string>, news: seq<string>)
    requires Profiled(syms, profiles) && |news| == |profiles|
    requires forall k :: 0 <= k < |profiles| ==> news[k] == NewName(profiles[k])
    ensures forall i, j :: 0 <= i < |syms| && 0 <= j < |syms| && news[i] == syms[j] ==> i == j
    ensures forall i, j :: 0 <= i < j < |syms| ==> news[i] != news[j]
  {
    forall i, j | 0 <= i < |syms| && 0 <= j < |syms| ensures news[i] == syms[j] || news[i] == news[j] ==> i == j {
      var a, b := profiles[i], profiles[j];
      assert Named(syms[i], a) && Named(syms[j], b);
      if news[i] == news[j] { MangledApart(a.segs, b.segs, a.arity, b.arity, a.public, b.public); }
      if news[i] == syms[j] { MangledIsNoSymbol(a.segs, b.segs, a.arity, a.public); }
    }
  }

  /** The symbols of a module, by its subprograms' profiles. */
  ghost predicate Profiled(syms: seq<string>, profiles: seq<Profile>) {
    && |profiles| == |syms| && (forall i, j :: 0 <= i < j < |syms| ==> syms[i] != syms[j])
    && forall k :: 0 <= k < |syms| ==> Named(syms[k], profiles[k])
  }

  ghost predicate Named(sym: string, profile: Profile) { ValidName(profile.segs) && sym == Symbol(profile.segs) }

  method NameFor(sym: string, profile: Profile) returns (name: string)
    requires Named(sym, profile)
    ensures name == NewName(profile)
  {
    name := MangledName(sym, profile.arity, profile.public, profile.segs);
  }

  /** The mangled names, all computed before any is used. */
  method CollectNames(syms: seq<string>, profiles: seq<Profile>) returns (news: seq<string>)
    requires Profiled(syms, profiles)
    ensures |news| == |profiles|
    ensures forall j :: 0 <= j < |news| ==> news[j] == NewName(profiles[j])
  {
    news := [];
    for k := 0 to |profiles|
      invariant |news| == k
      invariant forall j :: 0 <= j < k ==> news[j] == NewName(profiles[j])
    {
      var name := NameFor(syms[k], profiles[k]);
      news := news + [name];
    }
  }

  /** Mangle every subprogram of a module: the names are distinct, and every reference
    * still leads to the subprogram it did. */
  method MangleModule(m: Module, profiles: seq<Profile>)
    requires Profiled(Syms(m.subps), profiles)
    modifies m
    ensures AllRenamed(old(m.subps), m.subps, MangledNames(profiles))
    ensures forall i, j :: 0 <= i < j < |m.subps| ==> m.subps[i].sym != m.subps[j].sym
  {
    ghost var syms := Syms(m.subps);
    var news := CollectNames(Syms(m.subps), profiles);
    assert news == MangledNames(profiles);
    NewsApart(profiles, syms, news);
    assert forall i, j :: 0 <= i < j < |m.subps| ==> syms[i] != syms[j];
    m.RenameAll(news);
  }
}
