/**
 * A canonical printer for the concrete syntax tree, the inverse of the
 * grammar: conditions of an or-group are joined by ` or `, or-groups by
 * ` and `, fields by `,`, and query groups by one space. Printing a tree and
 * parsing the text gives the tree back (`ParseRender`).
 */
module Printer {
  import opened Wrappers
  import opened Syntax
  import opened Grammar

  /** A raw token as it is; a quoted body between the delimiter it is a body for. */
  function RenderCondition(c: Condition): string
  {
    match c
    case Raw(t) => t
    case Quoted(b) => if IsBody(b, '"') then ['"'] + b + ['"'] else ['\''] + b + ['\'']
  }

  function OrSuffix(cs: seq<Condition>): string
  {
    if cs == [] then [] else " or " + RenderCondition(cs[0]) + OrSuffix(cs[1..])
  }

  function RenderOr(m: Many<Condition>): string
  {
    var cs := ToList(m);
    if cs == [] then [] else RenderCondition(cs[0]) + OrSuffix(cs[1..])
  }

  function AndSuffix(ms: seq<Many<Condition>>): string
  {
    if ms == [] then [] else " and " + RenderOr(ms[0]) + AndSuffix(ms[1..])
  }

  function RenderAnd(m: Many<Many<Condition>>): string
  {
    var ms := ToList(m);
    if ms == [] then [] else RenderOr(ms[0]) + AndSuffix(ms[1..])
  }

  function FieldSuffix(fs: seq<string>): string
  {
    if fs == [] then [] else "," + fs[0] + FieldSuffix(fs[1..])
  }

  function RenderFields(m: Many<string>): string
  {
    var fs := ToList(m);
    if fs == [] then [] else fs[0] + FieldSuffix(fs[1..])
  }

  function RenderGroup(g: Group): string
  {
    RenderFields(g.fieldList) + ": " + RenderAnd(g.andConditions)
  }

  function GroupSuffix(gs: seq<Group>): string
  {
    if gs == [] then [] else " " + RenderGroup(gs[0]) + GroupSuffix(gs[1..])
  }

  function Render(t: Tree): string
  {
    var gs := ToList(t.queries);
    if gs == [] then [] else RenderGroup(gs[0]) + GroupSuffix(gs[1..])
  }

  /**
   * The trees the printer can reproduce: well-formed ones whose raw tokens do
   * not begin with a quote (a parse yields such a token only for an
   * unterminated quote, which a printed quote further on could close).
   */
  predicate RenderableCondition(c: Condition)
  {
    WellFormedCondition(c) && (c.Raw? ==> !IsQuote(c.text[0]))
  }

  predicate RenderableOr(m: Many<Condition>)
  {
    ValidMany(m) && forall c :: c in ToList(m) ==> RenderableCondition(c)
  }

  predicate RenderableGroup(g: Group)
  {
    && ValidMany(g.fieldList)
    && (forall f :: f in ToList(g.fieldList) ==> IsIdentifier(f))
    && ValidMany(g.andConditions)
    && (forall m :: m in ToList(g.andConditions) ==> RenderableOr(m))
  }

  predicate Renderable(t: Tree)
  {
    ValidMany(t.queries) && forall g :: g in ToList(t.queries) ==> RenderableGroup(g)
  }

  // ---------------------------------------------------------------------
  // What may follow each construct in printed text.

  predicate IsFieldChar(c: char)
  {
    IsIdentChar(c) || c == ','
  }

  /** `u` begins with a field list and its colon. */
  predicate FieldStart(u: string)
  {
    var n := Span(IsFieldChar, u);
    0 < n < |u| && IsIdentChar(u[0]) && u[n] == ':'
  }

  /** One space and then the next query group. */
  predicate GroupNext(s: string)
  {
    |s| >= 1 && s[0] == ' ' && FieldStart(s[1..])
  }

  predicate AndFollow(s: string)
  {
    s == [] || GroupNext(s)
  }

  predicate OrFollow(s: string)
  {
    AndFollow(s) || StartsWith(s, " and ")
  }

  // ---------------------------------------------------------------------
  // Lexical facts.

  lemma SpanStops(p: char -> bool, s: string, n: nat)
    requires n <= |s|
    requires forall i :: 0 <= i < n ==> p(s[i])
    requires n == |s| || !p(s[n])
    ensures Span(p, s) == n
  {
  }

  /** A single space before a non-space is what `space` and `space?` consume. */
  lemma OneSpace(x: string)
    requires x == [] || !IsSpace(x[0])
    ensures SkipSpace(" " + x) == x
    ensures Space(" " + x) == Ok((), x)
  {
    SpanStops(IsSpace, " " + x, 1);
    assert (" " + x)[1..] == x;
  }

  lemma {:induction false} QuotedBodyRoundTrip(b: string, q: char, rest: string)
    requires IsQuote(q) && IsBody(b, q)
    ensures QuotedBody(b + [q] + rest, q) == Ok(b, rest)
    decreases |b|
  {
    var s := b + [q] + rest;
    if b == [] {
      assert s == [q] + rest;
      assert s[1..] == rest;
    } else if b[0] == '\\' && |b| >= 2 && IsBody(b[2..], q) {
      assert s[2..] == b[2..] + [q] + rest;
      QuotedBodyRoundTrip(b[2..], q, rest);
      assert s[..2] + b[2..] == b;
    } else {
      assert b[0] != '\\' && b[0] != q && IsBody(b[1..], q);
      assert s[1..] == b[1..] + [q] + rest;
      QuotedBodyRoundTrip(b[1..], q, rest);
      assert s[..1] + b[1..] == b;
    }
  }

  lemma RenderConditionHead(c: Condition)
    requires RenderableCondition(c)
    ensures |RenderCondition(c)| > 0 && !IsSpace(RenderCondition(c)[0])
  {
  }

  lemma RenderOrHead(m: Many<Condition>, x: string)
    requires RenderableOr(m)
    ensures |RenderOr(m) + x| > 0 && !IsSpace((RenderOr(m) + x)[0])
  {
    var cs := ToList(m);
    assert cs[0] in cs;
    RenderConditionHead(cs[0]);
  }

  lemma RenderAndHead(m: Many<Many<Condition>>, x: string)
    requires ValidMany(m) && forall o :: o in ToList(m) ==> RenderableOr(o)
    ensures |RenderAnd(m) + x| > 0 && !IsSpace((RenderAnd(m) + x)[0])
  {
    var ms := ToList(m);
    assert ms[0] in ms;
    RenderOrHead(ms[0], AndSuffix(ms[1..]) + x);
    assert RenderAnd(m) + x == RenderOr(ms[0]) + (AndSuffix(ms[1..]) + x);
  }

  lemma CollectToList<T>(m: Many<T>)
    requires ValidMany(m) && |ToList(m)| > 0
    ensures Collect(ToList(m)[0], ToList(m)[1..]) == m
  {
    if m.Several? {
      assert [m.items[0]] + m.items[1..] == m.items;
    }
  }

  // ---------------------------------------------------------------------
  // One step of each rule, as the rule's body takes it.

  lemma ConditionOfQuoted(s: string, b: string, r: string)
    requires QuotedString(s) == Ok(b, r) && !StartsWith(r, ":")
    ensures ParseCondition(s) == Ok(Quoted(b), r)
  {
  }

  lemma ConditionOfRaw(s: string, t: string, r: string)
    requires QuotedString(s) == Fail && RawCondition(s) == Ok(t, r) && !StartsWith(r, ":")
    ensures ParseCondition(s) == Ok(Raw(t), r)
  {
  }

  lemma ConditionNone(s: string)
    requires QuotedString(s) == Fail && RawCondition(s) == Fail
    ensures ParseCondition(s) == Fail
  {
  }

  lemma OrOpSpelled(x: string)
    requires x == [] || !IsSpace(x[0])
    ensures OrOp(" or " + x) == Ok((), x)
  {
    var s := " or " + x;
    assert s == " " + ("or " + x);
    OneSpace("or " + x);
    var u := "or " + x;
    assert StartsWith(u, "or") && u[2..] == " " + x;
    assert Literal(u, "or") == Ok((), " " + x);
    OneSpace(x);
  }

  lemma OrOpBare(s: string, x: string)
    requires s == " " + x && (x == [] || !IsSpace(x[0]))
    requires !(Literal(x, "or").Ok? && Space(x[2..]).Ok?)
    ensures OrOp(s) == Ok((), x)
  {
    OneSpace(x);
  }

  lemma AndOpSpelled(x: string)
    requires x == [] || !IsSpace(x[0])
    ensures AndOp(" and " + x) == Ok((), x)
  {
    var s := " and " + x;
    var y := "and " + x;
    assert s == " " + y;
    OneSpace(y);
    assert Space(s) == Ok((), y);
    assert StartsWith(y, "and") && y[3..] == " " + x;
    assert Literal(y, "and") == Ok((), " " + x);
    OneSpace(x);
    assert Space(" " + x) == Ok((), x);
  }

  lemma OrTailStep(s: string, r1: string, c: Condition, r2: string)
    requires OrOp(s) == Ok((), r1) && ParseCondition(r1) == Ok(c, r2)
    ensures OrTail(s) == Star([c] + OrTail(r2).items, OrTail(r2).rest)
  {
  }

  lemma OrTailHalt(s: string)
    requires OrOp(s).Fail? || ParseCondition(OrOp(s).rest).Fail?
    ensures OrTail(s) == Star([], s)
  {
  }

  lemma AndTailStep(s: string, r1: string, m: Many<Condition>, r2: string)
    requires AndOp(s) == Ok((), r1) && ParseOrConditions(r1) == Ok(m, r2)
    ensures AndTail(s) == Star([m] + AndTail(r2).items, AndTail(r2).rest)
  {
  }

  lemma AndTailHalt(s: string)
    requires AndOp(s).Fail?
    ensures AndTail(s) == Star([], s)
  {
  }

  lemma OrConditionsStep(s: string, c: Condition, r1: string)
    requires ParseCondition(s) == Ok(c, r1)
    ensures ParseOrConditions(s) == Ok(Collect(c, OrTail(r1).items), OrTail(r1).rest)
  {
  }

  lemma AndConditionsStep(s: string, m: Many<Condition>, r1: string)
    requires ParseOrConditions(s) == Ok(m, r1)
    ensures ParseAndConditions(s) == Ok(Collect(m, AndTail(r1).items), AndTail(r1).rest)
  {
  }

  lemma FieldTailStep(s: string, f: string, r2: string)
    requires Literal(s, ",").Ok? && Identifier(Literal(s, ",").rest) == Ok(f, r2)
    ensures FieldTail(s) == Star([f] + FieldTail(r2).items, FieldTail(r2).rest)
  {
  }

  lemma FieldTailHalt(s: string)
    requires Literal(s, ",").Fail?
    ensures FieldTail(s) == Star([], s)
  {
  }

  lemma MultiFieldStep(s: string, f: string, r1: string)
    requires Identifier(s) == Ok(f, r1)
    ensures MultiField(s) == Ok(Collect(f, FieldTail(r1).items), FieldTail(r1).rest)
  {
  }

  lemma QueryStep(s: string, fs: Many<string>, r1: string)
    requires FieldPrefix(s) == Ok(fs, r1) && ParseAndConditions(r1).Ok?
    ensures ParseQuery(s) == Ok(Group(fs, ParseAndConditions(r1).value), ParseAndConditions(r1).rest)
  {
  }

  lemma QueriesTailStep(s: string, r1: string, g: Group, r2: string)
    requires Space(s) == Ok((), r1) && ParseQuery(r1) == Ok(g, r2)
    ensures QueriesTail(s) == Star([g] + QueriesTail(r2).items, QueriesTail(r2).rest)
  {
  }

  lemma AndQueriesStep(s: string, g: Group, r1: string)
    requires ParseQuery(s) == Ok(g, r1)
    ensures ParseAndQueries(s) == Ok(AndQueries(Collect(g, QueriesTail(r1).items)), QueriesTail(r1).rest)
  {
  }

  // ---------------------------------------------------------------------
  // Where the repetitions stop.

  /** A field list followed by its colon is never a condition. */
  lemma FieldStartNotCondition(u: string)
    requires FieldStart(u)
    ensures ParseCondition(u) == Fail
  {
    var n := Span(IsFieldChar, u);
    assert DelimitedBy(u, '"') == Fail && DelimitedBy(u, '\'') == Fail;
    if !StartsWith(u, "and") {
      SpanStops(IsRawChar, u, n);
      assert u[n..][..1] == ":";
    }
  }

  /** Neither `or` nor `and` followed by whitespace can begin a field list. */
  lemma FieldStartNoWord(u: string, w: string)
    requires FieldStart(u)
    requires w == "or" || w == "and"
    ensures Literal(u, w).Ok? ==> Space(u[|w|..]) == Fail
  {
    if StartsWith(u, w) {
      assert u[..|w|] == w;
      SpanCovers(IsFieldChar, u, |w|);
      NotSpaceAt(u, |w|);
      assert u[|w|..][0] == u[|w|];
    }
  }

  lemma {:induction false} SpanCovers(p: char -> bool, s: string, k: nat)
    requires k <= |s|
    requires forall i :: 0 <= i < k ==> p(s[i])
    ensures Span(p, s) >= k
    decreases k
  {
    if k > 0 {
      assert forall i :: 0 <= i < k - 1 ==> p(s[1..][i]);
      SpanCovers(p, s[1..], k - 1);
    }
  }

  /** Inside a field list and at its colon there is no whitespace. */
  lemma NotSpaceAt(u: string, k: nat)
    requires FieldStart(u) && k <= Span(IsFieldChar, u)
    ensures k < |u| && !IsSpace(u[k])
  {
  }

  /** The or-repetition stops before ` and `: `and` is not a condition. */
  lemma OrTailBeforeAnd(x: string)
    ensures OrTail(" and " + x) == Star([], " and " + x)
  {
    var s := " and " + x;
    var u := "and " + x;
    assert s == " " + u;
    OneSpace(u);
    assert Literal(u, "or") == Fail by { assert u[1] == 'n'; }
    OrOpBare(s, u);
    assert u[..3] == "and";
    assert QuotedString(u) == Fail by { assert u[0] == 'a'; }
    assert RawCondition(u) == Fail;
    ConditionNone(u);
    OrTailHalt(s);
  }

  lemma OrTailStops(s: string)
    requires OrFollow(s)
    ensures OrTail(s) == Star([], s)
  {
    if s == [] {
      OrTailHalt(s);
    } else if StartsWith(s, " and ") {
      var x := s[5..];
      assert s == " and " + x;
      OrTailBeforeAnd(x);
    } else {
      var u := s[1..];
      assert s == " " + u;
      FieldStartNoWord(u, "or");
      OrOpBare(s, u);
      FieldStartNotCondition(u);
      OrTailHalt(s);
    }
  }

  lemma AndTailStops(s: string)
    requires AndFollow(s)
    ensures AndTail(s) == Star([], s)
  {
    if s != [] {
      var u := s[1..];
      assert s == " " + u;
      OneSpace(u);
      FieldStartNoWord(u, "and");
      assert AndOp(s) == Fail;
    }
    AndTailHalt(s);
  }

  // ---------------------------------------------------------------------
  // Round trips, construct by construct.

  lemma ConditionRoundTrip(c: Condition, rest: string)
    requires RenderableCondition(c)
    requires rest == [] || IsSpace(rest[0])
    ensures ParseCondition(RenderCondition(c) + rest) == Ok(c, rest)
  {
    if c.Raw? {
      RawConditionRoundTrip(c.text, rest);
    } else {
      QuotedConditionRoundTrip(c.body, rest);
    }
  }

  lemma RawConditionRoundTrip(t: string, rest: string)
    requires RenderableCondition(Raw(t))
    requires rest == [] || IsSpace(rest[0])
    ensures ParseCondition(t + rest) == Ok(Raw(t), rest)
  {
    var s := t + rest;
    assert QuotedString(s) == Fail by {
      assert s[0] == t[0];
    }
    RawRoundTrip(t, rest);
    ConditionOfRaw(s, t, rest);
  }

  lemma QuotedConditionRoundTrip(b: string, rest: string)
    requires RenderableCondition(Quoted(b))
    requires rest == [] || IsSpace(rest[0])
    ensures ParseCondition(RenderCondition(Quoted(b)) + rest) == Ok(Quoted(b), rest)
  {
    var q := if IsBody(b, '"') then '"' else '\'';
    assert RenderCondition(Quoted(b)) == [q] + b + [q];
    QuotedStringRoundTrip(b, q, rest);
    ConditionOfQuoted([q] + b + [q] + rest, b, rest);
  }

  lemma QuotedStringRoundTrip(b: string, q: char, rest: string)
    requires IsQuote(q) && IsBody(b, q)
    ensures QuotedString([q] + b + [q] + rest) == Ok(b, rest)
  {
    var s := [q] + b + [q] + rest;
    DelimitedRoundTrip(b, q, rest);
    if q == '\'' {
      assert s[0] == '\'';
      assert DelimitedBy(s, '"') == Fail;
    }
  }

  lemma DelimitedRoundTrip(b: string, q: char, rest: string)
    requires IsQuote(q) && IsBody(b, q)
    ensures DelimitedBy([q] + b + [q] + rest, q) == Ok(b, rest)
  {
    var s := [q] + b + [q] + rest;
    assert s[1..] == b + [q] + rest;
    QuotedBodyRoundTrip(b, q, rest);
  }

  lemma RawRoundTrip(t: string, rest: string)
    requires IsRawToken(t)
    requires rest == [] || !IsRawChar(rest[0])
    ensures RawCondition(t + rest) == Ok(t, rest)
  {
    var s := t + rest;
    assert !StartsWith(s, "and") by {
      if |t| >= 3 {
        assert s[..3] == t[..3];
      } else if |s| >= 3 {
        assert s[|t|] == rest[0];
        assert "and"[|t|] != rest[0];
      }
    }
    SpanStops(IsRawChar, s, |t|);
    assert s[..|t|] == t && s[|t|..] == rest;
  }

  lemma OrTailCons(c: Condition, tail: string)
    requires RenderableCondition(c)
    requires tail == [] || IsSpace(tail[0])
    ensures OrTail(" or " + (RenderCondition(c) + tail)) == Star([c] + OrTail(tail).items, OrTail(tail).rest)
  {
    var x := RenderCondition(c) + tail;
    RenderConditionHead(c);
    OrOpSpelled(x);
    ConditionRoundTrip(c, tail);
    OrTailStep(" or " + x, x, c, tail);
  }

  lemma OrSuffixCons(cs: seq<Condition>, rest: string)
    requires cs != []
    ensures OrSuffix(cs) + rest == " or " + (RenderCondition(cs[0]) + (OrSuffix(cs[1..]) + rest))
  {
  }

  lemma OrSuffixFollow(cs: seq<Condition>, rest: string)
    requires OrFollow(rest)
    ensures OrSuffix(cs) + rest == [] || IsSpace((OrSuffix(cs) + rest)[0])
  {
    if cs == [] {
      assert OrSuffix(cs) + rest == rest;
    }
  }

  lemma {:induction false} OrTailRoundTrip(cs: seq<Condition>, rest: string)
    requires forall c :: c in cs ==> RenderableCondition(c)
    requires OrFollow(rest)
    ensures OrTail(OrSuffix(cs) + rest) == Star(cs, rest)
    decreases |cs|
  {
    if cs == [] {
      assert OrSuffix(cs) + rest == rest;
      OrTailStops(rest);
    } else {
      assert cs[0] in cs;
      OrSuffixCons(cs, rest);
      OrSuffixFollow(cs[1..], rest);
      OrTailCons(cs[0], OrSuffix(cs[1..]) + rest);
      OrTailRoundTrip(cs[1..], rest);
      assert [cs[0]] + cs[1..] == cs;
    }
  }

  lemma OrRoundTrip(m: Many<Condition>, rest: string)
    requires RenderableOr(m)
    requires OrFollow(rest)
    ensures ParseOrConditions(RenderOr(m) + rest) == Ok(m, rest)
  {
    var cs := ToList(m);
    assert cs[0] in cs;
    var tail := OrSuffix(cs[1..]) + rest;
    RenderOrCons(m, rest);
    OrSuffixFollow(cs[1..], rest);
    ConditionRoundTrip(cs[0], tail);
    OrConditionsStep(RenderOr(m) + rest, cs[0], tail);
    OrTailRoundTrip(cs[1..], rest);
    CollectToList(m);
  }

  lemma RenderOrCons(m: Many<Condition>, rest: string)
    requires |ToList(m)| > 0
    ensures RenderOr(m) + rest == RenderCondition(ToList(m)[0]) + (OrSuffix(ToList(m)[1..]) + rest)
  {
  }

  lemma AndTailCons(m: Many<Condition>, tail: string)
    requires RenderableOr(m)
    requires OrFollow(tail)
    ensures AndTail(" and " + (RenderOr(m) + tail)) == Star([m] + AndTail(tail).items, AndTail(tail).rest)
  {
    var x := RenderOr(m) + tail;
    RenderOrHead(m, tail);
    AndOpSpelled(x);
    OrRoundTrip(m, tail);
    AndTailStep(" and " + x, x, m, tail);
  }

  lemma AndSuffixCons(ms: seq<Many<Condition>>, rest: string)
    requires ms != []
    ensures AndSuffix(ms) + rest == " and " + (RenderOr(ms[0]) + (AndSuffix(ms[1..]) + rest))
  {
  }

  lemma AndSuffixFollow(ms: seq<Many<Condition>>, rest: string)
    requires AndFollow(rest)
    ensures OrFollow(AndSuffix(ms) + rest)
  {
    if ms == [] {
      assert AndSuffix(ms) + rest == rest;
    } else {
      AndSuffixCons(ms, rest);
    }
  }

  lemma {:induction false} AndTailRoundTrip(ms: seq<Many<Condition>>, rest: string)
    requires forall m :: m in ms ==> RenderableOr(m)
    requires AndFollow(rest)
    ensures AndTail(AndSuffix(ms) + rest) == Star(ms, rest)
    decreases |ms|
  {
    if ms == [] {
      assert AndSuffix(ms) + rest == rest;
      AndTailStops(rest);
    } else {
      assert ms[0] in ms;
      AndSuffixCons(ms, rest);
      AndSuffixFollow(ms[1..], rest);
      AndTailCons(ms[0], AndSuffix(ms[1..]) + rest);
      AndTailRoundTrip(ms[1..], rest);
      assert [ms[0]] + ms[1..] == ms;
    }
  }

  lemma RenderAndCons(m: Many<Many<Condition>>, rest: string)
    requires |ToList(m)| > 0
    ensures RenderAnd(m) + rest == RenderOr(ToList(m)[0]) + (AndSuffix(ToList(m)[1..]) + rest)
  {
  }

  lemma AndRoundTrip(m: Many<Many<Condition>>, rest: string)
    requires ValidMany(m) && forall o :: o in ToList(m) ==> RenderableOr(o)
    requires AndFollow(rest)
    ensures ParseAndConditions(RenderAnd(m) + rest) == Ok(m, rest)
  {
    var ms := ToList(m);
    assert ms[0] in ms;
    var tail := AndSuffix(ms[1..]) + rest;
    RenderAndCons(m, rest);
    AndSuffixFollow(ms[1..], rest);
    OrRoundTrip(ms[0], tail);
    AndConditionsStep(RenderAnd(m) + rest, ms[0], tail);
    AndTailRoundTrip(ms[1..], rest);
    CollectToList(m);
  }

  lemma IdentifierRoundTrip(f: string, rest: string)
    requires IsIdentifier(f)
    requires rest == [] || !IsIdentChar(rest[0])
    ensures Identifier(f + rest) == Ok(f, rest)
  {
    SpanStops(IsIdentChar, f + rest, |f|);
    assert (f + rest)[..|f|] == f && (f + rest)[|f|..] == rest;
  }

  /** What may follow an identifier of a printed field list. */
  predicate FieldFollow(s: string)
  {
    |s| > 0 && (s[0] == ',' || s[0] == ':')
  }

  lemma FieldTailCons(f: string, tail: string)
    requires IsIdentifier(f) && FieldFollow(tail)
    ensures FieldTail("," + (f + tail)) == Star([f] + FieldTail(tail).items, FieldTail(tail).rest)
  {
    assert Literal("," + (f + tail), ",") == Ok((), f + tail);
    IdentifierRoundTrip(f, tail);
    FieldTailStep("," + (f + tail), f, tail);
  }

  lemma FieldSuffixFollow(fs: seq<string>, rest: string)
    requires StartsWith(rest, ":")
    ensures FieldFollow(FieldSuffix(fs) + rest)
  {
    if fs == [] {
      assert FieldSuffix(fs) + rest == rest;
    } else {
      assert FieldSuffix(fs) + rest == "," + (fs[0] + FieldSuffix(fs[1..]) + rest);
    }
  }

  lemma FieldSuffixCons(fs: seq<string>, rest: string)
    requires fs != []
    ensures FieldSuffix(fs) + rest == "," + (fs[0] + (FieldSuffix(fs[1..]) + rest))
  {
  }

  lemma {:induction false} FieldTailRoundTrip(fs: seq<string>, rest: string)
    requires forall f :: f in fs ==> IsIdentifier(f)
    requires StartsWith(rest, ":")
    ensures FieldTail(FieldSuffix(fs) + rest) == Star(fs, rest)
    decreases |fs|
  {
    if fs == [] {
      assert FieldSuffix(fs) + rest == rest;
      assert rest[..1] != ",";
      FieldTailHalt(rest);
    } else {
      assert fs[0] in fs;
      FieldSuffixCons(fs, rest);
      FieldSuffixFollow(fs[1..], rest);
      FieldTailCons(fs[0], FieldSuffix(fs[1..]) + rest);
      FieldTailRoundTrip(fs[1..], rest);
      assert [fs[0]] + fs[1..] == fs;
    }
  }

  lemma RenderFieldsCons(m: Many<string>, rest: string)
    requires |ToList(m)| > 0
    ensures RenderFields(m) + rest == ToList(m)[0] + (FieldSuffix(ToList(m)[1..]) + rest)
  {
  }

  lemma MultiFieldRoundTrip(m: Many<string>, rest: string)
    requires ValidMany(m) && forall f :: f in ToList(m) ==> IsIdentifier(f)
    requires StartsWith(rest, ":")
    ensures MultiField(RenderFields(m) + rest) == Ok(m, rest)
  {
    var fs := ToList(m);
    assert fs[0] in fs;
    var tail := FieldSuffix(fs[1..]) + rest;
    RenderFieldsCons(m, rest);
    FieldSuffixFollow(fs[1..], rest);
    IdentifierRoundTrip(fs[0], tail);
    MultiFieldStep(RenderFields(m) + rest, fs[0], tail);
    FieldTailRoundTrip(fs[1..], rest);
    CollectToList(m);
  }

  lemma {:induction false} FieldSuffixChars(fs: seq<string>)
    requires forall f :: f in fs ==> IsIdentifier(f)
    ensures forall i :: 0 <= i < |FieldSuffix(fs)| ==> IsFieldChar(FieldSuffix(fs)[i])
    decreases |fs|
  {
    if fs != [] {
      assert fs[0] in fs;
      FieldSuffixChars(fs[1..]);
      var a := "," + fs[0];
      assert forall i :: 0 <= i < |a| ==> IsFieldChar(a[i]);
      assert FieldSuffix(fs) == a + FieldSuffix(fs[1..]);
    }
  }

  lemma RenderFieldsChars(m: Many<string>)
    requires ValidMany(m) && forall f :: f in ToList(m) ==> IsIdentifier(f)
    ensures |RenderFields(m)| > 0 && IsIdentChar(RenderFields(m)[0])
    ensures forall i :: 0 <= i < |RenderFields(m)| ==> IsFieldChar(RenderFields(m)[i])
  {
    var fs := ToList(m);
    assert fs[0] in fs;
    var rf := RenderFields(m);
    var sf := FieldSuffix(fs[1..]);
    FieldSuffixChars(fs[1..]);
    assert rf == fs[0] + sf;
    forall i | 0 <= i < |rf| ensures IsFieldChar(rf[i]) {
      if i < |fs[0]| { assert rf[i] == fs[0][i]; }
      else { assert rf[i] == sf[i - |fs[0]|]; }
    }
  }

  lemma FieldStartOf(rf: string, y: string)
    requires |rf| > 0 && IsIdentChar(rf[0])
    requires forall i :: 0 <= i < |rf| ==> IsFieldChar(rf[i])
    requires StartsWith(y, ":")
    ensures FieldStart(rf + y)
  {
    var u := rf + y;
    assert u[|rf|] == y[0];
    SpanStops(IsFieldChar, u, |rf|);
  }

  /** A printed group begins with its field list and colon. */
  lemma GroupFieldStart(g: Group, x: string)
    requires RenderableGroup(g)
    ensures FieldStart(RenderGroup(g) + x)
  {
    var rf := RenderFields(g.fieldList);
    RenderFieldsChars(g.fieldList);
    var y := ": " + RenderAnd(g.andConditions) + x;
    assert RenderGroup(g) + x == rf + y;
    FieldStartOf(rf, y);
  }

  lemma QueryRoundTrip(g: Group, rest: string)
    requires RenderableGroup(g)
    requires AndFollow(rest)
    ensures ParseQuery(RenderGroup(g) + rest) == Ok(g, rest)
  {
    var ra := RenderAnd(g.andConditions) + rest;
    var s := RenderGroup(g) + rest;
    RenderGroupSplit(g, rest);
    MultiFieldRoundTrip(g.fieldList, ": " + ra);
    RenderAndHead(g.andConditions, rest);
    FieldPrefixOf(s, g.fieldList, ra);
    AndRoundTrip(g.andConditions, rest);
    QueryStep(s, g.fieldList, ra);
  }

  lemma RenderGroupSplit(g: Group, rest: string)
    ensures RenderGroup(g) + rest == RenderFields(g.fieldList) + (": " + (RenderAnd(g.andConditions) + rest))
  {
  }

  lemma SkipColonSpace(ra: string)
    requires ra == [] || !IsSpace(ra[0])
    ensures SkipSpace((": " + ra)[1..]) == ra
  {
    assert (": " + ra)[1..] == " " + ra;
    OneSpace(ra);
  }

  lemma FieldPrefixOf(s: string, fs: Many<string>, ra: string)
    requires MultiField(s) == Ok(fs, ": " + ra)
    requires ra == [] || !IsSpace(ra[0])
    ensures FieldPrefix(s) == Ok(fs, ra)
  {
    SkipColonSpace(ra);
  }

  lemma GroupSuffixCons(gs: seq<Group>)
    requires gs != []
    ensures GroupSuffix(gs) == " " + (RenderGroup(gs[0]) + GroupSuffix(gs[1..]))
    ensures GroupSuffix(gs)[1..] == RenderGroup(gs[0]) + GroupSuffix(gs[1..])
  {
    var x := RenderGroup(gs[0]) + GroupSuffix(gs[1..]);
    Associate(" ", RenderGroup(gs[0]), GroupSuffix(gs[1..]));
    assert (" " + x)[1..] == x;
  }

  lemma Associate(a: string, b: string, c: string)
    ensures a + b + c == a + (b + c)
  {
  }

  /** What follows a printed group that is not the last one. */
  lemma GroupSuffixFollow(gs: seq<Group>)
    requires forall g :: g in gs ==> RenderableGroup(g)
    ensures AndFollow(GroupSuffix(gs))
  {
    if gs != [] {
      assert gs[0] in gs;
      GroupFieldStart(gs[0], GroupSuffix(gs[1..]));
      GroupSuffixCons(gs);
    }
  }

  lemma QueriesTailCons(g: Group, tail: string)
    requires RenderableGroup(g) && AndFollow(tail)
    ensures QueriesTail(" " + (RenderGroup(g) + tail)) == Star([g] + QueriesTail(tail).items, QueriesTail(tail).rest)
  {
    var x := RenderGroup(g) + tail;
    GroupFieldStart(g, tail);
    OneSpace(x);
    QueryRoundTrip(g, tail);
    QueriesTailStep(" " + x, x, g, tail);
  }

  lemma {:induction false} QueriesTailRoundTrip(gs: seq<Group>)
    requires forall g :: g in gs ==> RenderableGroup(g)
    ensures QueriesTail(GroupSuffix(gs)) == Star(gs, [])
    decreases |gs|
  {
    if gs == [] {
      assert Space([]) == Fail;
    } else {
      assert gs[0] in gs;
      GroupSuffixCons(gs);
      GroupSuffixFollow(gs[1..]);
      QueriesTailCons(gs[0], GroupSuffix(gs[1..]));
      QueriesTailRoundTrip(gs[1..]);
      assert [gs[0]] + gs[1..] == gs;
    }
  }

  lemma RenderCons(t: Tree)
    requires |ToList(t.queries)| > 0
    ensures Render(t) == RenderGroup(ToList(t.queries)[0]) + GroupSuffix(ToList(t.queries)[1..])
  {
  }

  /** Printing a renderable tree and parsing the text gives the tree back. */
  lemma ParseRender(t: Tree)
    requires Renderable(t)
    ensures Parse(Render(t)) == Some(t)
  {
    var gs := ToList(t.queries);
    assert gs[0] in gs;
    var tail := GroupSuffix(gs[1..]);
    RenderCons(t);
    GroupSuffixFollow(gs[1..]);
    QueryRoundTrip(gs[0], tail);
    QueriesTailRoundTrip(gs[1..]);
    AndQueriesStep(Render(t), gs[0], tail);
    CollectToList(t.queries);
    assert SkipSpace([]) == [];
  }
}
