/**
 * Worked inputs from the grammar's comments and its edge cases, each parsed
 * (or rejected) step by step.
 */
module Examples {
  import opened Wrappers
  import opened Syntax
  import opened Grammar
  import opened Printer
  import opened GrammarFacts
  import opened Ast
  import opened Transformer

  lemma Word(t: string, r: string)
    requires IsRawToken(t) && !IsQuote(t[0])
    requires r == [] || IsSpace(r[0])
    ensures ParseCondition(t + r) == Ok(Raw(t), r)
  {
    RawConditionRoundTrip(t, r);
  }

  /** A one-field prefix `f: `. */
  lemma OneField(f: string, ra: string)
    requires IsIdentifier(f)
    requires ra == [] || !IsSpace(ra[0])
    ensures FieldPrefix(f + ": " + ra) == Ok(One(f), ra)
  {
    var s := f + (": " + ra);
    assert f + ": " + ra == s;
    IdentifierRoundTrip(f, ": " + ra);
    FieldTailHalt(": " + ra);
    MultiFieldStep(s, f, ": " + ra);
    FieldPrefixOf(s, One(f), ra);
  }

  lemma LastWord(t: string)
    requires IsRawToken(t) && !IsQuote(t[0])
    ensures ParseOrConditions(t) == Ok(One(Raw(t)), [])
  {
    Word(t, []);
    assert t + [] == t;
    OrTailHalt([]);
    OrConditionsStep(t, Raw(t), []);
  }

  lemma Finish(s: string, g: Group)
    requires ParseQuery(s) == Ok(g, [])
    ensures Parse(s) == Some(AndQueries(One(g)))
  {
    assert Space([]) == Fail;
    AndQueriesStep(s, g, []);
    assert SkipSpace([]) == [];
  }

  /** A word is a raw token that is not quoted and is not the keyword `or`. */
  predicate IsWord(t: string)
  {
    IsRawToken(t) && !IsQuote(t[0]) && t != "or"
  }

  /** After a bare space, a word that is not `or` starts a condition, not an `or_op` word. */
  lemma BareSeparator(b: string, x: string)
    requires IsWord(b)
    requires x == [] || !IsRawChar(x[0])
    ensures OrOp(" " + (b + x)) == Ok((), b + x)
  {
    var y := b + x;
    if |b| == 1 {
      assert |y| >= 2 ==> y[..2][1] == x[0];
    } else if |b| == 2 {
      assert y[..2] == b;
    } else {
      assert y[2..][0] == b[2];
    }
    OrOpBare(" " + y, y);
  }

  lemma OrTailWord(b: string, x: string)
    requires IsWord(b)
    ensures OrTail(" " + (b + (" and " + x))) == Star([Raw(b)], " and " + x)
  {
    var r := " and " + x;
    BareSeparator(b, r);
    Word(b, r);
    OrTailStep(" " + (b + r), b + r, Raw(b), r);
    OrTailBeforeAnd(x);
  }

  /** `a b and ...`: two words separated by a space are one or-group. */
  lemma OrPair(a: string, b: string, x: string)
    requires IsWord(a) && IsWord(b)
    ensures ParseOrConditions(a + (" " + (b + (" and " + x)))) == Ok(Several([Raw(a), Raw(b)]), " and " + x)
  {
    var r := " " + (b + (" and " + x));
    Word(a, r);
    OrTailWord(b, x);
    OrConditionsStep(a + r, Raw(a), r);
    assert [Raw(a)] + [Raw(b)] == [Raw(a), Raw(b)];
  }

  lemma AndTailLast(c: string)
    requires IsWord(c)
    ensures AndTail(" and " + c) == Star([One(Raw(c))], [])
  {
    AndOpSpelled(c);
    LastWord(c);
    AndTailHalt([]);
    AndTailStep(" and " + c, c, One(Raw(c)), []);
  }

  lemma PrecedenceText(f: string, a: string, b: string, c: string)
    ensures f + ": " + a + " " + b + " and " + c == f + ": " + (a + (" " + (b + (" and " + c))))
  {
  }

  lemma AndsOfPair(a: string, b: string, c: string)
    requires IsWord(a) && IsWord(b) && IsWord(c)
    ensures ParseAndConditions(a + (" " + (b + (" and " + c))))
      == Ok(Several([Several([Raw(a), Raw(b)]), One(Raw(c))]), [])
  {
    OrPair(a, b, c);
    AndTailLast(c);
    AndsOf(a + (" " + (b + (" and " + c))), Several([Raw(a), Raw(b)]), " and " + c, One(Raw(c)));
  }

  /** An or-group followed by one more or-group after ` and `. */
  lemma AndsOf(s: string, m1: Many<Condition>, r: string, m2: Many<Condition>)
    requires ParseOrConditions(s) == Ok(m1, r)
    requires AndTail(r) == Star([m2], [])
    ensures ParseAndConditions(s) == Ok(Several([m1, m2]), [])
  {
    AndConditionsStep(s, m1, r);
    assert ParseAndConditions(s) == Ok(Collect(m1, [m2]), []);
    CollectTwo(m1, m2);
  }

  lemma CollectTwo<T>(x: T, y: T)
    ensures Collect(x, [y]) == Several([x, y])
  {
    assert [x] + [y] == [x, y];
  }

  /**
   * `and` binds looser than whitespace: `f: a b and c` is one group whose
   * and-conditions are `[[a, b], [c]]`.
   */
  lemma Precedence(f: string, a: string, b: string, c: string)
    requires IsIdentifier(f) && IsWord(a) && IsWord(b) && IsWord(c)
    ensures Parse(f + ": " + a + " " + b + " and " + c)
      == Some(AndQueries(One(Group(One(f), Several([Several([Raw(a), Raw(b)]), One(Raw(c))])))))
  {
    var body := a + (" " + (b + (" and " + c)));
    var s := f + ": " + body;
    PrecedenceText(f, a, b, c);
    OneField(f, body);
    AndsOfPair(a, b, c);
    QueryStep(s, One(f), body);
    Finish(s, Group(One(f), Several([Several([Raw(a), Raw(b)]), One(Raw(c))])));
  }

  // ---------------------------------------------------------------------
  // A token before a colon starts a new group

  lemma ColonField(g: string, c: string)
    requires IsIdentifier(g)
    requires c == [] || !IsSpace(c[0])
    ensures FieldPrefix(g + ":" + c) == Ok(One(g), c)
  {
    var s := g + (":" + c);
    assert g + ":" + c == s;
    IdentifierRoundTrip(g, ":" + c);
    FieldTailHalt(":" + c);
    MultiFieldStep(s, g, ":" + c);
    assert (":" + c)[1..] == c;
    SpanStops(IsSpace, c, 0);
  }

  /** `g:c` as a whole group. */
  lemma ColonGroup(g: string, c: string)
    requires IsIdentifier(g) && IsWord(c)
    ensures ParseQuery(g + ":" + c) == Ok(Group(One(g), One(One(Raw(c)))), [])
  {
    ColonField(g, c);
    LastWord(c);
    AndTailHalt([]);
    AndConditionsStep(c, One(Raw(c)), []);
    QueryStep(g + ":" + c, One(g), c);
  }

  /** An or-group of one condition. */
  lemma OrOne(s: string, c: Condition, r: string)
    requires ParseCondition(s) == Ok(c, r) && OrTail(r) == Star([], r)
    ensures ParseOrConditions(s) == Ok(One(c), r)
  {
    OrConditionsStep(s, c, r);
  }

  /** And-conditions of one or-group. */
  lemma AndOne(s: string, m: Many<Condition>, r: string)
    requires ParseOrConditions(s) == Ok(m, r) && AndTail(r) == Star([], r)
    ensures ParseAndConditions(s) == Ok(One(m), r)
  {
    AndConditionsStep(s, m, r);
  }

  lemma OrTailBeforeField(g: string, c: string)
    requires IsWord(g)
    ensures OrTail(" " + (g + (":" + c))) == Star([], " " + (g + (":" + c)))
  {
    BareSeparator(g, ":" + c);
    RawBeforeColon(g, c);
    assert g + ":" + c == g + (":" + c);
    OrTailHalt(" " + (g + (":" + c)));
  }

  lemma AndTailBeforeField(g: string, c: string)
    requires IsWord(g)
    ensures AndTail(" " + (g + (":" + c))) == Star([], " " + (g + (":" + c)))
  {
    var u := g + (":" + c);
    OneSpace(u);
    assert !StartsWith(u, "and") by {
      assert |g| >= 3 ==> u[..3] == g[..3];
      assert |g| < 3 ==> u[|g|] == ':';
    }
    AndTailHalt(" " + u);
  }

  /** Before ` g:c`, neither the or- nor the and-repetition goes on. */
  lemma StopsBeforeField(a: string, g: string, c: string)
    requires IsWord(a) && IsWord(g)
    ensures ParseAndConditions(a + (" " + (g + (":" + c)))) == Ok(One(One(Raw(a))), " " + (g + (":" + c)))
  {
    var r := " " + (g + (":" + c));
    Word(a, r);
    OrTailBeforeField(g, c);
    OrOne(a + r, Raw(a), r);
    AndTailBeforeField(g, c);
    AndOne(a + r, One(Raw(a)), r);
  }

  lemma TwoGroupsText(f: string, a: string, g: string, c: string)
    ensures f + ": " + a + " " + g + ":" + c == f + ": " + (a + (" " + (g + (":" + c))))
    ensures g + (":" + c) == g + ":" + c
  {
  }

  lemma FirstOfTwo(f: string, a: string, g: string, c: string)
    requires IsIdentifier(f) && IsWord(a) && IsWord(g)
    ensures ParseQuery(f + ": " + (a + (" " + (g + (":" + c)))))
      == Ok(Group(One(f), One(One(Raw(a)))), " " + (g + (":" + c)))
  {
    var body := a + (" " + (g + (":" + c)));
    OneField(f, body);
    StopsBeforeField(a, g, c);
    QueryStep(f + ": " + body, One(f), body);
  }

  lemma SecondOfTwo(g: string, c: string)
    requires IsIdentifier(g) && IsWord(c)
    ensures QueriesTail(" " + (g + (":" + c))) == Star([Group(One(g), One(One(Raw(c))))], [])
  {
    var u := g + (":" + c);
    assert g + ":" + c == u;
    ColonGroup(g, c);
    OneSpace(u);
    LastGroup(" " + u, u, Group(One(g), One(One(Raw(c)))));
  }

  lemma LastGroup(s: string, u: string, g: Group)
    requires Space(s) == Ok((), u) && ParseQuery(u) == Ok(g, [])
    ensures QueriesTail(s) == Star([g], [])
  {
    assert Space([]) == Fail;
    QueriesTailStep(s, u, g, []);
  }

  lemma FinishTwo(s: string, g1: Group, r: string, g2: Group)
    requires ParseQuery(s) == Ok(g1, r) && QueriesTail(r) == Star([g2], [])
    ensures Parse(s) == Some(AndQueries(Several([g1, g2])))
  {
    AndQueriesStep(s, g1, r);
    assert [g1] + [g2] == [g1, g2];
    assert SkipSpace([]) == [];
  }

  /**
   * In `f: a g:c` the token `g` is not a condition of `f`: it cannot stand
   * before a colon, so `g:c` is read as a second group.
   */
  lemma TokenBeforeColonStartsGroup(f: string, a: string, g: string, c: string)
    requires IsIdentifier(f) && IsWord(a) && IsIdentifier(g) && IsWord(g) && IsWord(c)
    ensures Parse(f + ": " + a + " " + g + ":" + c)
      == Some(AndQueries(Several([Group(One(f), One(One(Raw(a)))), Group(One(g), One(One(Raw(c))))])))
  {
    TwoGroupsText(f, a, g, c);
    FirstOfTwo(f, a, g, c);
    SecondOfTwo(g, c);
    FinishTwo(f + ": " + (a + (" " + (g + (":" + c)))), Group(One(f), One(One(Raw(a)))),
      " " + (g + (":" + c)), Group(One(g), One(One(Raw(c)))));
  }

  // ---------------------------------------------------------------------
  // Rejected inputs

  /** A word beginning with `and` is no condition, so `f: android` does not parse. */
  lemma AndWordRejected(f: string, x: string)
    requires IsIdentifier(f)
    ensures Parse(f + ": " + ("and" + x)) == None
  {
    var s := f + ": " + ("and" + x);
    OneField(f, "and" + x);
    AndPrefixRejected(x);
    assert ParseOrConditions("and" + x) == Fail;
    assert ParseAndConditions("and" + x) == Fail;
    assert ParseQuery(s) == Fail;
  }

  lemma AndTailNoOr(s: string)
    requires AndOp(s).Ok? && ParseOrConditions(AndOp(s).rest).Fail?
    ensures AndTail(s) == Star([], s)
  {
  }

  lemma QueriesTailNoQuery(s: string)
    requires Space(s).Ok? && ParseQuery(Space(s).rest).Fail?
    ensures QueriesTail(s) == Star([], s)
  {
  }

  lemma AndsBeforeDoubleAnd(a: string, x: string)
    requires IsWord(a)
    ensures ParseAndConditions(a + (" and " + ("and" + x))) == Ok(One(One(Raw(a))), " and " + ("and" + x))
  {
    var r := " and " + ("and" + x);
    Word(a, r);
    OrTailBeforeAnd("and" + x);
    OrOne(a + r, Raw(a), r);
    AndOpSpelled("and" + x);
    AndPrefixRejected(x);
    assert ParseOrConditions("and" + x) == Fail;
    AndTailNoOr(r);
    AndOne(a + r, One(Raw(a)), r);
  }

  lemma NoGroupAfterDoubleAnd(x: string)
    ensures QueriesTail(" and " + ("and" + x)) == Star([], " and " + ("and" + x))
    ensures SkipSpace(" and " + ("and" + x)) != []
  {
    var r := " and " + ("and" + x);
    assert r == " " + ("and " + ("and" + x));
    OneSpace("and " + ("and" + x));
    AndField(x);
    QueriesTailNoQuery(r);
  }

  lemma FinishUnread(s: string, g: Group, r: string)
    requires ParseQuery(s) == Ok(g, r) && QueriesTail(r) == Star([], r) && SkipSpace(r) != []
    ensures Parse(s) == None
  {
    AndQueriesStep(s, g, r);
  }

  /** `and and`: the second `and` is neither a condition nor a field, so the parse fails. */
  lemma DoubleAndRejected(f: string, a: string, x: string)
    requires IsIdentifier(f) && IsWord(a)
    ensures Parse(f + ": " + a + " and and" + x) == None
  {
    var r := " and " + ("and" + x);
    var body := a + r;
    var s := f + ": " + body;
    assert f + ": " + a + " and and" + x == s;
    OneField(f, body);
    AndsBeforeDoubleAnd(a, x);
    QueryStep(s, One(f), body);
    NoGroupAfterDoubleAnd(x);
    FinishUnread(s, Group(One(f), One(One(Raw(a)))), r);
  }

  /** `and ...` is not a group either: no colon follows the identifier `and`. */
  lemma AndField(x: string)
    ensures ParseQuery("and " + ("and" + x)) == Fail
  {
    var s := "and " + ("and" + x);
    assert s == "and" + (" " + ("and" + x));
    IdentifierRoundTrip("and", " " + ("and" + x));
    FieldTailHalt(" " + ("and" + x));
    MultiFieldStep(s, "and", " " + ("and" + x));
  }

  /** Without a field prefix there is no query: `foo and bar` does not parse. */
  lemma NoFieldRejected()
    ensures Parse("foo and bar") == None
  {
    NoColonNoParse("foo and bar");
  }

  // ---------------------------------------------------------------------
  // Quoting

  /** `'it\'s'`: the escaped quote stays in the value, backslash included. */
  lemma EscapeKept()
    ensures QuotedString("'it\\'s'") == Ok("it\\'s", [])
  {
    assert IsBody("it\\'s", '\'');
    assert "'it\\'s'" == ['\''] + "it\\'s" + ['\''] + [];
    QuotedStringRoundTrip("it\\'s", '\'', []);
  }

  // ---------------------------------------------------------------------
  // Whole pipeline

  /** A query of one field and one condition. */
  lemma SingleCondition(f: string, c: Condition)
    requires IsIdentifier(f) && RenderableCondition(c)
    ensures Parse(f + ": " + RenderCondition(c)) == Some(AndQueries(One(Group(One(f), One(One(c))))))
  {
    var x := RenderCondition(c);
    var s := f + ": " + x;
    RenderConditionHead(c);
    OneField(f, x);
    ConditionRoundTrip(c, []);
    assert x + [] == x;
    OrTailHalt([]);
    OrOne(x, c, []);
    AndTailHalt([]);
    AndOne(x, One(c), []);
    QueryStep(s, One(f), x);
    Finish(s, Group(One(f), One(One(c))));
  }

  /** Its document: every level is kept although each array has one element. */
  lemma SingleDocument(k: Collapse, f: string, c: Condition)
    ensures QueryDoc(k, AndQueries(One(Group(One(f), One(One(c))))))
      == Entry(Sym("query"), Entry(Sym("bool"), Entry(Sym("must"), List([
           Entry(Sym("bool"), Entry(Sym("should"), List([
             Entry(Sym("bool"), Entry(Sym("must"), List([
               Entry(Sym("terms"), Entry(Str(f), List([Value(k, c)])))])))])))]))))
  {
    var g := Group(One(f), One(One(c)));
    var td := Entry(Sym("terms"), Entry(Str(f), List([Value(k, c)])));
    assert ValueList(k, [c]) == [Value(k, c)];
    assert TermsDoc(k, f, One(c)) == td;
    assert FieldClauses(k, f, g) == [td];
    var fd := Entry(Sym("bool"), Entry(Sym("must"), List([td])));
    assert GroupClauses(k, g) == [fd];
    var gd := Entry(Sym("bool"), Entry(Sym("should"), List([fd])));
    assert QueryClauses(k, AndQueries(One(g))) == [gd];
  }

  lemma EmptyText(f: string)
    ensures f + ": \"\"" == f + ": " + "\"\""
  {
  }

  lemma EmptyRender()
    ensures RenderCondition(Quoted("")) == "\"\""
    ensures RenderableCondition(Quoted(""))
  {
  }

  lemma EmptyParse(f: string)
    requires IsIdentifier(f)
    ensures Parse(f + ": \"\"") == Some(AndQueries(One(Group(One(f), One(One(Quoted("")))))))
  {
    EmptyRender();
    EmptyText(f);
    SingleCondition(f, Quoted(""));
  }

  /**
   * `f: ""` as the code is written: the empty body is captured as an empty
   * array, which the `simple` rules leave in place, so the value that reaches
   * `Terms`, and the document, is the hash `{condition: {str: []}}` and not
   * the empty string.
   */
  lemma EmptyQuotedAsWritten(f: string)
    requires IsIdentifier(f)
    ensures Parse(f + ": \"\"") == Some(AndQueries(One(Group(One(f), One(One(Quoted("")))))))
    ensures Translate(AsWritten, f + ": \"\"")
      == Some(Entry(Sym("query"), Entry(Sym("bool"), Entry(Sym("must"), List([
           Entry(Sym("bool"), Entry(Sym("should"), List([
             Entry(Sym("bool"), Entry(Sym("must"), List([
               Entry(Sym("terms"), Entry(Str(f), List([
                 Entry(Sym("condition"), Entry(Sym("str"), List([])))])))])))])))])))))
  {
    EmptyParse(f);
    TranslateDocument(AsWritten, f + ": \"\"");
    SingleDocument(AsWritten, f, Quoted(""));
  }

  /** `f: ""`, corrected: the empty string is searched for as the empty value. */
  lemma EmptyQuotedCorrected(f: string)
    requires IsIdentifier(f)
    ensures Translate(Corrected, f + ": \"\"")
      == Some(Entry(Sym("query"), Entry(Sym("bool"), Entry(Sym("must"), List([
           Entry(Sym("bool"), Entry(Sym("should"), List([
             Entry(Sym("bool"), Entry(Sym("must"), List([
               Entry(Sym("terms"), Entry(Str(f), List([Text("")])))])))])))])))))
  {
    EmptyParse(f);
    TranslateDocument(Corrected, f + ": \"\"");
    SingleDocument(Corrected, f, Quoted(""));
  }

  lemma TwoFieldsText(f1: string, f2: string)
    ensures RenderFields(Several([f1, f2])) == f1 + "," + f2
  {
    assert [f1, f2][1..] == [f2];
    assert [f2][1..] == [];
    assert FieldSuffix([f2]) == "," + f2 + FieldSuffix([]);
    assert "," + f2 + [] == "," + f2;
    Associate(f1, ",", f2);
  }

  lemma OrPairText(a: string, b: string)
    ensures RenderOr(Several([Raw(a), Raw(b)])) == a + " or " + b
  {
    assert [Raw(a), Raw(b)][1..] == [Raw(b)];
    assert [Raw(b)][1..] == [];
    assert OrSuffix([Raw(b)]) == " or " + b + OrSuffix([]);
    assert " or " + b + [] == " or " + b;
    Associate(a, " or ", b);
  }

  lemma AndPairText(m1: Many<Condition>, m2: Many<Condition>)
    ensures RenderAnd(Several([m1, m2])) == RenderOr(m1) + " and " + RenderOr(m2)
  {
    assert [m1, m2][1..] == [m2];
    assert [m2][1..] == [];
    assert AndSuffix([m2]) == " and " + RenderOr(m2) + AndSuffix([]);
    assert " and " + RenderOr(m2) + [] == " and " + RenderOr(m2);
    Associate(RenderOr(m1), " and ", RenderOr(m2));
  }

  lemma TwoFieldText(f1: string, f2: string, a: string, b: string, c: string)
    ensures Render(AndQueries(One(Group(Several([f1, f2]), Several([Several([Raw(a), Raw(b)]), One(Raw(c))])))))
      == f1 + "," + f2 + ": " + a + " or " + b + " and " + c
  {
    TwoFieldsText(f1, f2);
    OrPairText(a, b);
    assert RenderOr(One(Raw(c))) == c;
    AndPairText(Several([Raw(a), Raw(b)]), One(Raw(c)));
  }

  /**
   * `f1,f2: a or b and c` is distributed into a Should of one Must per field,
   * each Must holding the two or-groups as `Terms` on that field.
   */
  lemma DistributionExample(f1: string, f2: string, a: string, b: string, c: string)
    requires IsIdentifier(f1) && IsIdentifier(f2)
    requires RenderableCondition(Raw(a)) && RenderableCondition(Raw(b)) && RenderableCondition(Raw(c))
    ensures Translate(AsWritten, f1 + "," + f2 + ": " + a + " or " + b + " and " + c)
      == Some(EvalQuery(EsQuery(Must([Should([
           Must([Terms([Text(a), Text(b)], Some(f1)), Terms([Text(c)], Some(f1))]),
           Must([Terms([Text(a), Text(b)], Some(f2)), Terms([Text(c)], Some(f2))])])]))))
  {
    var ab := Several([Raw(a), Raw(b)]);
    var g := Group(Several([f1, f2]), Several([ab, One(Raw(c))]));
    var t := AndQueries(One(g));
    TwoFieldRenderable(f1, f2, a, b, c);
    ParseRender(t);
    TwoFieldText(f1, f2, a, b, c);
    DistributeTwo(f1, f2, a, b, c);
    RootOfOne(f1 + "," + f2 + ": " + a + " or " + b + " and " + c, g);
  }

  lemma TwoFieldRenderable(f1: string, f2: string, a: string, b: string, c: string)
    requires IsIdentifier(f1) && IsIdentifier(f2)
    requires RenderableCondition(Raw(a)) && RenderableCondition(Raw(b)) && RenderableCondition(Raw(c))
    ensures Renderable(AndQueries(One(Group(Several([f1, f2]), Several([Several([Raw(a), Raw(b)]), One(Raw(c))])))))
  {
    var ab := Several([Raw(a), Raw(b)]);
    assert ToList(ab) == [Raw(a), Raw(b)];
    assert ToList(Several([ab, One(Raw(c))])) == [ab, One(Raw(c))];
  }

  /** A query of one group: the document is the group's node under the root Must. */
  lemma RootOfOne(s: string, g: Group)
    requires Parse(s) == Some(AndQueries(One(g)))
    ensures Translate(AsWritten, s) == Some(EvalQuery(EsQuery(Must([TransformGroup(AsWritten, g)]))))
  {
    assert Transform(AsWritten, AndQueries(One(g))).boolQuery == Must([TransformGroup(AsWritten, g)]);
  }

  lemma DistributeTwo(f1: string, f2: string, a: string, b: string, c: string)
    ensures TransformGroup(AsWritten, Group(Several([f1, f2]), Several([Several([Raw(a), Raw(b)]), One(Raw(c))])))
      == Should([
           Must([Terms([Text(a), Text(b)], Some(f1)), Terms([Text(c)], Some(f1))]),
           Must([Terms([Text(a), Text(b)], Some(f2)), Terms([Text(c)], Some(f2))])])
  {
    var ab := Several([Raw(a), Raw(b)]);
    var g := Group(Several([f1, f2]), Several([ab, One(Raw(c))]));
    var r := TransformGroup(AsWritten, g);
    assert OrToTerms(AsWritten, ab).values == [Text(a), Text(b)];
    assert OrToTerms(AsWritten, One(Raw(c))).values == [Text(c)];
    assert r.queries[0].queries == [Terms([Text(a), Text(b)], Some(f1)), Terms([Text(c)], Some(f1))];
    assert r.queries[1].queries == [Terms([Text(a), Text(b)], Some(f2)), Terms([Text(c)], Some(f2))];
  }
}
