/**
 * Properties of the query grammar beyond the printer round trip: quoting,
 * raw tokens, tokens before a colon, and the mandatory field prefix.
 */
module GrammarFacts {
  import opened Wrappers
  import opened Syntax
  import opened Grammar
  import opened Printer

  // ---------------------------------------------------------------------
  // Quoting

  /**
   * A quoted string with delimiter `q` is recognised exactly when the input is
   * `q`, a body, `q`; the body is captured as written.
   */
  lemma QuotedIff(s: string, q: char, b: string, rest: string)
    requires IsQuote(q)
    ensures DelimitedBy(s, q) == Ok(b, rest) <==> s == [q] + b + [q] + rest && IsBody(b, q)
  {
    if s == [q] + b + [q] + rest && IsBody(b, q) {
      DelimitedRoundTrip(b, q, rest);
    }
  }

  /**
   * A backslash and the delimiter after it are one unit of the body: they do
   * not close the string, and both stay in the captured value.
   */
  lemma EscapedQuoteKept(q: char, b: string, rest: string)
    requires IsQuote(q) && IsBody(b, q)
    ensures DelimitedBy([q] + ['\\', q] + b + [q] + rest, q) == Ok(['\\', q] + b, rest)
  {
    var e := ['\\', q] + b;
    assert e[2..] == b;
    assert IsBody(e, q);
    assert [q] + ['\\', q] + b + [q] + rest == [q] + e + [q] + rest;
    DelimitedRoundTrip(e, q, rest);
  }

  /** The other quote character may appear unescaped inside a body. */
  lemma OtherQuoteInBody(q: char, b: string)
    requires IsQuote(q) && IsBody(b, q)
    ensures IsBody([if q == '"' then '\'' else '"'] + b, q)
  {
    var u := [if q == '"' then '\'' else '"'] + b;
    assert u[1..] == b;
  }

  function SwapQuote(c: char): char
  {
    if c == '"' then '\'' else if c == '\'' then '"' else c
  }

  /** Exchanges the two quote characters throughout a string. */
  function Swap(s: string): (r: string)
    ensures |r| == |s|
    ensures forall i :: 0 <= i < |s| ==> r[i] == SwapQuote(s[i])
  {
    seq(|s|, i requires 0 <= i < |s| => SwapQuote(s[i]))
  }

  lemma SwapAppend(a: string, b: string)
    ensures Swap(a + b) == Swap(a) + Swap(b)
  {
  }

  lemma {:induction false} SwapBody(b: string, q: char)
    requires IsQuote(q) && IsBody(b, q)
    ensures IsBody(Swap(b), SwapQuote(q))
    decreases |b|
  {
    if b != [] {
      var k := if b[0] == '\\' && |b| >= 2 && IsBody(b[2..], q) then 2 else 1;
      SwapBody(b[k..], q);
      assert Swap(b)[k..] == Swap(b[k..]);
    }
  }

  /** Double and single quotes behave the same way, with the roles of the two characters exchanged. */
  lemma QuoteSymmetry(s: string, b: string, rest: string)
    requires QuotedString(s) == Ok(b, rest)
    ensures QuotedString(Swap(s)) == Ok(Swap(b), Swap(rest))
  {
    var q := s[0];
    if DelimitedBy(s, '"').Ok? {
      assert s == ['"'] + b + ['"'] + rest && IsBody(b, '"');
    } else {
      assert s == ['\''] + b + ['\''] + rest && IsBody(b, '\'');
    }
    SwapBody(b, q);
    SwapAppend([q] + b + [q], rest);
    SwapAppend([q] + b, [q]);
    SwapAppend([q], b);
    assert Swap([q]) == [SwapQuote(q)];
    QuotedStringRoundTrip(Swap(b), SwapQuote(q), Swap(rest));
  }

  // ---------------------------------------------------------------------
  // Raw conditions and the keyword `and`

  /**
   * No condition begins with the text `and` unless it is quoted; this rejects
   * the keyword, and every word that begins with it (`android`) as well.
   */
  lemma AndPrefixRejected(x: string)
    ensures RawCondition("and" + x) == Fail
    ensures ParseCondition("and" + x) == Fail
  {
    var s := "and" + x;
    assert s[..3] == "and";
    assert DelimitedBy(s, '"') == Fail && DelimitedBy(s, '\'') == Fail;
  }

  /** Quoted, `and` is an ordinary search word. */
  lemma QuotedAndAccepted(rest: string)
    requires rest == [] || IsSpace(rest[0])
    ensures ParseCondition("\"and\"" + rest) == Ok(Quoted("and"), rest)
  {
    assert IsBody("and", '"') by {
      assert "and"[1..] == "nd" && "nd"[1..] == "d" && "d"[1..] == [];
    }
    assert "\"and\"" + rest == ['"'] + "and" + ['"'] + rest;
    QuotedStringRoundTrip("and", '"', rest);
    assert !StartsWith(rest, ":");
  }

  // ---------------------------------------------------------------------
  // Tokens before a colon

  /** A raw token directly followed by `:` is not a condition. */
  lemma RawBeforeColon(t: string, x: string)
    requires IsRawToken(t) && !IsQuote(t[0])
    ensures ParseCondition(t + ":" + x) == Fail
  {
    var s := t + (":" + x);
    assert t + ":" + x == s;
    RawRoundTrip(t, ":" + x);
    assert DelimitedBy(s, '"') == Fail && DelimitedBy(s, '\'') == Fail;
    assert StartsWith(":" + x, ":");
  }

  /** Nor is a quoted string directly followed by `:`. */
  lemma QuotedBeforeColon(q: char, b: string, x: string)
    requires IsQuote(q) && IsBody(b, q)
    ensures ParseCondition([q] + b + [q] + ":" + x) == Fail
  {
    assert [q] + b + [q] + ":" + x == [q] + b + [q] + (":" + x);
    QuotedStringRoundTrip(b, q, ":" + x);
    assert StartsWith(":" + x, ":");
  }

  // ---------------------------------------------------------------------
  // The field prefix

  predicate EndsWith(s: string, r: string)
  {
    |r| <= |s| && s[|s| - |r|..] == r
  }

  lemma EndsWithAppend(p: string, u: string, r: string)
    requires EndsWith(u, r)
    ensures EndsWith(p + u, r)
  {
    assert (p + u)[|p + u| - |r|..] == u[|u| - |r|..];
  }

  lemma FieldTailNoIdent(s: string)
    requires Literal(s, ",").Ok? && Identifier(Literal(s, ",").rest).Fail?
    ensures FieldTail(s) == Star([], s)
  {
  }

  /** What the field list leaves unread is a suffix of its input. */
  lemma {:induction false} FieldTailEnds(s: string)
    ensures EndsWith(s, FieldTail(s).rest)
    decreases |s|
  {
    var l := Literal(s, ",");
    if l.Fail? {
      FieldTailHalt(s);
      assert s[|s| - |s|..] == s;
    } else if Identifier(l.rest).Fail? {
      FieldTailNoIdent(s);
      assert s[|s| - |s|..] == s;
    } else {
      var i := Identifier(l.rest);
      FieldTailStep(s, i.value, i.rest);
      FieldTailEnds(i.rest);
      EndsWithAppend(i.value, i.rest, FieldTail(i.rest).rest);
      EndsWithAppend(",", l.rest, FieldTail(i.rest).rest);
    }
  }

  lemma FieldPrefixOk(s: string)
    requires FieldPrefix(s).Ok?
    ensures MultiField(s).Ok? && StartsWith(MultiField(s).rest, ":")
  {
  }

  lemma MultiFieldEnds(s: string)
    requires MultiField(s).Ok?
    ensures IsIdentChar(s[0])
    ensures EndsWith(s, MultiField(s).rest)
  {
    var i := Identifier(s);
    MultiFieldStep(s, i.value, i.rest);
    FieldTailEnds(i.rest);
    EndsWithAppend(i.value, i.rest, FieldTail(i.rest).rest);
  }

  lemma ColonAt(s: string, r: string)
    requires EndsWith(s, r) && StartsWith(r, ":")
    ensures ':' in s
  {
    assert s[|s| - |r|] == r[0];
  }

  /** A field prefix is an identifier and ends at a colon of the input. */
  lemma FieldPrefixColon(s: string)
    requires FieldPrefix(s).Ok?
    ensures IsIdentChar(s[0])
    ensures ':' in s
  {
    FieldPrefixOk(s);
    MultiFieldEnds(s);
    ColonAt(s, MultiField(s).rest);
  }

  /**
   * The field prefix is mandatory: a query that parses begins with an
   * identifier character and contains a colon, so `foo and bar` is rejected.
   */
  lemma FieldPrefixRequired(s: string)
    requires Parse(s).Some?
    ensures s != [] && IsIdentChar(s[0])
    ensures ':' in s
  {
    assert ParseAndQueries(s).Ok?;
    assert ParseQuery(s).Ok?;
    FieldPrefixColon(s);
  }

  lemma NoColonNoParse(s: string)
    requires ':' !in s
    ensures Parse(s) == None
  {
    if Parse(s).Some? {
      FieldPrefixRequired(s);
    }
  }
}
