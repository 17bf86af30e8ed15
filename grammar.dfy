/**
 * The query grammar of `QueryParser` (with the rules it inherits from
 * `BaseParser`) as PEG parsing functions. Each rule takes the remaining input
 * and either fails or returns its subtree and what is left; `|` is ordered
 * choice, `repeat` is greedy and never backtracks, and the root must consume
 * the whole input.
 */
module Grammar {
  import opened Wrappers
  import opened Syntax

  datatype Parsed<+T> = Fail | Ok(value: T, rest: string)

  /** The result of a repetition, which always succeeds. */
  datatype Star<+T> = Star(items: seq<T>, rest: string)

  /** A successful rule consumed at least one character of `s`. */
  predicate Consumes<T>(s: string, r: Parsed<T>)
  {
    r.Ok? ==> |r.rest| < |s|
  }

  /** The length of the longest prefix of `s` whose characters satisfy `p`. */
  function Span(p: char -> bool, s: string): (n: nat)
    ensures n <= |s|
    ensures forall i :: 0 <= i < n ==> p(s[i])
    ensures n == |s| || !p(s[n])
    decreases |s|
  {
    if s != [] && p(s[0]) then 1 + Span(p, s[1..]) else 0
  }

  /** `space?`: drop the longest run of whitespace. */
  function SkipSpace(s: string): (r: string)
    ensures |r| <= |s|
    ensures r == [] || !IsSpace(r[0])
    ensures forall i :: 0 <= i < |s| - |r| ==> IsSpace(s[i])
    ensures r == s[|s| - |r|..]
  {
    s[Span(IsSpace, s)..]
  }

  /** `space`: `match('\s').repeat(1)`. */
  function Space(s: string): (r: Parsed<()>)
    ensures r.Ok? <==> s != [] && IsSpace(s[0])
    ensures Consumes(s, r)
    ensures r.Ok? ==> r.rest == SkipSpace(s)
    ensures r.Ok? ==> r.rest == [] || !IsSpace(r.rest[0])
  {
    if s != [] && IsSpace(s[0]) then Ok((), SkipSpace(s)) else Fail
  }

  /** `str(w)` */
  function Literal(s: string, w: string): (r: Parsed<()>)
    ensures r.Ok? <==> StartsWith(s, w)
    ensures r.Ok? ==> s == w + r.rest
  {
    if StartsWith(s, w) then
      assert s == s[..|w|] + s[|w|..];
      Ok((), s[|w|..])
    else Fail
  }

  /**
   * `(escaped_char | q.absent? >> any).repeat >> q`, entered just after the
   * opening delimiter: the captured body keeps its backslashes.
   */
  function QuotedBody(s: string, q: char): (r: Parsed<string>)
    requires IsQuote(q)
    ensures Consumes(s, r)
    ensures r.Ok? ==> s == r.value + [q] + r.rest && IsBody(r.value, q)
    decreases |s|
  {
    if s == [] then Fail
    else if s[0] == '\\' && |s| >= 2 then
      var r := QuotedBody(s[2..], q);
      if r.Ok? then
        BodyUnit(s[..2], s[2..], r.value, r.rest, q);
        Ok(s[..2] + r.value, r.rest)
      else Fail
    else if s[0] == q then Ok([], s[1..])
    else
      var r := QuotedBody(s[1..], q);
      if r.Ok? then
        BodyUnit(s[..1], s[1..], r.value, r.rest, q);
        Ok(s[..1] + r.value, r.rest)
      else Fail
  }

  /** Prepending one unit of a quoted body to a body keeps it a body. */
  lemma BodyUnit(u: string, v: string, b: string, rest: string, q: char)
    requires IsQuote(q)
    requires (|u| == 2 && u[0] == '\\') || (|u| == 1 && u[0] != '\\' && u[0] != q)
    requires v == b + [q] + rest && IsBody(b, q)
    ensures u + v == (u + b) + [q] + rest && IsBody(u + b, q)
  {
    assert (u + b)[|u|..] == b;
  }

  /** `d_quoted_string` or `s_quoted_string`, by the quote character `q`. */
  function DelimitedBy(s: string, q: char): (r: Parsed<string>)
    requires IsQuote(q)
    ensures Consumes(s, r)
    ensures r.Ok? ==> s == [q] + r.value + [q] + r.rest && IsBody(r.value, q)
  {
    if s != [] && s[0] == q then
      var r := QuotedBody(s[1..], q);
      assert r.Ok? ==> s == [q] + s[1..];
      r
    else Fail
  }

  /** `quoted_string`: `d_quoted_string | s_quoted_string`. */
  function QuotedString(s: string): (r: Parsed<string>)
    ensures Consumes(s, r)
    ensures r.Ok? ==> s != [] && IsQuote(s[0])
    ensures r.Ok? ==> s == [s[0]] + r.value + [s[0]] + r.rest && IsBody(r.value, s[0])
  {
    var d := DelimitedBy(s, '"');
    if d.Ok? then d else DelimitedBy(s, '\'')
  }

  /** `raw_condition`: `str('and').absent? >> match('[^:\s]').repeat(1)`. */
  function RawCondition(s: string): (r: Parsed<string>)
    ensures Consumes(s, r)
    ensures r.Ok? <==> s != [] && IsRawChar(s[0]) && !StartsWith(s, "and")
    ensures r.Ok? ==> s == r.value + r.rest && IsRawToken(r.value)
    ensures r.Ok? ==> r.rest == [] || !IsRawChar(r.rest[0])
  {
    if StartsWith(s, "and") then Fail
    else
      var n := Span(IsRawChar, s);
      if n == 0 then Fail
      else
        assert s == s[..n] + s[n..];
        assert !StartsWith(s[..n], "and") by {
          assert n >= 3 ==> s[..n][..3] == s[..3];
        }
        Ok(s[..n], s[n..])
  }

  /** `condition`: `(quoted_string | raw_condition).as(:condition) >> str(':').absent?` */
  function ParseCondition(s: string): (r: Parsed<Condition>)
    ensures Consumes(s, r)
    ensures r.Ok? ==> WellFormedCondition(r.value) && !StartsWith(r.rest, ":")
  {
    var c: Parsed<Condition> :=
      match QuotedString(s)
      case Ok(b, rest) => Ok(Quoted(b), rest)
      case Fail =>
        match RawCondition(s)
        case Ok(t, rest) => Ok(Raw(t), rest)
        case Fail => Fail;
    if c.Ok? && StartsWith(c.rest, ":") then Fail else c
  }

  /** `space >> str(w) >> space` matches: whitespace, the word `w`, whitespace. */
  predicate Keyword(s: string, w: string)
  {
    var t := SkipSpace(s);
    s != [] && IsSpace(s[0]) && StartsWith(t, w) && |t| > |w| && IsSpace(t[|w|])
  }

  /** `or_op`: `(space >> str('or') >> space) | space`. */
  function OrOp(s: string): (r: Parsed<()>)
    ensures Consumes(s, r)
    ensures r.Ok? <==> s != [] && IsSpace(s[0])
    ensures r.Ok? ==> r.rest == if Keyword(s, "or") then SkipSpace(SkipSpace(s)[2..]) else SkipSpace(s)
    ensures r.Ok? ==> r.rest == [] || !IsSpace(r.rest[0])
  {
    var spelled: Parsed<()> :=
      match Space(s)
      case Ok(_, r1) =>
        (match Literal(r1, "or")
         case Ok(_, r2) => Space(r2)
         case Fail => Fail)
      case Fail => Fail;
    if spelled.Ok? then spelled else Space(s)
  }

  /** `and_op`: `space >> str('and') >> space`. */
  function AndOp(s: string): (r: Parsed<()>)
    ensures Consumes(s, r)
    ensures r.Ok? <==> Keyword(s, "and")
    ensures r.Ok? ==> r.rest == SkipSpace(SkipSpace(s)[3..])
    ensures r.Ok? ==> s != [] && IsSpace(s[0])
    ensures r.Ok? ==> r.rest == [] || !IsSpace(r.rest[0])
  {
    match Space(s)
    case Ok(_, r1) =>
      (match Literal(r1, "and")
       case Ok(_, r2) =>
         Space(r2)
       case Fail => Fail)
    case Fail => Fail
  }

  /** `(or_op >> condition).repeat` */
  function OrTail(s: string): (r: Star<Condition>)
    ensures |r.rest| <= |s|
    ensures forall c :: c in r.items ==> WellFormedCondition(c)
    decreases |s|
  {
    match OrOp(s)
    case Fail => Star([], s)
    case Ok(_, r1) =>
      match ParseCondition(r1)
      case Fail => Star([], s)
      case Ok(c, r2) =>
        var t := OrTail(r2);
        Star([c] + t.items, t.rest)
  }

  /** `or_conditions`: `(condition >> (or_op >> condition).repeat).as(:or_conditions)` */
  function ParseOrConditions(s: string): (r: Parsed<Many<Condition>>)
    ensures Consumes(s, r)
    ensures r.Ok? ==> WellFormedOr(r.value)
  {
    match ParseCondition(s)
    case Fail => Fail
    case Ok(c, r1) =>
      var t := OrTail(r1);
      Ok(Collect(c, t.items), t.rest)
  }

  /** `(and_op >> or_conditions).repeat` */
  function AndTail(s: string): (r: Star<Many<Condition>>)
    ensures |r.rest| <= |s|
    ensures forall m :: m in r.items ==> WellFormedOr(m)
    decreases |s|
  {
    match AndOp(s)
    case Fail => Star([], s)
    case Ok(_, r1) =>
      match ParseOrConditions(r1)
      case Fail => Star([], s)
      case Ok(m, r2) =>
        var t := AndTail(r2);
        var items := [m] + t.items;
        assert forall m' :: m' in items ==> m' == m || m' in t.items;
        Star(items, t.rest)
  }

  /** `and_conditions`: `(or_conditions >> (and_op >> or_conditions).repeat).as(:and_conditions)` */
  function ParseAndConditions(s: string): (r: Parsed<Many<Many<Condition>>>)
    ensures Consumes(s, r)
    ensures r.Ok? ==> ValidMany(r.value) && forall m :: m in ToList(r.value) ==> WellFormedOr(m)
  {
    match ParseOrConditions(s)
    case Fail => Fail
    case Ok(m, r1) =>
      var t := AndTail(r1);
      Ok(Collect(m, t.items), t.rest)
  }

  /** `identifier`: `match('[_0-9a-zA-Z.]').repeat(1)` */
  function Identifier(s: string): (r: Parsed<string>)
    ensures Consumes(s, r)
    ensures r.Ok? <==> s != [] && IsIdentChar(s[0])
    ensures r.Ok? ==> s == r.value + r.rest && IsIdentifier(r.value)
    ensures r.Ok? ==> r.rest == [] || !IsIdentChar(r.rest[0])
  {
    var n := Span(IsIdentChar, s);
    if n == 0 then Fail
    else
      assert s == s[..n] + s[n..];
      Ok(s[..n], s[n..])
  }

  /** `(str(',') >> identifier.as(:field)).repeat` */
  function FieldTail(s: string): (r: Star<string>)
    ensures |r.rest| <= |s|
    ensures forall f :: f in r.items ==> IsIdentifier(f)
    decreases |s|
  {
    match Literal(s, ",")
    case Fail => Star([], s)
    case Ok(_, r1) =>
      match Identifier(r1)
      case Fail => Star([], s)
      case Ok(f, r2) =>
        var t := FieldTail(r2);
        Star([f] + t.items, t.rest)
  }

  /** `multi_field`: `identifier.as(:field) >> (str(',') >> identifier.as(:field)).repeat` */
  function MultiField(s: string): (r: Parsed<Many<string>>)
    ensures Consumes(s, r)
    ensures r.Ok? ==> ValidMany(r.value) && forall f :: f in ToList(r.value) ==> IsIdentifier(f)
  {
    match Identifier(s)
    case Fail => Fail
    case Ok(f, r1) =>
      var t := FieldTail(r1);
      Ok(Collect(f, t.items), t.rest)
  }

  /** `field`: `multi_field >> str(':') >> space?`, labelled `field_list` by `query`. */
  function FieldPrefix(s: string): (r: Parsed<Many<string>>)
    ensures Consumes(s, r)
    ensures r.Ok? ==> ValidMany(r.value) && forall f :: f in ToList(r.value) ==> IsIdentifier(f)
  {
    var m := MultiField(s);
    if m.Fail? || !StartsWith(m.rest, ":") then Fail
    else
      var r2 := m.rest[1..];
      var r3 := SkipSpace(r2);
      Ok(m.value, r3)
  }

  /** `query`: `field.as(:field_list) >> and_conditions`; the field prefix is not optional. */
  function ParseQuery(s: string): (r: Parsed<Group>)
    ensures Consumes(s, r)
    ensures r.Ok? ==> WellFormedGroup(r.value)
  {
    match FieldPrefix(s)
    case Fail => Fail
    case Ok(fs, r1) =>
      match ParseAndConditions(r1)
      case Fail => Fail
      case Ok(cs, r2) =>
        Ok(Group(fs, cs), r2)
  }

  /** `(space >> query.as(:and_query)).repeat` */
  function QueriesTail(s: string): (r: Star<Group>)
    ensures |r.rest| <= |s|
    ensures forall g :: g in r.items ==> WellFormedGroup(g)
    decreases |s|
  {
    match Space(s)
    case Fail => Star([], s)
    case Ok(_, r1) =>
      match ParseQuery(r1)
      case Fail => Star([], s)
      case Ok(g, r2) =>
        var t := QueriesTail(r2);
        Star([g] + t.items, t.rest)
  }

  /** `(query.as(:and_query) >> (space >> query.as(:and_query)).repeat).as(:and_queries)` */
  function ParseAndQueries(s: string): (r: Parsed<Tree>)
    ensures Consumes(s, r)
    ensures r.Ok? ==> WellFormed(r.value)
  {
    match ParseQuery(s)
    case Fail => Fail
    case Ok(g, r1) =>
      var t := QueriesTail(r1);
      Ok(AndQueries(Collect(g, t.items)), t.rest)
  }

  /**
   * `QueryParser.new.parse(raw)`: the root rule, then `space?`, then the end of
   * the input. `None` stands for `Parslet::ParseFailed`.
   */
  function Parse(s: string): (r: Option<Tree>)
    ensures r.Some? ==> WellFormed(r.value)
  {
    match ParseAndQueries(s)
    case Fail => None
    case Ok(t, rest) => if SkipSpace(rest) == [] then Some(t) else None
  }
}
