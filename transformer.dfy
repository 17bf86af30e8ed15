/**
 * `ElasticSearchQueryTransformer`: the bottom-up rewrite of the concrete
 * syntax tree into the query AST, and the pipeline parse, transform, eval.
 * The rewrite is given for two collapses of conditions: `AsWritten`, which is
 * what the rules in main.rb do, and `Corrected`, which also turns the empty
 * quoted string into a string. Its meaning is stated against a document
 * index: a map from field name to the set of terms indexed for that field.
 */
module Transformer {
  import opened Wrappers
  import opened Syntax
  import opened Grammar
  import opened Ast

  /** Which collapse of conditions the `simple_to_s_rule`s perform. */
  datatype Collapse = AsWritten | Corrected

  /** The string a condition stands for: its token, or the text between its quotes, escapes kept. */
  function CondValue(c: Condition): (v: string)
    ensures c.Raw? ==> v == c.text
    ensures c.Quoted? ==> v == c.body
  {
    match c
    case Raw(t) => t
    case Quoted(b) => b
  }

  /** A parsed condition's value is its source text, without the quotes of a quoted string. */
  lemma ConditionValue(s: string, c: Condition, rest: string)
    requires ParseCondition(s) == Ok(c, rest)
    ensures c.Raw? ==> s == CondValue(c) + rest
    ensures c.Quoted? ==> IsQuote(s[0]) && s == [s[0]] + CondValue(c) + [s[0]] + rest
  {
    if QuotedString(s).Ok? {
      assert c == Quoted(QuotedString(s).value);
    } else {
      assert c == Raw(RawCondition(s).value);
    }
  }

  /**
   * `{condition: {str: []}}`: `.repeat.as(:str)` captures an empty body as an
   * empty array, `simple(:x)` binds neither arrays nor hashes, so neither the
   * `:str` nor the `:condition` rule applies.
   */
  const EmptyResidue: Doc := Entry(Sym("condition"), Entry(Sym("str"), List([])))

  /**
   * The `simple_to_s_rule`s for `:condition` and `:str`: what is left of a
   * condition. As written, every condition becomes its string except the
   * empty quoted string, which stays `EmptyResidue`; corrected, every one
   * becomes its string.
   */
  function Value(k: Collapse, c: Condition): (d: Doc)
    ensures d == Text(CondValue(c)) <==> k.Corrected? || c != Quoted("")
    ensures d != Text(CondValue(c)) ==> d == EmptyResidue
  {
    if k.AsWritten? && c == Quoted("") then EmptyResidue else Text(CondValue(c))
  }

  /** What is left of each condition, in order. */
  function ValueList(k: Collapse, cs: seq<Condition>): (vs: seq<Doc>)
    ensures |vs| == |cs|
    ensures forall i :: 0 <= i < |cs| ==> vs[i] == Value(k, cs[i])
  {
    seq(|cs|, i requires 0 <= i < |cs| => Value(k, cs[i]))
  }

  /**
   * The `or_conditions` rule: one `Terms` holding what is left of the group's
   * conditions in source order, a lone condition wrapped into a one-element
   * list, with `field` left unset.
   */
  function OrToTerms(k: Collapse, m: Many<Condition>): (t: Node)
    ensures t.Terms? && t.field == None
    ensures |t.values| == |ToList(m)|
    ensures forall i :: 0 <= i < |t.values| ==> t.values[i] == Value(k, ToList(m)[i])
  {
    Terms(ValueList(k, ToList(m)), None)
  }

  /**
   * `yy.map { |term| term.dup.tap { |obj| obj.field = field } }`: a copy of
   * every condition node, in order, each with `field` set to `f` and its
   * values untouched.
   */
  function WithField(terms: seq<Node>, f: string): (r: seq<Node>)
    requires forall j :: 0 <= j < |terms| ==> terms[j].Terms?
    ensures |r| == |terms|
    ensures forall j :: 0 <= j < |terms| ==> r[j] == Terms(terms[j].values, Some(f))
  {
    seq(|terms|, j requires 0 <= j < |terms| => terms[j].(field := Some(f)))
  }

  /**
   * The `field_list`/`and_conditions` rule: one `MustQueries` per field, in
   * field order, each holding the condition nodes with that field set.
   */
  function Distribute(fields: seq<string>, terms: seq<Node>): (r: Node)
    requires forall j :: 0 <= j < |terms| ==> terms[j].Terms?
    ensures r.Should? && |r.queries| == |fields|
    ensures forall i :: 0 <= i < |fields| ==> r.queries[i] == Must(WithField(terms, fields[i]))
    ensures forall i, j :: 0 <= i < |fields| && 0 <= j < |terms| ==>
      |r.queries[i].queries| == |terms| && r.queries[i].queries[j] == Terms(terms[j].values, Some(fields[i]))
  {
    Should(seq(|fields|, i requires 0 <= i < |fields| => Must(WithField(terms, fields[i]))))
  }

  /** The and-groups of a query group, each already rewritten by the `or_conditions` rule. */
  function GroupTerms(k: Collapse, g: Group): (ts: seq<Node>)
    ensures |ts| == |ToList(g.andConditions)|
    ensures forall j :: 0 <= j < |ts| ==> ts[j] == OrToTerms(k, ToList(g.andConditions)[j])
  {
    var ms := ToList(g.andConditions);
    seq(|ms|, j requires 0 <= j < |ms| => OrToTerms(k, ms[j]))
  }

  /** One query group (after `and_query: subtree(:x) { x }` has unwrapped it). */
  function TransformGroup(k: Collapse, g: Group): (r: Node)
    ensures r.Should? && |r.queries| == |ToList(g.fieldList)|
    ensures forall i :: 0 <= i < |r.queries| ==>
      r.queries[i].Must? && |r.queries[i].queries| == |ToList(g.andConditions)|
  {
    Distribute(ToList(g.fieldList), GroupTerms(k, g))
  }

  /** The `and_queries` rule: the root is always `EsQuery(MustQueries(groups))`. */
  function Transform(k: Collapse, t: Tree): (q: EsQuery)
    ensures q.boolQuery.Must? && |q.boolQuery.queries| == |ToList(t.queries)|
    ensures forall i :: 0 <= i < |q.boolQuery.queries| ==>
      q.boolQuery.queries[i] == TransformGroup(k, ToList(t.queries)[i])
  {
    var gs := ToList(t.queries);
    EsQuery(Must(seq(|gs|, i requires 0 <= i < |gs| => TransformGroup(k, gs[i]))))
  }

  /**
   * Parse, transform, eval: the document for a query string, or `None` when
   * the parse fails. `Translate(AsWritten, s)` is the program.
   */
  function Translate(k: Collapse, s: string): (r: Option<Doc>)
    ensures r.Some? <==> Parse(s).Some?
  {
    match Parse(s)
    case None => None
    case Some(t) => Some(EvalQuery(Transform(k, t)))
  }

  // ---------------------------------------------------------------------
  // Where the two collapses differ

  /** No condition of the tree is the empty quoted string. */
  predicate NoEmptyQuoted(t: Tree)
  {
    forall g :: g in ToList(t.queries) ==> AllSpelled(g)
  }

  predicate AllSpelled(g: Group)
  {
    forall m :: m in ToList(g.andConditions) ==> Quoted("") !in ToList(m)
  }

  lemma OrAgree(m: Many<Condition>)
    ensures OrToTerms(AsWritten, m) == OrToTerms(Corrected, m) <==> Quoted("") !in ToList(m)
  {
    var cs := ToList(m);
    var a := OrToTerms(AsWritten, m);
    var b := OrToTerms(Corrected, m);
    if Quoted("") in cs {
      var l :| 0 <= l < |cs| && cs[l] == Quoted("");
      assert a.values[l] != b.values[l];
    } else {
      assert a.values == b.values;
    }
  }

  lemma SpelledGroup(g: Group)
    requires AllSpelled(g)
    ensures TransformGroup(AsWritten, g) == TransformGroup(Corrected, g)
  {
    var ms := ToList(g.andConditions);
    var a := GroupTerms(AsWritten, g);
    var b := GroupTerms(Corrected, g);
    forall j | 0 <= j < |ms|
      ensures a[j] == b[j]
    {
      assert ms[j] in ms;
      OrAgree(ms[j]);
    }
    assert a == b;
  }

  lemma GroupAgree(g: Group)
    requires ToList(g.fieldList) != []
    ensures TransformGroup(AsWritten, g) == TransformGroup(Corrected, g) <==> AllSpelled(g)
  {
    var ms := ToList(g.andConditions);
    var a := GroupTerms(AsWritten, g);
    var b := GroupTerms(Corrected, g);
    if AllSpelled(g) {
      SpelledGroup(g);
    } else {
      var m :| m in ms && Quoted("") in ToList(m);
      var j :| 0 <= j < |ms| && ms[j] == m;
      OrAgree(m);
      var l :| 0 <= l < |ToList(m)| && ToList(m)[l] == Quoted("");
      assert a[j].values[l] != b[j].values[l];
      assert TransformGroup(AsWritten, g).queries[0].queries[j].values[l]
          != TransformGroup(Corrected, g).queries[0].queries[j].values[l];
    }
  }

  /**
   * The program and the corrected rewrite produce the same query exactly when
   * no condition is the empty quoted string.
   */
  lemma CollapseAgree(t: Tree)
    requires WellFormed(t)
    ensures Transform(AsWritten, t) == Transform(Corrected, t) <==> NoEmptyQuoted(t)
  {
    var gs := ToList(t.queries);
    if NoEmptyQuoted(t) {
      SameWhenSpelled(t);
    } else {
      var g :| g in gs && !AllSpelled(g);
      var i :| 0 <= i < |gs| && gs[i] == g;
      assert ValidMany(g.fieldList);
      DiffersAt(t, i);
    }
  }

  lemma SameWhenSpelled(t: Tree)
    requires NoEmptyQuoted(t)
    ensures Transform(AsWritten, t) == Transform(Corrected, t)
  {
    var gs := ToList(t.queries);
    var a := Transform(AsWritten, t).boolQuery;
    var b := Transform(Corrected, t).boolQuery;
    forall i | 0 <= i < |gs|
      ensures a.queries[i] == b.queries[i]
    {
      assert gs[i] in gs;
      SpelledGroup(gs[i]);
    }
    assert a.queries == b.queries;
  }

  lemma DiffersAt(t: Tree, i: nat)
    requires i < |ToList(t.queries)|
    requires ToList(ToList(t.queries)[i].fieldList) != [] && !AllSpelled(ToList(t.queries)[i])
    ensures Transform(AsWritten, t) != Transform(Corrected, t)
  {
    GroupAgree(ToList(t.queries)[i]);
    assert Transform(AsWritten, t).boolQuery.queries[i] != Transform(Corrected, t).boolQuery.queries[i];
  }

  /** The same for whole query strings: the documents differ exactly when the query has a `""` or `''`. */
  lemma TranslateAgree(s: string)
    ensures Translate(AsWritten, s) == Translate(Corrected, s) <==> Parse(s).None? || NoEmptyQuoted(Parse(s).value)
  {
    if Parse(s).Some? {
      var t := Parse(s).value;
      CollapseAgree(t);
      if Translate(AsWritten, s) == Translate(Corrected, s) {
        EvalQueryInjective(Transform(AsWritten, t), Transform(Corrected, t));
      }
    }
  }

  // ---------------------------------------------------------------------
  // Meaning

  /** Fields to the terms indexed for them. */
  type Index = map<string, set<string>>

  /**
   * What a node asks of a document: every clause of a Must, some clause of a
   * Should, and for Terms some string value among the terms of its field (a
   * value that is not a string matches nothing).
   */
  predicate Matches(doc: Index, n: Node)
    decreases n
  {
    match n
    case Must(qs) => forall i :: 0 <= i < |qs| ==> Matches(doc, qs[i])
    case Should(qs) => exists i :: 0 <= i < |qs| && Matches(doc, qs[i])
    case Terms(vs, f) => f.Some? && exists i :: 0 <= i < |vs| && vs[i].Text? && HasTerm(doc, f.value, vs[i].text)
  }

  predicate HasTerm(doc: Index, f: string, v: string)
  {
    f in doc && v in doc[f]
  }

  /** Some condition of the or-group is a term of field `f`. */
  predicate OrHolds(doc: Index, f: string, m: Many<Condition>)
  {
    exists c :: c in ToList(m) && HasTerm(doc, f, CondValue(c))
  }

  /**
   * A query group `f1,...,fn: c11 c12 and c21 ...` as read on the concrete
   * tree: some listed field satisfies every and-group, an and-group being
   * satisfied when one of its conditions is a term of that field.
   */
  predicate GroupHolds(doc: Index, g: Group)
  {
    exists f :: f in ToList(g.fieldList) && forall m :: m in ToList(g.andConditions) ==> OrHolds(doc, f, m)
  }

  predicate QueryHolds(doc: Index, t: Tree)
  {
    forall g :: g in ToList(t.queries) ==> GroupHolds(doc, g)
  }

  /** The meaning is stated for the corrected collapse; `CollapseAgree` carries it to the program. */
  lemma OrMeaning(doc: Index, f: string, m: Many<Condition>)
    ensures Matches(doc, Terms(OrToTerms(Corrected, m).values, Some(f))) <==> OrHolds(doc, f, m)
  {
    var vs := OrToTerms(Corrected, m).values;
    var cs := ToList(m);
    if OrHolds(doc, f, m) {
      var c :| c in cs && HasTerm(doc, f, CondValue(c));
      var i :| 0 <= i < |cs| && cs[i] == c;
      assert vs[i] == Text(CondValue(c));
    }
    if Matches(doc, Terms(vs, Some(f))) {
      var i :| 0 <= i < |vs| && vs[i].Text? && HasTerm(doc, f, vs[i].text);
      assert cs[i] in cs;
    }
  }

  /** The Must built for one field: that field satisfies every and-group. */
  lemma MustMeaning(doc: Index, f: string, g: Group)
    ensures Matches(doc, Must(WithField(GroupTerms(Corrected, g), f)))
      <==> forall m :: m in ToList(g.andConditions) ==> OrHolds(doc, f, m)
  {
    var ts := GroupTerms(Corrected, g);
    var ms := ToList(g.andConditions);
    var qs := WithField(ts, f);
    forall j | 0 <= j < |ms|
      ensures Matches(doc, qs[j]) <==> OrHolds(doc, f, ms[j])
    {
      OrMeaning(doc, f, ms[j]);
    }
    if forall j :: 0 <= j < |qs| ==> Matches(doc, qs[j]) {
      forall m | m in ms
        ensures OrHolds(doc, f, m)
      {
        var j :| 0 <= j < |ms| && ms[j] == m;
      }
    }
    if forall m :: m in ms ==> OrHolds(doc, f, m) {
      forall j | 0 <= j < |qs|
        ensures Matches(doc, qs[j])
      {
        assert ms[j] in ms;
      }
    }
  }

  /**
   * Distribution means what the rule's comments say: the group matches when
   * one of its fields matches every and-group.
   */
  lemma GroupMeaning(doc: Index, g: Group)
    ensures Matches(doc, TransformGroup(Corrected, g)) <==> GroupHolds(doc, g)
  {
    var fs := ToList(g.fieldList);
    var r := TransformGroup(Corrected, g);
    forall i | 0 <= i < |fs|
      ensures Matches(doc, r.queries[i]) <==> forall m :: m in ToList(g.andConditions) ==> OrHolds(doc, fs[i], m)
    {
      MustMeaning(doc, fs[i], g);
    }
    if GroupHolds(doc, g) {
      var f :| f in fs && forall m :: m in ToList(g.andConditions) ==> OrHolds(doc, f, m);
      var i :| 0 <= i < |fs| && fs[i] == f;
      assert Matches(doc, r.queries[i]);
    }
    if Matches(doc, r) {
      var i :| 0 <= i < |r.queries| && Matches(doc, r.queries[i]);
      assert fs[i] in fs;
    }
  }

  /** The root Must: a document matches the whole query when it matches every group. */
  lemma TransformMeaning(doc: Index, t: Tree)
    ensures Matches(doc, Transform(Corrected, t).boolQuery) <==> QueryHolds(doc, t)
  {
    var gs := ToList(t.queries);
    var q := Transform(Corrected, t).boolQuery;
    forall i | 0 <= i < |gs|
      ensures Matches(doc, q.queries[i]) <==> GroupHolds(doc, gs[i])
    {
      GroupMeaning(doc, gs[i]);
    }
    if Matches(doc, q) {
      forall g | g in gs
        ensures GroupHolds(doc, g)
      {
        var i :| 0 <= i < |gs| && gs[i] == g;
      }
    }
  }

  /** n fields and m or-groups give n * m `Terms` nodes. */
  function CountTerms(n: Node): nat
    decreases n
  {
    match n
    case Must(qs) => SumCounts(qs)
    case Should(qs) => SumCounts(qs)
    case Terms(_, _) => 1
  }

  function SumCounts(qs: seq<Node>): nat
    decreases qs
  {
    if qs == [] then 0 else
      assert qs[0] in qs;
      CountTerms(qs[0]) + SumCounts(qs[1..])
  }

  lemma {:induction false} SumOfTerms(qs: seq<Node>)
    requires forall j :: 0 <= j < |qs| ==> qs[j].Terms?
    ensures SumCounts(qs) == |qs|
    decreases |qs|
  {
    if qs != [] {
      SumOfTerms(qs[1..]);
    }
  }

  lemma {:induction false} SumOfMusts(qs: seq<Node>, m: nat)
    requires forall i :: 0 <= i < |qs| ==> qs[i].Must? && |qs[i].queries| == m
    requires forall i, j :: 0 <= i < |qs| && 0 <= j < m ==> qs[i].Must? && |qs[i].queries| == m && qs[i].queries[j].Terms?
    ensures SumCounts(qs) == |qs| * m
    decreases |qs|
  {
    if qs != [] {
      SumOfTerms(qs[0].queries);
      SumOfMusts(qs[1..], m);
    }
  }

  lemma DistributeCount(k: Collapse, g: Group)
    ensures CountTerms(TransformGroup(k, g)) == |ToList(g.fieldList)| * |ToList(g.andConditions)|
  {
    SumOfMusts(TransformGroup(k, g).queries, |ToList(g.andConditions)|);
  }

  // ---------------------------------------------------------------------
  // The document, read straight off the concrete tree

  /** `{terms: {f => [what is left of each condition]}}` */
  function TermsDoc(k: Collapse, f: string, m: Many<Condition>): Doc
  {
    Entry(Sym("terms"), Entry(Str(f), List(ValueList(k, ToList(m)))))
  }

  /** One terms clause per and-group, all on field `f`. */
  function FieldClauses(k: Collapse, f: string, g: Group): (ds: seq<Doc>)
    ensures |ds| == |ToList(g.andConditions)|
    ensures forall j :: 0 <= j < |ds| ==> ds[j] == TermsDoc(k, f, ToList(g.andConditions)[j])
  {
    var ms := ToList(g.andConditions);
    seq(|ms|, j requires 0 <= j < |ms| => TermsDoc(k, f, ms[j]))
  }

  /** `{bool: {must: [...]}}` of the terms clauses for field `f`. */
  function FieldDoc(k: Collapse, f: string, g: Group): Doc
  {
    Entry(Sym("bool"), Entry(Sym("must"), List(FieldClauses(k, f, g))))
  }

  /** One must clause per field. */
  function GroupClauses(k: Collapse, g: Group): (ds: seq<Doc>)
    ensures |ds| == |ToList(g.fieldList)|
    ensures forall i :: 0 <= i < |ds| ==> ds[i] == FieldDoc(k, ToList(g.fieldList)[i], g)
  {
    var fs := ToList(g.fieldList);
    seq(|fs|, i requires 0 <= i < |fs| => FieldDoc(k, fs[i], g))
  }

  /** `{bool: {should: [...]}}` of the must clauses of a group. */
  function GroupDoc(k: Collapse, g: Group): Doc
  {
    Entry(Sym("bool"), Entry(Sym("should"), List(GroupClauses(k, g))))
  }

  /** One should clause per group. */
  function QueryClauses(k: Collapse, t: Tree): (ds: seq<Doc>)
    ensures |ds| == |ToList(t.queries)|
    ensures forall i :: 0 <= i < |ds| ==> ds[i] == GroupDoc(k, ToList(t.queries)[i])
  {
    var gs := ToList(t.queries);
    seq(|gs|, i requires 0 <= i < |gs| => GroupDoc(k, gs[i]))
  }

  /** `{query: {bool: {must: [...]}}}` */
  function QueryDoc(k: Collapse, t: Tree): Doc
  {
    Entry(Sym("query"), Entry(Sym("bool"), Entry(Sym("must"), List(QueryClauses(k, t)))))
  }

  lemma TermsDocEval(k: Collapse, f: string, m: Many<Condition>)
    ensures EvalNode(Terms(OrToTerms(k, m).values, Some(f))) == TermsDoc(k, f, m)
  {
  }

  lemma FieldDocEval(k: Collapse, f: string, g: Group)
    ensures EvalNode(Must(WithField(GroupTerms(k, g), f))) == FieldDoc(k, f, g)
  {
    var ms := ToList(g.andConditions);
    var qs := WithField(GroupTerms(k, g), f);
    var ds := EvalAll(qs);
    forall j | 0 <= j < |ms|
      ensures ds[j] == TermsDoc(k, f, ms[j])
    {
      TermsDocEval(k, f, ms[j]);
    }
    assert ds == FieldClauses(k, f, g);
  }

  lemma GroupDocEval(k: Collapse, g: Group)
    ensures EvalNode(TransformGroup(k, g)) == GroupDoc(k, g)
  {
    var fs := ToList(g.fieldList);
    var r := TransformGroup(k, g);
    forall i | 0 <= i < |fs|
      ensures EvalAll(r.queries)[i] == FieldDoc(k, fs[i], g)
    {
      FieldDocEval(k, fs[i], g);
    }
    assert EvalAll(r.queries) == GroupClauses(k, g);
  }

  /**
   * The whole pipeline: a query that parses gives
   * `{query: {bool: {must: [{bool: {should: [{bool: {must: [{terms: {f => vs}}, ...]}}, ...]}}, ...]}}}`,
   * one should clause per group, one must clause per field, one terms clause
   * per and-group, with nothing unwrapped even when a list has one element.
   */
  lemma TranslateDocument(k: Collapse, s: string)
    ensures Parse(s).None? ==> Translate(k, s).None?
    ensures Parse(s).Some? ==> Translate(k, s) == Some(QueryDoc(k, Parse(s).value))
  {
    if Parse(s).Some? {
      TransformDocument(k, Parse(s).value);
    }
  }

  lemma TransformDocument(k: Collapse, t: Tree)
    ensures EvalQuery(Transform(k, t)) == QueryDoc(k, t)
  {
    var gs := ToList(t.queries);
    var q := Transform(k, t).boolQuery;
    forall i | 0 <= i < |gs|
      ensures EvalAll(q.queries)[i] == GroupDoc(k, gs[i])
    {
      GroupDocEval(k, gs[i]);
    }
    assert EvalAll(q.queries) == QueryClauses(k, t);
  }
}
