/**
 * The query AST the transformer builds (the `EsQuery`, `MustQueries`,
 * `ShouldQueries` and `Terms` structs) and their `eval`, which turns it into
 * the nested hash that is later written out as JSON.
 */
module Ast {
  import opened Wrappers

  /**
   * `MustQueries`, `ShouldQueries` and `Terms`; `field` is nil until the
   * transformer sets it. The values of a `Terms` are whatever Ruby objects
   * the transformer put there: normally strings, but a subtree that no rule
   * collapsed stays a hash.
   */
  datatype Node =
    | Must(queries: seq<Node>)
    | Should(queries: seq<Node>)
    | Terms(values: seq<Doc>, field: Option<string>)

  /** `EsQuery`: the root; its one member, `bool` in the struct, is `boolQuery` here (`bool` is a Dafny type name). */
  datatype EsQuery = EsQuery(boolQuery: Node)

  /**
   * A hash key: the symbols `eval` writes (`:query`, `:bool`, ...), a field
   * name string, or nil (the key of a `Terms` whose field was never set).
   */
  datatype Key = Sym(name: string) | Str(text: string) | Nil

  /** The Ruby value `eval` returns: hashes (entries in insertion order), arrays and strings. */
  datatype Doc = Hash(entries: seq<(Key, Doc)>) | List(elems: seq<Doc>) | Text(text: string)

  /** A hash with a single entry. */
  function Entry(k: Key, v: Doc): Doc
  {
    Hash([(k, v)])
  }

  function FieldKey(f: Option<string>): Key
  {
    match f
    case Some(name) => Str(name)
    case None => Nil
  }

  /**
   * `eval` of the three node structs: `{bool: {must: [...]}}`,
   * `{bool: {should: [...]}}` and `{terms: {field => values}}`, the children
   * evaluated in order by `queries.map(&:eval)`.
   */
  function EvalNode(n: Node): (d: Doc)
    ensures d.Hash? && |d.entries| == 1
    ensures n.Terms? <==> d.entries[0].0 == Sym("terms")
    ensures !n.Terms? <==> d.entries[0].0 == Sym("bool")
    decreases n, 1
  {
    match n
    case Must(qs) => Entry(Sym("bool"), Entry(Sym("must"), List(EvalAll(qs))))
    case Should(qs) => Entry(Sym("bool"), Entry(Sym("should"), List(EvalAll(qs))))
    case Terms(vs, f) => Entry(Sym("terms"), Entry(FieldKey(f), List(vs)))
  }

  /** `queries.map(&:eval)` */
  function EvalAll(qs: seq<Node>): (ds: seq<Doc>)
    ensures |ds| == |qs|
    ensures forall i :: 0 <= i < |qs| ==> ds[i] == EvalNode(qs[i])
    decreases qs, 0
  {
    seq(|qs|, i requires 0 <= i < |qs| => EvalNode(qs[i]))
  }

  /** `EsQuery#eval`: `{query: bool.eval}`. */
  function EvalQuery(q: EsQuery): (d: Doc)
    ensures d.Hash? && |d.entries| == 1 && d.entries[0] == (Sym("query"), EvalNode(q.boolQuery))
  {
    Entry(Sym("query"), EvalNode(q.boolQuery))
  }

  /** Reads a node back from a document; the inverse of `EvalNode`. */
  function DecodeNode(d: Doc): Option<Node>
    decreases d
  {
    if !d.Hash? || |d.entries| != 1 || !d.entries[0].1.Hash? then None
    else
      var outer := d.entries[0];
      assert outer in d.entries;
      var inner := outer.1;
      if |inner.entries| != 1 || !inner.entries[0].1.List? then None
      else
        var pair := inner.entries[0];
        assert pair in inner.entries;
        var items := pair.1.elems;
        if outer.0 == Sym("bool") && (pair.0 == Sym("must") || pair.0 == Sym("should")) then
          match DecodeAll(items)
          case None => None
          case Some(qs) => if pair.0 == Sym("must") then Some(Must(qs)) else Some(Should(qs))
        else if outer.0 == Sym("terms") && !pair.0.Sym? then
          Some(Terms(items, if pair.0.Str? then Some(pair.0.text) else None))
        else None
  }

  function DecodeAll(ds: seq<Doc>): Option<seq<Node>>
    decreases ds
  {
    if ds == [] then Some([])
    else
      assert ds[0] in ds;
      match DecodeNode(ds[0])
      case None => None
      case Some(n) =>
        match DecodeAll(ds[1..])
        case None => None
        case Some(ns) => Some([n] + ns)
  }

  /** `eval` forgets nothing: the node can be read back from its document. */
  lemma {:induction false} DecodeEval(n: Node)
    ensures DecodeNode(EvalNode(n)) == Some(n)
    decreases n, 1
  {
    match n
    case Must(qs) => DecodeEvalAll(qs);
    case Should(qs) => DecodeEvalAll(qs);
    case Terms(vs, f) =>
  }

  lemma {:induction false} DecodeEvalAll(qs: seq<Node>)
    ensures DecodeAll(EvalAll(qs)) == Some(qs)
    decreases qs, 0
  {
    var ds := EvalAll(qs);
    if qs != [] {
      assert qs[0] in qs;
      DecodeEval(qs[0]);
      assert ds[1..] == EvalAll(qs[1..]);
      DecodeEvalAll(qs[1..]);
      assert [qs[0]] + qs[1..] == qs;
    }
  }

  /** Two nodes with the same document are the same node. */
  lemma EvalInjective(a: Node, b: Node)
    requires EvalNode(a) == EvalNode(b)
    ensures a == b
  {
    DecodeEval(a);
    DecodeEval(b);
  }

  /** Two queries with the same document are the same query. */
  lemma EvalQueryInjective(a: EsQuery, b: EsQuery)
    requires EvalQuery(a) == EvalQuery(b)
    ensures a == b
  {
    assert EvalNode(a.boolQuery) == EvalQuery(a).entries[0].1;
    EvalInjective(a.boolQuery, b.boolQuery);
  }

  /** `eval` never collapses a one-clause `Must` or `Should` into its clause. */
  lemma NoSingleClauseUnwrap(c: Node)
    ensures EvalNode(Must([c])) != EvalNode(c)
    ensures EvalNode(Should([c])) != EvalNode(c)
  {
    assert c in [c];
    if EvalNode(Must([c])) == EvalNode(c) {
      EvalInjective(Must([c]), c);
    }
    if EvalNode(Should([c])) == EvalNode(c) {
      EvalInjective(Should([c]), c);
    }
  }
}
