/**
 * The concrete syntax tree that the query grammar produces (the hash/array
 * tree Parslet builds from the `.as(...)` labels), the character classes the
 * grammar uses, and the well-formedness of a tree that came out of a parse.
 */
module Syntax {

  /**
   * A labelled repetition `x >> (sep >> x).repeat`: Parslet yields the lone
   * subtree when nothing was repeated, and an array of two or more otherwise.
   */
  datatype Many<T> = One(item: T) | Several(items: seq<T>)

  /** The transformer's `v.is_a?(Array) ? v : [v]`. */
  function ToList<T>(m: Many<T>): (l: seq<T>)
    ensures m.One? ==> l == [m.item]
    ensures m.Several? ==> l == m.items
    ensures ValidMany(m) ==> (|l| == 1 <==> m.One?)
  {
    match m
    case One(x) => [x]
    case Several(xs) => xs
  }

  /** The shape a parse gives: an array only from two elements on. */
  predicate ValidMany<T>(m: Many<T>)
  {
    m.Several? ==> |m.items| >= 2
  }

  /** How Parslet folds a first item and its repetition into one subtree. */
  function Collect<T>(first: T, more: seq<T>): (m: Many<T>)
    ensures ValidMany(m)
    ensures ToList(m) == [first] + more
  {
    if more == [] then One(first) else Several([first] + more)
  }

  /** `{condition: "tok"}` is `Raw("tok")`; `{condition: {str: "body"}}` is `Quoted("body")`. */
  datatype Condition = Raw(text: string) | Quoted(body: string)

  /** `{field_list: ..., and_conditions: ...}`: one query group. */
  datatype Group = Group(fieldList: Many<string>, andConditions: Many<Many<Condition>>)

  /** `{and_queries: ...}`: the root. */
  datatype Tree = AndQueries(queries: Many<Group>)

  /** Ruby's `\s`: space, tab, line feed, vertical tab, form feed, carriage return. */
  predicate IsSpace(c: char)
  {
    c == ' ' || c == '\t' || c == '\n' || c == '\U{B}' || c == '\U{C}' || c == '\r'
  }

  /** `[_0-9a-zA-Z.]` */
  predicate IsIdentChar(c: char)
  {
    c == '_' || c == '.' || ('0' <= c <= '9') || ('a' <= c <= 'z') || ('A' <= c <= 'Z')
  }

  /** `[^:\s]` */
  predicate IsRawChar(c: char)
  {
    c != ':' && !IsSpace(c)
  }

  predicate IsQuote(c: char)
  {
    c == '"' || c == '\''
  }

  predicate StartsWith(s: string, w: string)
  {
    |w| <= |s| && s[..|w|] == w
  }

  predicate IsIdentifier(f: string)
  {
    |f| > 0 && forall i :: 0 <= i < |f| ==> IsIdentChar(f[i])
  }

  /** What `raw_condition` accepts: a non-empty run of `[^:\s]` not beginning with `and`. */
  predicate IsRawToken(t: string)
  {
    |t| > 0 && (forall i :: 0 <= i < |t| ==> IsRawChar(t[i])) && !StartsWith(t, "and")
  }

  /**
   * The text between the delimiters of a string quoted with `q`: a sequence of
   * units, each either a backslash with the character after it, or one
   * character that is neither a backslash nor `q`.
   */
  predicate IsBody(b: string, q: char)
    decreases |b|
  {
    b == []
    || (b[0] == '\\' && |b| >= 2 && IsBody(b[2..], q))
    || (b[0] != '\\' && b[0] != q && IsBody(b[1..], q))
  }

  predicate WellFormedCondition(c: Condition)
  {
    match c
    case Raw(t) => IsRawToken(t)
    case Quoted(b) => IsBody(b, '"') || IsBody(b, '\'')
  }

  predicate WellFormedOr(m: Many<Condition>)
  {
    ValidMany(m) && forall c :: c in ToList(m) ==> WellFormedCondition(c)
  }

  predicate WellFormedGroup(g: Group)
  {
    && ValidMany(g.fieldList)
    && (forall f :: f in ToList(g.fieldList) ==> IsIdentifier(f))
    && ValidMany(g.andConditions)
    && (forall m :: m in ToList(g.andConditions) ==> WellFormedOr(m))
  }

  predicate WellFormed(t: Tree)
  {
    ValidMany(t.queries) && forall g :: g in ToList(t.queries) ==> WellFormedGroup(g)
  }
}
