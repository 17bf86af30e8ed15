# Search-query parser: a Dafny model

The program reads one line of search syntax, for example
`title,subtitle: a b and c`, and turns it into an Elasticsearch boolean query
document. It does this in three stages, all in `main.rb`:

1. **Grammar.** A Parslet PEG parser (`BaseParser`, `QueryParser`) builds a
   concrete tree.
   - The input is a list of query groups separated by whitespace.
   - Each group is a field list `f1,f2:`, then and-conditions separated by
     ` and `.
   - Each and-condition is an or-group: conditions separated by whitespace or
     by ` or `.
   - A condition is a raw token or a quoted string.
2. **Transformer.** `ElasticSearchQueryTransformer` rewrites the tree into the
   structs `EsQuery`, `MustQueries`, `ShouldQueries` and `Terms`.
   - Each or-group becomes one `Terms`.
   - Each group becomes a Should with one Must per field. That Must holds a
     copy of every `Terms`, with its field set.
   - The root is always `EsQuery(MustQueries(groups))`.
3. **Evaluator.** `eval` turns the structs into nested hashes:
   `{query: ...}`, `{bool: {must: [...]}}`, `{bool: {should: [...]}}` and
   `{terms: {field => values}}`.

## Modules

- `Syntax` (`syntax.dfy`) holds the concrete tree and the grammar's character classes.
  - `Many<T>` keeps Parslet's distinction between a lone subtree (`One`) and an array (`Several`).
  - `ToList` is the transformer's `x.is_a?(Array) ? x : [x]`.
- `Grammar` (`grammar.dfy`) has one parsing function per grammar rule.
  - Each function takes the remaining input and returns `Fail` or the value plus the unread rest.
  - Choice is ordered and commits to the first alternative that succeeds.
  - Repetitions are greedy and undo only the iteration that failed.
  - `Parse` adds the trailing `space?` and the check that all input was read.
- `Printer` (`printer.dfy`) is a canonical printer for concrete trees, together with the round trip `Parse(Render(t)) == Some(t)`.
- `GrammarFacts` (`grammar_facts.dfy`) proves quoting, the `and` rule, tokens before a colon, and the mandatory field prefix.
- `Ast` (`ast.dfy`) holds the structs, `eval`, and `DecodeNode`, a decoder that inverts `eval`.
- `Transformer` (`transformer.dfy`) contains:
  - the rewrite rules and the pipeline `Translate`, both taking a `Collapse` argument:
    - `Translate(AsWritten, s)` is the program as written;
    - `Corrected` differs from it only for the empty quoted string (see "## Findings").
  - a proof that the two collapses give the same document exactly when no condition is `""` or `''`;
  - what a query means over an index of field terms, proved to match the intent stated in the rule comments;
  - a reference document computed straight from the concrete tree.
- `Examples` (`examples.dfy`) covers the cases the grammar comments discuss.
  - Most are proved for all words and identifiers.
  - `Examples.NoFieldRejected` and `Examples.EscapeKept` are stated for one fixed string each.

The model follows main.rb as written:

- escapes are never decoded, so `'it\'s'` yields `it\'s` with its backslash;
- there is no default field, and a group without `field:` is a parse error;
- `eval` never collapses a one-clause Must or Should;
- there is no pagination and no API for appending conditions.
- `Translate(AsWritten, s)` keeps the empty quoted string as the hash `{condition: {str: []}}` the rules leave behind, as main.rb does.

A consequence of `str('and').absent?` (main.rb:37): every word that begins
with `and` is rejected, not only the keyword itself. So `title: android` does not parse
(`Examples.AndWordRejected`).

## Model

| member | source | states |
|---|---|---|
| Syntax.ToList | main.rb:131 | `v.is_a?(Array) ? v : [v]`: a lone subtree becomes a one-element list and an array is kept; on the shapes a parse gives, the list has one element exactly when the subtree was lone, so no information is lost |
| Syntax.Collect | main.rb:22-30 | `x >> (sep >> x).repeat` yields a lone subtree when nothing repeats and an array of two or more otherwise; read back with `is_a?(Array) ? x : [x]` it is the first item followed by the repeated ones |
| Grammar.Span | main.rb:6 | the length of the longest prefix whose characters all belong to the class |
| Grammar.SkipSpace | main.rb:7 | `space?` leaves a suffix of the input: it drops only leading `\s` characters, and all of them |
| Grammar.Space | main.rb:6 | `match('\s').repeat(1)` succeeds exactly when the input starts with whitespace, and leaves what `space?` leaves |
| Grammar.Literal | main.rb:12 | `str(w)` succeeds exactly when the input starts with `w`, and consumes `w` |
| Grammar.QuotedBody | main.rb:11-16 | the body loop stops at the first unescaped delimiter; the captured body is a sequence of escape pairs and non-delimiter characters, kept as written |
| Grammar.DelimitedBy | main.rb:12-16 | a quoted string is delimiter, body, delimiter; the value is the body |
| Grammar.QuotedString | main.rb:9 | a quoted string begins with `"` or `'`, and its value is a body for that quote character |
| Grammar.RawCondition | main.rb:35-37 | succeeds exactly when the input starts with a character of `[^:\s]` and not with `and`; consumes the whole run of such characters |
| Grammar.ParseCondition | main.rb:34 | a condition is well-formed and is never directly followed by `:` |
| Grammar.OrOp | main.rb:31 | `or_op` succeeds exactly when the input starts with whitespace; it consumes whitespace, `or`, whitespace when that matches, and otherwise only the leading whitespace |
| Grammar.AndOp | main.rb:32 | `and_op` succeeds exactly when the input is whitespace, `and`, whitespace, and consumes exactly that |
| Grammar.OrTail | main.rb:30 | the repetition reads only well-formed conditions and never reads backwards |
| Grammar.ParseOrConditions | main.rb:30 | an or-group is a well-formed lone condition or an array of two or more |
| Grammar.AndTail | main.rb:29 | the repetition reads only well-formed or-groups |
| Grammar.ParseAndConditions | main.rb:29 | and-conditions are a lone or-group or an array of two or more, all well-formed |
| Grammar.Identifier | main.rb:38 | succeeds exactly when the input starts with a character of `[_0-9a-zA-Z.]`; reads the whole run |
| Grammar.FieldTail | main.rb:26 | the repeated `,identifier` items are identifiers |
| Grammar.MultiField | main.rb:26 | a field list is a lone identifier or an array of two or more |
| Grammar.FieldPrefix | main.rb:25 | `multi_field >> ':' >> space?` yields a valid field list |
| Grammar.ParseQuery | main.rb:23 | a query group is a field list followed by and-conditions, all well-formed |
| Grammar.QueriesTail | main.rb:22 | the repeated `space >> query` items are well-formed groups |
| Grammar.ParseAndQueries | main.rb:22 | the root is a lone group or an array of two or more |
| Grammar.Parse | main.rb:20-22 | a successful parse gives a well-formed tree |
| Printer.ParseRender | main.rb:19-39 | parsing the printed form of any printable tree gives that tree back |
| Printer.QueryRoundTrip | main.rb:23 | one printed group parses back to itself before a following group or the end |
| Printer.AndRoundTrip | main.rb:29 | printed and-conditions parse back to themselves |
| Printer.OrRoundTrip | main.rb:30 | a printed or-group parses back to itself |
| Printer.ConditionRoundTrip | main.rb:34 | a printed condition parses back to itself |
| Printer.QuotedStringRoundTrip | main.rb:9 | `q`, a body for `q`, `q` is read back as exactly that body, whichever quote `q` is |
| Printer.DelimitedRoundTrip | main.rb:13-16 | the same for one kind of quote |
| Printer.QuotedBodyRoundTrip | main.rb:11-16 | a body followed by its delimiter is read up to that delimiter and no further |
| Printer.RawRoundTrip | main.rb:37 | a raw token is read whole, up to the first space or colon |
| Printer.IdentifierRoundTrip | main.rb:38 | an identifier is read whole |
| Printer.MultiFieldRoundTrip | main.rb:26 | a printed field list parses back to itself |
| Printer.OrTailRoundTrip | main.rb:30 | printed ` or c` items are read back in order |
| Printer.AndTailRoundTrip | main.rb:29 | printed ` and o` items are read back in order |
| Printer.FieldTailRoundTrip | main.rb:26 | printed `,f` items are read back in order |
| Printer.QueriesTailRoundTrip | main.rb:22 | printed ` group` items are read back in order |
| Printer.OrTailBeforeAnd | main.rb:30-37 | the or-repetition stops before ` and `, because `and` is no condition |
| Printer.OrTailStops | main.rb:30 | the or-repetition stops before ` and ` and before a following group |
| Printer.AndTailStops | main.rb:29 | the and-repetition stops before a following group |
| Printer.FieldStartNotCondition | main.rb:34 | the start of a group `f:` is never read as a condition |
| GrammarFacts.QuotedIff | main.rb:12-16 | a quoted string with value `b` is exactly `q`, a body `b` for `q`, `q` |
| GrammarFacts.EscapedQuoteKept | main.rb:11-16 | a backslash before the delimiter does not close the string, and both characters stay in the value |
| GrammarFacts.OtherQuoteInBody | main.rb:13-16 | the other quote character needs no escape |
| GrammarFacts.SwapBody | main.rb:13-16 | exchanging `"` and `'` maps bodies for one quote to bodies for the other |
| GrammarFacts.QuoteSymmetry | main.rb:9-16 | double and single quotes behave alike: exchanging the two characters in the input exchanges them in the value and the rest |
| GrammarFacts.AndPrefixRejected | main.rb:35-37 | no raw token, and no condition, begins with `and` |
| GrammarFacts.QuotedAndAccepted | main.rb:36 | `"and"` is an ordinary condition with value `and` |
| GrammarFacts.RawBeforeColon | main.rb:34 | a raw token directly followed by `:` is not a condition |
| GrammarFacts.QuotedBeforeColon | main.rb:34 | nor is a quoted string directly followed by `:` |
| GrammarFacts.FieldTailEnds | main.rb:26 | what the field list leaves unread is a suffix of its input |
| GrammarFacts.FieldPrefixColon | main.rb:25-26 | a field prefix starts with an identifier character and needs a colon in the input |
| GrammarFacts.FieldPrefixRequired | main.rb:23 | every input that parses starts with an identifier character and contains a colon |
| GrammarFacts.NoColonNoParse | main.rb:23-25 | an input without `:` never parses |
| Ast.EvalNode | main.rb:55-94 | each node becomes a one-entry hash, keyed `terms` for `Terms` and `bool` for Must and Should |
| Ast.EvalAll | main.rb:60 | `queries.map(&:eval)` keeps length and order |
| Ast.EvalQuery | main.rb:41-47 | `EsQuery#eval` is `{query: bool.eval}` |
| Ast.DecodeEval | main.rb:41-94 | `eval` loses nothing: the node can be read back from its document |
| Ast.DecodeEvalAll | main.rb:60 | the same for a list of nodes |
| Ast.EvalInjective | main.rb:41-94 | different nodes give different documents |
| Ast.EvalQueryInjective | main.rb:41-47 | different queries give different documents |
| Ast.NoSingleClauseUnwrap | main.rb:55-80 | a Must or Should of one clause is not evaluated as that clause |
| Transformer.CondValue | main.rb:110-112 | the intended string of a condition: the raw token, or the quoted body with its escapes kept |
| Transformer.ConditionValue | main.rb:34-37 | a parsed condition's value is its source text: the token itself, or exactly what stands between the two quotes |
| Transformer.Value | main.rb:110-112 | as written, every condition collapses to its string except the empty quoted string, which stays `{condition: {str: []}}`; corrected, every condition collapses |
| Transformer.ValueList | main.rb:131 | the collapsed conditions in source order |
| Transformer.OrToTerms | main.rb:129-133 | an or-group becomes one `Terms` with the collapsed conditions in source order; a lone condition becomes a one-element list; the field is unset |
| Transformer.WithField | main.rb:159-164 | `dup.tap { obj.field = field }` copies every node in order, with the field set and the values untouched |
| Transformer.Distribute | main.rb:156-167 | n fields and m nodes give a Should of n Musts in field order; the i-th Must holds the m nodes in order, each with field i. Each copy keeps its own field, so one field's assignment never overwrites another's |
| Transformer.GroupTerms | main.rb:157 | the and-conditions, each rewritten by the or-group rule, as a list even when there is one |
| Transformer.TransformGroup | main.rb:149-168 | a group becomes a Should with one Must per field, each holding one `Terms` per and-group |
| Transformer.Transform | main.rb:170-176 | the root is always `EsQuery(MustQueries(...))` with one clause per group in order, even for one group |
| Transformer.Translate | main.rb:184-196 | the pipeline yields a document exactly when the input parses |
| Transformer.OrAgree | main.rb:110-133 | the two collapses give the same `Terms` exactly when the or-group has no empty quoted string |
| Transformer.SpelledGroup | main.rb:149-168 | a group without an empty quoted string is rewritten identically by both collapses |
| Transformer.GroupAgree | main.rb:149-168 | the two rewrites of a group agree exactly when none of its conditions is the empty quoted string |
| Transformer.SameWhenSpelled | main.rb:170-176 | a tree without an empty quoted string is rewritten identically by both collapses |
| Transformer.DiffersAt | main.rb:170-176 | one group with an empty quoted string makes the two rewrites of the tree differ |
| Transformer.CollapseAgree | main.rb:110-176 | for every parsed tree, the program's rewrite equals the corrected one exactly when no condition is the empty quoted string |
| Transformer.TranslateAgree | main.rb:184-196 | the program's document equals the corrected document exactly when the query does not parse or has no empty quoted string |
| Transformer.OrMeaning | main.rb:119-128 | with the corrected collapse, `Terms` on a field matches when some condition of the or-group is a term of that field |
| Transformer.MustMeaning | main.rb:135-147 | the Must for a field matches when that field satisfies every and-group |
| Transformer.GroupMeaning | main.rb:135-168 | with the corrected collapse, a group matches exactly when one of its fields satisfies every and-group; `f1,f2: a and b` means that f1 or f2 matches both a and b |
| Transformer.TransformMeaning | main.rb:170-176 | with the corrected collapse, the whole query matches exactly when every group matches; `CollapseAgree` carries this to the program whenever no condition is the empty quoted string |
| Transformer.DistributeCount | main.rb:159-166 | n fields and m and-groups give n times m `Terms` nodes |
| Transformer.FieldClauses | main.rb:159-166 | one terms clause per and-group for a field |
| Transformer.GroupClauses | main.rb:159-167 | one must clause per field |
| Transformer.QueryClauses | main.rb:170-176 | one should clause per group |
| Transformer.TermsDocEval | main.rb:85-94 | a `Terms` with its field set evaluates to the reference `{terms: {f => values}}` |
| Transformer.FieldDocEval | main.rb:55-94 | the Must for one field evaluates to the reference `{bool: {must: [{terms: {f => values}}, ...]}}` |
| Transformer.GroupDocEval | main.rb:71-80 | a transformed group evaluates to the reference `{bool: {should: [...]}}` |
| Transformer.TransformDocument | main.rb:41-94 | under either collapse, the transformed tree evaluates to the reference document built directly from the concrete tree |
| Transformer.TranslateDocument | main.rb:184-196 | the pipeline yields the reference document exactly when the input parses |
| Examples.Precedence | main.rb:28-32 | `f: a b and c` gives and-conditions `[[a, b], [c]]` |
| Examples.BareSeparator | main.rb:31 | a single space before a word other than `or` is an `or_op` on its own, consuming just that space |
| Examples.TokenBeforeColonStartsGroup | main.rb:22-34 | in `f: a g:c`, the token `g` starts a second group `g: c` |
| Examples.AndWordRejected | main.rb:35-37 | `f: and...`, including `f: android`, does not parse |
| Examples.DoubleAndRejected | main.rb:22-32 | `f: a and and x` does not parse |
| Examples.NoFieldRejected | main.rb:23 | `foo and bar` does not parse |
| Examples.EscapeKept | main.rb:11-16 | `'it\'s'` has the value `it\'s` |
| Examples.SingleCondition | main.rb:22-38 | `f: c` is one group with one field and one condition |
| Examples.SingleDocument | main.rb:41-94 | the document of `f: c` keeps every Must and Should level although each array has one element, under either collapse |
| Examples.EmptyParse | main.rb:13 | `f: ""` parses to one group with the empty quoted condition |
| Examples.EmptyQuotedAsWritten | main.rb:110-112 | the program's document for `f: ""` has the hash `{condition: {str: []}}` where the search value should be |
| Examples.EmptyQuotedCorrected | main.rb:110-112 | with the corrected collapse, `f: ""` looks for the empty string in `f` |
| Examples.DistributionExample | main.rb:149-176 | the program turns `f1,f2: a or b and c` into `{query: Must[Should[Must[terms(f1: a b), terms(f1: c)], Must[terms(f2: a b), terms(f2: c)]]]}` |
| Examples.DistributeTwo | main.rb:149-168 | the distribution for two fields and two or-groups |

## Left out

- Reading standard input, printing the raw query, the syntax tree and the JSON, and `to_json` itself (main.rb:179-196). The model stops at the Ruby hash that `eval` returns.
- The `Parslet::ParseFailed` report and its `ascii_tree` (main.rb:187-189). A failed parse is `None`.
- Parslet's generic machinery: atoms, caching, and the pattern matching in `Parslet::Transform`. The grammar rules and the rewrite rules are written out as functions instead, and the tree shapes Parslet builds are encoded in `Many` and `Condition`.
- The debug `p [:or_conditions, values]` (main.rb:130), which only writes to the console.
- Object identity. `dup` and the in-place `obj.field = field` (main.rb:161-163) are a record update on a value (`WithField`). So aliasing between the copies cannot arise in the model. That the copies keep distinct fields is stated in `Distribute`'s contract.
- Transformer.Transform: defined on the tree `Parse` builds. A hand-made tree with a field-less `Terms`, or a Struct in some other place, is not modelled, and neither is the `NoMethodError` that `obj.field =` would raise on a non-`Terms` node. `Distribute` requires `Terms` nodes for that reason.
- Parslet attaches source positions to the strings it captures. The model keeps only their text.
- Transformer.Matches: a reading of the intent in the comments at main.rb:119-148, not Elasticsearch's query engine. A `Terms` value that is not a string (the empty-quoted-string hash) counts as matching nothing; Elasticsearch would reject such a query.
- Transformer.OrMeaning, Transformer.MustMeaning, Transformer.GroupMeaning, Transformer.TransformMeaning: stated for the corrected collapse only. For the program as written they hold exactly for the trees `Transformer.CollapseAgree` covers, those without an empty quoted string.
- Printer.ParseRender: stated for printable trees, that is, trees whose raw tokens do not start with a quote character. A parse yields such a token only for an unterminated quote, and a printed closing quote further on could then pair with it.
- The printer always separates conditions with ` or `. The bare-space separator is covered by `Examples.Precedence` and `Examples.BareSeparator`, not by the round trip.

## Findings

| source | as written | input that shows it | evidently intended | confidence | as-written member | corrected member |
|---|---|---|---|---|---|---|
| main.rb:110-112 | `.repeat.as(:str)` captures an empty body as `[]`, and `simple(:x)` binds neither arrays nor hashes. So `""` stays `{condition: {str: []}}` and reaches `Terms` as a hash instead of a string | `title: ""` | the empty quoted string collapses to `""` like every other quoted value | medium, not executed | Examples.EmptyQuotedAsWritten, Transformer.TranslateAgree | Examples.EmptyQuotedCorrected, Transformer.TransformMeaning |
