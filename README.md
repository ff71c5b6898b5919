# tagstudio_db query layer in Dafny

This project models the query layer of `tagstudio_db`, a Rust crate that reads
TagStudio libraries stored in SQLite. It has four parts.

- **Filters.** `TagFilter` and `EntryFilter` trees turn search criteria into one
  SQL `WHERE` condition and an ordered list of bound values. Rendering
  (`get_where_condition`) moves a shared `&mut u64` placeholder counter. Binding
  (`bind`) is a separate pass that appends the values in placeholder order.
- **The older two-pass protocol (`Queryfragments`).** The subquery pass writes
  named `ChildTags_n` tables. The condition pass writes conditions that refer to
  those tables.
- **The search-text parser.** A `nom` grammar that reads words, quoted phrases,
  `and`, `or`, `not` and parenthesised groups.
- **Opening a library.** The search for the library root among a path's
  ancestors, and the database version rule.

How the model is built:

- **SQL text.** A rendered condition is a sequence of pieces: literal text, a
  placeholder slot and a numbered table name (`sql.dfy`). Rendering is a pure
  function `Render(q, n)` that returns the condition and the counter on exit.
  Each `get_where_condition` / `get_subquery` is also a method on a `Counter`
  object whose `AddAssign` is Rust's `bind_id.add_assign(k)`. Each method is
  proved equal to its function.
- **The alignment theorem.** Binding a tree's values from position `n` into its
  rendering from `n` gives the same SQL as writing the tree's own values in
  place of the placeholders (`TagFilters.TagAlignment`,
  `EntryFilters.EntryAlignment`).
- **Meaning.** A finite snapshot of the tables (`snapshot.dfy`) and a reading of
  the generated SQL in SQL's three-valued logic (`meaning.dfy`) give the
  selected rows. `fixture.dfy` holds the crate's test library and the examples
  the crate's tests use.
- **Legacy templates.** The legacy passes are defined for any leaf templates
  (`Legacy.Templates`), and their theorems hold for any templates that meet the
  stated shape. `Legacy.Sources` holds the crate's own texts, and
  `Legacy.SourcesOwn` proves that they meet that shape.

SQL text is kept as the crate writes it, with two exceptions. The SQL comments
in leaf templates are dropped. Layout whitespace is written as one space, with
none next to a parenthesis. The combinator wrappers (`(a AND b)`,
`(NOT (c))`, `SELECT * FROM `tags` WHERE (…)` and so on) are exact.

Behaviour of the code as written that the model states and proves:

- **`QueryAnd2` grouping.** `QueryAnd2` adds no parentheses around its
  operands, and `EqTagString2` renders a bare `OR` chain. So a tag-level AND
  of two words is read by SQL with the wrong grouping:
  - `Meaning.TextAndReading` gives the general case.
  - `Fixture.WordAndGapExample` shows that `maxwell AND doge` selects Maxwell
    and Doge, where the intended reading selects nothing.
  - Wherever every `And` has grouped operands, the SQL reading is the intended
    meaning (`Meaning.ReadingAgrees`).
- **`EqTagOrParents`.** It walks from parent to child, exactly as
  `EqTagOrChildren` does (`TagFilters.ParentsRenderAsChildren`).
- **`sp1`.** It has the body of `sp`, so it does not require any whitespace. A word that
  starts with `or` after another word is split into the keyword and the rest
  (`ParserExamples.KeywordLedWordSplits`).
- **`parse_explicit_not`.** It is the last alternative of `parse_filter_token`,
  and every text it accepts starts with a bare word. So `not w` is read as the
  two words `not` and `w` (`Parsing.ExplicitNot`, `ParserExamples.NotIsAWord`).
- **`parse`.** It discards leftover input, so a third word is dropped
  (`ParserExamples.ThirdWordDropped`).
- **Legacy `TagAnd`.** It adds two extra counter increments in each pass.
  Both passes still advance alike, so table names pair up
  (`Legacy.PassesAdvanceAlike`, `Legacy.NamesPairUp`). The placeholders of a
  `TagAnd` are no longer the positions of its bound values, however
  (`Legacy.AndGap`).
- **`TagEq`.** It reads no counter. Its placeholder is `$tag_name_<id>` for a
  caller-given id.
- **`EqTagString`.** eq_tag_string.rs converts `EqTagString` into the
  `Queryfragments` variant named `EqTag`, the same variant `EqTag` itself is
  converted into. The enum is not part of this model, so which walk that
  variant runs is not shown. The model follows `EqTagString`'s own
  `get_subquery`, which walks downward (`Legacy.EqTagStringWalk`).
- **The version rule.** It accepts exactly 101, 201, 301 and so on. The default
  100, used when the version row cannot be read, is refused
  (`Library.VersionAcceptedIff`).
- **`EqEntryName("maxwell.png")`.** It selects entry 0, the row with that file
  name (`Fixture.EntryNameExample`).
- **The `DESCRIPTION` field.** The text field row belongs to entry 0
  (`Fixture.FieldExample`).
- **`EqAbsolutePath`.** The single-slash path `/tmp/somwhere/far/away.png`
  selects nothing over the test library, because its folder path ends in `/`.
  The doubled-slash spelling selects entry 4 (`Fixture.AbsolutePathSingleSlash`,
  `Fixture.AbsolutePathDoubledSlash`).

## Model

| member | source | states |
|---|---|---|
| Sql.Counter.constructor | src/query/trait_tag_filter.rs:31 | a counter starts at the value given (`&mut 1` in `fetch_all`) |
| Sql.Counter.AddAssign | src/query/eq_tag_id.rs:13-14 | `add_assign(k)` moves the counter by exactly `k` and changes nothing else |
| Sql.ShiftResolve | src/query/eq_tag_id.rs:12-16 | a leaf template shifted to counter `n` and bound from `n` resolves as the template bound from 0 |
| Text.LowerFixpointIff | src/query/eq_tag_string2.rs:17 | a string equals its lower-case form iff it holds no upper-case letter (both directions) |
| Text.ToLowerIdempotent | src/query/eq_tag_string2.rs:21-25 | lower-casing twice is lower-casing once |
| Text.ReplaceAllStripsSuffix | src/query/eq_folder.rs:16 | `replace(folder + name, name, '')` is `folder` when `name` occurs nowhere else |
| Text.DecimalRoundTrip | src/query/eq_tag_id.rs:15 | the decimal text written after `$` reads back as the counter value |
| Text.DecimalInjective | src/query/eq_tag_id.rs:15 | distinct counter values give distinct placeholder texts |
| Wrapping.WrapText | src/query/not2.rs:17 | the text of a wrapped condition is prefix, condition text, suffix |
| Wrapping.InfixText | src/query/and2.rs:19 | the text of `a op b` is the two texts around `op` |
| Wrapping.WrapResolve | src/query/not2.rs:14-18 | wrapping commutes with binding the values |
| Wrapping.InfixResolve | src/query/and2.rs:19 | joining two conditions commutes with binding the values |
| Combinators.JunctionTable | src/query/and2.rs:18-23 | `QueryAnd2`/`QueryOr2` give None iff both sides are None; an absent side passes the other through unchanged |
| Combinators.JunctionText | src/query/and2.rs:19 | both sides present: exactly `(a AND b)` / `(a OR b)`, no parentheses around `a` or `b` |
| Combinators.WrapOptText | src/query/not2.rs:15-17 | a present condition is wrapped as `pre + c + post`, an absent one stays absent |
| Combinators.JunctionResolve | src/query/or2.rs:15-30 | left rendered on the first placeholders and right on the next: binding left values then right values resolves each side to its own values |
| Combinators.WrapOptResolve | src/query/not2.rs:14-22 | `QueryNot2` and the wrappers bind exactly the inner values, placed as in the inner condition |
| TagFilters.TagCounter | src/query/tag_search_query.rs:26-46 | for every `TagSearchQuery` tree, the counter advances by exactly the number of values `bind` appends |
| TagFilters.TagAlignment | src/query/tag_search_query.rs:26-46 | rendering from `n` refers only to `$n..$(n+k-1)` for `k` bound values, and binding the values from `n` gives the tree's own-values SQL |
| TagFilters.TagJunctionAlignment | src/query/and2.rs:14-30 | the alignment theorem for `QueryAnd2`/`QueryOr2`: the right operand starts where the left stopped, values left then right |
| TagFilters.TagLeafAlignment | src/query/eq_any_tag_id.rs:17-28 | the alignment theorem for `EqTagId`, `EqAnyTagId` and `EqTagString2`: one placeholder, one value |
| TagFilters.TagAlwaysSome | src/query/tag_search_query.rs:26-35 | no tag tree renders "no condition": the None rows of the combinators are unreachable |
| TagFilters.TagIdText | src/query/eq_tag_id.rs:12-16 | `EqTagId` renders exactly `` `tags`.`id` = $n `` with `n` the counter on entry |
| TagFilters.AnyTagIdText | src/query/eq_any_tag_id.rs:17-24 | the whole id list, of any length, sits behind the single `$n` inside `JSON_EACH` |
| TagFilters.TagTextBranch | src/query/eq_tag_string2.rs:12-41 | the `LOWER` branch is taken iff the text has no upper-case letter; the value bound is the text unchanged |
| TagFilters.TagTextOnePlaceholder | src/query/eq_tag_string2.rs:20-35 | every placeholder of either branch is the same `$n` |
| TagFilters.ClosureText | src/query/eq_tag_or_children.rs:14-36 | `EqTagOrChildren` embeds the inner select verbatim as `FROM (sel)` in the fixed recursive walk, adding no placeholder |
| TagFilters.ParentsRenderAsChildren | src/query/eq_tag_or_parents.rs:12-38 | `EqTagOrParents` renders, advances and binds exactly as `EqTagOrChildren` (the same downward walk) |
| TagFilters.TagSelectText | src/query/trait_tag_filter.rs:17-20 | `as_tag_select` is None iff the condition is None, otherwise exactly `SELECT * FROM `tags` WHERE (c)` |
| TagFilters.GetWhereCondition | src/query/tag_search_query.rs:26-35 | the method on the shared counter returns the rendered condition and leaves the counter where the rendering ends |
| TagFilters.AsTagSelect | src/query/trait_tag_filter.rs:17-20 | `as_tag_select` on the shared counter: the wrapped condition, counter moved as the condition moves it |
| TagFilters.FetchAllStatement | src/query/trait_tag_filter.rs:22-36 | `fetch_all` renders from counter 1, falls back to `SELECT * FROM `tags``, binds the same tree; placeholders are `$1..$k` and bind to the own-values SQL |
| TagFilters.EqAnyTagIdNew1 | src/query/eq_any_tag_id.rs:11-13 | `new1(id)` binds the one-element id list and advances the counter by 1 |
| TagFilters.EqTagStringOf | src/query/tag_search_query.rs:54-56 | `eq_tag_string(v)` binds exactly `v` and advances the counter by 1 |
| TagFilters.AddChildrenTags | src/query/tag_search_query.rs:58-60 | `add_children_tags` wraps the filter unchanged in `EqTagOrChildren`, same values |
| TagFilters.OrOf | src/query/tag_search_query.rs:66-68 | `or(a, b)` keeps operand order and binds left values then right |
| EntryFilters.EntryCounter | src/query/entry_search_query.rs:26-42 | for every `EntrySearchQuery` tree, the counter advances by exactly the number of bound values |
| EntryFilters.EntryAlignment | src/query/entry_search_query.rs:26-42 | rendering from `n` refers only to `$n..$(n+k-1)`, and binding the values from `n` gives the tree's own-values SQL |
| EntryFilters.JunctionAlignment | src/query/and2.rs:38-53 | the alignment theorem for the entry-level `QueryAnd2`/`QueryOr2` |
| EntryFilters.LeafAlignment | src/query/eq_entry_field.rs:21-56 | the alignment theorem for the entry leaves, including `EqEntryField`'s two placeholders |
| EntryFilters.EntryAlwaysSome | src/query/entry_search_query.rs:26-33 | no entry tree renders "no condition" |
| EntryFilters.EntryIdText | src/query/eq_entry_id.rs:12-21 | `EqEntryId` renders exactly `` `entries`.`id` = $n `` and binds the id |
| EntryFilters.AnyEntryIdText | src/query/eq_any_entry_id.rs:17-24 | `EqAnyEntryId` puts the whole id list behind the single `$n` |
| EntryFilters.EntryNameText | src/query/eq_entry_name.rs:11-20 | `EqEntryName` renders exactly `` `entries`.`filename` = $n `` and binds the name |
| EntryFilters.FolderText | src/query/eq_folder.rs:11-22 | `EqEntryFolder` compares the path with the file name replaced away with `$n` |
| EntryFilters.AbsolutePathText | src/query/eq_absolute_path.rs:12-31 | the UNIX and Windows concatenations both compare with the one `$n` |
| EntryFilters.FieldTableText | src/query/eq_entry_field.rs:28-44 | each UNIONed field table compares the type key with `$n` and the value with `$(n+1)` |
| EntryFilters.FieldText | src/query/eq_entry_field.rs:21-56 | `EqEntryField` advances by 2, its three tables share `$n` and `$(n+1)`, and it binds the type key then the typed value |
| EntryFilters.BridgeText | src/query/entries_with_tags.rs:15-30 | `EntriesWithTags` is None iff the tag condition is None, embeds it verbatim in the `tag_entries` join, and binds what the tag filter binds |
| EntryFilters.EntrySelectText | src/query/trait_entry_filter.rs:19-22 | `as_entry_select` is None iff the condition is None, otherwise exactly `SELECT * FROM `entries` WHERE (c)` |
| EntryFilters.GetWhereCondition | src/query/entry_search_query.rs:26-33 | the method on the shared counter returns the rendered condition and leaves the counter where rendering ends |
| EntryFilters.AsEntrySelect | src/query/trait_entry_filter.rs:19-22 | `as_entry_select` on the shared counter |
| EntryFilters.FetchStatement | src/query/trait_entry_filter.rs:24-57 | `fetch_all`/`fetch_optional` render from 1, fall back to `SELECT * FROM `entries``, bind the same tree; placeholders `$1..$k` bind to the own-values SQL |
| EntryFilters.IntoEntryFilter | src/query/tag_search_query.rs:62-64 | `into_entry_filter` / `into_entry_search_query` wrap the tag filter unchanged in `EntriesWithTags`, same values |
| EntryFilters.EqAnyEntryIdNew1 | src/query/eq_any_entry_id.rs:11-13 | `new1(id)` binds the one-element id list and advances the counter by 1 |
| EntryFilters.EqEntryFolder2 | src/query/eq_folder2.rs:10-29 | `EqEntryFolder2` is the `EqEntryFolder` test and binds the folder string |
| EntryFilters.AndOf | src/query/entry_search_query.rs:50-52 | `and(a, b)` keeps operand order and binds left values then right |
| EntryFilters.OrOf | src/query/entry_search_query.rs:54-56 | `or(a, b)` keeps operand order and binds left values then right |
| EntryFilters.NotOf | src/query/entry_search_query.rs:58-60 | `not(a)` wraps `a` unchanged and binds its values |
| Snapshot.Reversed | src/query/eq_tag.rs:30-37 | the `tag_parents` rows read child to parent, row by row |
| Snapshot.Closure | src/query/eq_tag_or_children.rs:19-30 | the recursive walk contains its seed and is closed under parent-to-child rows; it terminates on cyclic rows |
| Snapshot.ClosureLeast | src/query/eq_tag_or_children.rs:19-30 | the walk lies inside every closed superset of the seed: it is the least fixpoint |
| Snapshot.ClosureWithinTargets | src/query/eq_tag_or_children.rs:27-29 | everything the walk adds is the child of some row |
| Snapshot.CyclicClosure | src/query/eq_tag_or_children.rs:24-29 | a two-tag cycle still gives a finite walk holding both tags |
| Meaning.TagChains | src/query/eq_tag_string2.rs:20-35 | the SQL reading of a rendered tag condition as an OR of AND chains, each chain non-empty |
| Meaning.ClosureUnit | src/query/eq_tag_or_children.rs:15-32 | a closure wrapper holds on a tag iff the walk from the inner selection reaches it |
| Meaning.TextUnits | src/query/eq_tag_string2.rs:20-35 | the text condition is the OR, left to right, of its five comparisons, under `LOWER` iff the text is lower-case |
| Meaning.TextAndReading | src/query/and2.rs:19 | a tag-level `AND` of two text matches conjoins only the left alias test with the right name test |
| Meaning.ReadingAgrees | src/query/and2.rs:18-23 | when every `And` has grouped operands, the SQL reading equals the intended AND/OR/NOT/closure meaning |
| Meaning.SelectedAgrees | src/query/trait_tag_filter.rs:17-20 | under the same condition, the selected tag ids are the intended ones |
| Meaning.NotTextNeverTrue | src/query/not2.rs:14-18 | with a NULL shorthand, `NOT` of a text match is never true |
| Meaning.EntryTwoValued | src/query/entries_with_tags.rs:15-26 | entry conditions are never NULL |
| Meaning.AnyTagIdNew1Selects | src/query/eq_any_tag_id.rs:11-24 | `EqAnyTagId::new1(id)` selects exactly the tags with id `id`, as `EqTagId(id)` does |
| Meaning.AnyEntryIdNew1Matches | src/query/eq_any_entry_id.rs:11-24 | `EqAnyEntryId::new1(id)` selects exactly the entries with id `id`, as `EqEntryId(id)` does |
| Meaning.MatchingAnd | src/query/and2.rs:38-47 | an entry-level AND selects the intersection of what its operands select |
| Meaning.MatchingOr | src/query/or2.rs:38-47 | an entry-level OR selects the union |
| Meaning.MatchingNot | src/query/not2.rs:29-33 | an entry-level NOT selects the complement |
| Meaning.HoldsAppend | src/query/or2.rs:19 | the OR of two chain lists is the three-valued OR of their readings |
| Meaning.HoldsNotFalse | src/query/or2.rs:19 | an OR is not false once one of its chains is not false |
| Fixture.EntryIdExample | src/query/eq_entry_id.rs:37 | `EqEntryId(2)` selects exactly entry 2 |
| Fixture.AnyEntryIdExample | src/query/eq_any_entry_id.rs:44 | `EqAnyEntryId([2, 4])` selects exactly entries 2 and 4 |
| Fixture.EntryNameExample | src/query/eq_entry_name.rs:36 | `EqEntryName("maxwell.png")` selects exactly entry 0 |
| Fixture.FolderExample | src/query/eq_folder.rs:38 | `EqEntryFolder("somwhere/far/")` selects exactly entry 4 |
| Fixture.AbsolutePathSingleSlash | src/query/eq_absolute_path.rs:47-50 | the single-slash path selects nothing: the folder `/tmp/` plus `/` doubles the slash |
| Fixture.AbsolutePathDoubledSlash | src/query/eq_absolute_path.rs:23-24 | the doubled-slash spelling selects exactly entry 4 |
| Fixture.FieldExample | src/query/eq_entry_field.rs:73-80 | `EqEntryField("DESCRIPTION", Text("A very dingus cat"))` selects exactly entry 0 |
| Fixture.AndOfClosuresExample | src/query/and2.rs:67-74 | AND of the walks from tag 1001 and tag 1003, bridged to entries, selects exactly entry 2 |
| Fixture.AndOfWordClosuresExample | src/query/and2.rs:76-83 | the same with the words "maxwell" and "doge" selects exactly entry 2 |
| Fixture.WordAndGapExample | src/query/and2.rs:14-24 | a tag-level AND of "maxwell" and "doge" selects Maxwell and Doge, while the intended reading selects none |
| Fixture.NotWordExample | src/query/not2.rs:14-18 | over the test library a tag-level NOT of any word selects nothing |
| Parsing.Alt | src/query/parsing/expression.rs:32-37 | `alt`: the first success wins, a cut stops the search, a plain error tries the next |
| Parsing.TakeWhileMaximal | src/query/parsing/mod.rs:25 | `take_while` takes characters of the class only, and stops at the first one outside it |
| Parsing.SpSkipsSpaces | src/query/parsing/mod.rs:20-34 | `sp` (and `sp1`) drop exactly the leading whitespace, never fail, and a second `sp` takes nothing |
| Parsing.Sp | src/query/parsing/mod.rs:20-26 | `sp` never lengthens the input |
| Parsing.TagString | src/query/parsing/tag_string.rs:15-23 | `parse_tag_string` succeeds iff a word character follows the whitespace; failure is never a cut; leftover is a suffix; the word stands for `AnyTagString::new1(word)` |
| Parsing.TagStringWord | src/query/parsing/tag_string.rs:19-22 | the output is the maximal non-empty run of alphanumerics and `_`, and the leftover starts right after it |
| Parsing.TagStringEscaped | src/query/parsing/tag_string.rs:25-38 | the quoted form fails without a quote, and fails with a cut exactly when the quote was read; the text stands for `AnyTagString::new1(text)` |
| Parsing.TagStringEscapedText | src/query/parsing/tag_string.rs:29-37 | the output is the non-empty quote-free text between the quotes; the leftover starts after the closing quote |
| Parsing.TagNoCase | src/query/parsing/and.rs:19 | `tag_no_case` succeeds iff the next characters equal the keyword up to case, consuming exactly them |
| Parsing.SpAroundChar | src/query/parsing/mod.rs:36-42 | `sp_arround(char(c))` succeeds iff `c` is the first non-blank character |
| Parsing.I64 | src/query/parsing/tag_id.rs:22 | `i64` returns an in-range value and stops at a non-digit |
| Parsing.TagId | src/query/parsing/tag_id.rs:11-25 | `parse_tag_id` needs the case-sensitive `tag_id:` after whitespace, then reads the integer after whitespace |
| Parsing.WordQuery | src/query/parsing/and.rs:65-67 | a word reads as the entries tagged with it or a descendant, binding the word |
| Parsing.MapWord | src/query/parsing/expression.rs:81-82 | a word parse maps to its query with the same leftover and the same cut flag |
| Parsing.Expression | src/query/parsing/expression.rs:22-41 | `parse_expression` leaves a suffix and builds only words joined by AND and OR |
| Parsing.Operands | src/query/parsing/and.rs:20-27 | the shared operand, separator, operand sequence: a suffix left and two word trees |
| Parsing.Separator | src/query/parsing/and.rs:19 | the separator is `sp1`, the keyword without case, `sp1`; without a keyword it never fails |
| Parsing.ExplicitOr | src/query/parsing/or.rs:13-26 | a success is an OR node of two word trees, leftover a suffix |
| Parsing.ExplicitAnd | src/query/parsing/and.rs:15-28 | a success is an AND node of two word trees |
| Parsing.ImplicitAnd | src/query/parsing/and.rs:30-43 | a success is an AND node of two word trees |
| Parsing.TokenOrSubexpr | src/query/parsing/expression.rs:58-69 | a token or a group, after whitespace |
| Parsing.FilterToken | src/query/parsing/expression.rs:71-88 | a success is a bridged word (the NOT alternative never wins) |
| Parsing.Parenthesis | src/query/parsing/expression.rs:43-56 | a group fails with a cut exactly when its `(` was read |
| Parsing.ExplicitNot | src/query/parsing/not.rs:14-23 | a success is a NOT of one operand, and on the same input the bare-word parser succeeds too |
| Parsing.NotStartsWord | src/query/parsing/expression.rs:79-84 | any input starting with `not` in any case starts with a word |
| Parsing.Parse | src/query/entry_search_query.rs:62-70 | `parse` succeeds iff `parse_expression` does, discards the leftover, and fails with `InvalidSearchString` otherwise |
| Parsing.WordToken | src/query/parsing/expression.rs:79-82 | when a bare word parses, it is the token, and the later alternatives are never tried |
| Parsing.QuotedToken | src/query/parsing/expression.rs:82 | a quoted word is the token |
| Parsing.NoToken | src/query/parsing/expression.rs:66 | with no word or quote ahead, only a group can match |
| Parsing.OperandsAt | src/query/parsing/and.rs:20-27 | two operands around a separator build `Or(a, b)` / `And(a, b)` in source order |
| Parsing.NoSeparatorAt | src/query/parsing/or.rs:17-23 | no separator after the first operand: the rule fails without a cut |
| Parsing.NoSecondOperandAt | src/query/parsing/and.rs:20-24 | no second operand: the rule fails as that operand failed |
| Parsing.NotAt | src/query/parsing/not.rs:18-22 | `not` then an operand gives that operand negated once |
| Parsing.NoFirstOperandAt | src/query/parsing/and.rs:20-24 | a failing first operand fails all three two-operand rules alike |
| Parsing.ExpressionIsOr | src/query/parsing/expression.rs:33 | the explicit OR is tried first and wins when it succeeds |
| Parsing.ExpressionIsImplicitAnd | src/query/parsing/expression.rs:35 | implicit AND wins when the keyword rules fail without a cut |
| Parsing.ExpressionIsSingle | src/query/parsing/expression.rs:36 | a single token or group when all two-operand rules fail without a cut |
| Parsing.ExpressionCut | src/query/parsing/expression.rs:32-37 | a cut in the first rule ends the whole expression |
| Parsing.GroupAt | src/query/parsing/expression.rs:47-53 | `(`, an expression and `)` give the expression's value |
| Parsing.UnclosedGroupAt | src/query/parsing/mod.rs:74-85 | after `(`, a missing `)` is a cut |
| ParserExamples.TagStringTest | src/query/parsing/tag_string.rs:48-59 | a word then a keyword: the word is taken and `" and …"` is left |
| ParserExamples.TagStringEscapedTest | src/query/parsing/tag_string.rs:61-72 | the quoted text, spaces and keywords included, is returned and the rest is left |
| ParserExamples.UnclosedQuoteIsCut | src/query/parsing/tag_string.rs:30 | an opening quote without a closing one is a cut |
| ParserExamples.ExplicitNotTest | src/query/parsing/not.rs:33-48 | `" not w "` leaves `" "` and negates the bridged closure of `w`; a quoted phrase is no NOT |
| ParserExamples.QuotedIsNoNot | src/query/parsing/not.rs:44-47 | a quoted phrase is never a NOT |
| ParserExamples.ExplicitAndTest | src/query/parsing/and.rs:57-77 | `" a and b "` leaves `" "` and builds `And(a, b)` |
| ParserExamples.ImplicitAndTest | src/query/parsing/and.rs:79-98 | `" a b "` leaves `" "` and builds the same `And(a, b)` |
| ParserExamples.ExplicitOrTest | src/query/parsing/or.rs:37-52 | `" a or b "` leaves `" "` and builds `Or(a, b)` |
| ParserExamples.QuotedPhraseNotSplit | src/query/parsing/and.rs:76 | none of the two-operand rules splits a quoted phrase at a keyword |
| ParserExamples.ExpressionTest | src/query/parsing/expression.rs:98-116 | `"(a (b or c) )"` parses fully to `And(a, Or(b, c))` |
| ParserExamples.WordExpression | src/query/parsing/expression.rs:79-84 | a lone word is the whole expression, with nothing left |
| ParserExamples.ParseWord | src/query/entry_search_query.rs:62-65 | a single word is a valid search |
| ParserExamples.BlankIsError | src/query/entry_search_query.rs:66-69 | blank or empty text is `InvalidSearchString` |
| ParserExamples.TwoWordsThenRest | src/query/entry_search_query.rs:62-65 | two words and whatever follows: the rest is discarded |
| ParserExamples.ThirdWordDropped | src/query/entry_search_query.rs:65 | `a b c` searches for `a` and `b` only |
| ParserExamples.NotIsAWord | src/query/parsing/expression.rs:79-84 | `not w` is the AND of the words `not` and `w` |
| ParserExamples.KeywordLedWordSplits | src/query/parsing/mod.rs:28-34 | `a orw` is `a OR w`, since `sp1` requires no whitespace |
| ParserExamples.AdjacentQuotedAnd | src/query/parsing/and.rs:34-38 | a word directly followed by a quoted phrase is an AND |
| ParserExamples.UnclosedGroup | src/query/parsing/expression.rs:49-53 | an unclosed parenthesis fails the whole search |
| ParserExamples.I64Decimal | src/query/parsing/tag_id.rs:22 | `i64` reads back a decimal numeral, signed or not, exactly when it fits in 64 bits |
| ParserExamples.TagIdDecimal | src/query/parsing/tag_id.rs:16-24 | `tag_id:` then a numeral gives its value if it fits in 64 bits and fails otherwise |
| ParserExamples.TagIdNegative | src/query/parsing/tag_id.rs:20-22 | a blank may follow `tag_id:`, and the full negative range is read |
| ParserExamples.TagIdCaseSensitive | src/query/parsing/tag_id.rs:18 | `TAG_ID:` and `Tag_id:` are refused |
| Legacy.SubqueryAdvance | src/query/and.rs:9-13 | `get_subquery` moves the counter by one per bound value plus two per `TagAnd` |
| Legacy.WhereAdvance | src/query/and.rs:23-27 | `get_where_condition` moves the counter by the same amount |
| Legacy.PassesAdvanceAlike | src/query/or.rs:8-22 | both passes advance the counter alike; `QueryOr` and `QueryNot` add nothing of their own |
| Legacy.NumberedShift | src/query/eq_field.rs:29-53 | numbering a template with no table name only moves its placeholders |
| Legacy.NamesPairUp | src/query/and.rs:9-27 | the condition pass refers to exactly the `ChildTags_n` tables the subquery pass defines |
| Legacy.JoinNames | src/query/and.rs:15-34 | the `", "`, `AND` and `OR` joins name exactly the tables of their two sides |
| Legacy.NamesNumberedOwn | src/query/eq_tag.rs:12-16 | a leaf text naming `ChildTags_0` names only `ChildTags_n` once numbered from `n` |
| Legacy.LeafPairUp | src/query/eq_tag.rs:12-51 | a tag leaf defines and references only `ChildTags_n`, `n` the counter on entry |
| Legacy.JoinPairUp | src/query/or.rs:12-29 | the `", "` join and the `AND`/`OR` join keep the two passes naming the same tables |
| Legacy.SubquerySlots | src/query/and.rs:9-20 | `get_subquery` refers only to placeholders between the counter on entry and on exit |
| Legacy.WhereSlots | src/query/and.rs:23-34 | `get_where_condition` refers only to placeholders between the counter on entry and on exit |
| Legacy.LeafSlots | src/query/eq_tag.rs:12-51 | a tag leaf uses only the placeholder `$n` in both passes |
| Legacy.JoinSlots | src/query/or.rs:12-29 | joins of sides on disjoint placeholder ranges stay inside the combined range |
| Legacy.LegacySlots | src/query/and.rs:9-34 | both passes use `$n..$(n+k-1)`, `k` one per value plus two per `TagAnd`; exactly the value positions when there is no `TagAnd` |
| Legacy.AndGap | src/query/and.rs:9-13 | `TagAnd` of two `EqTag`s binds two values but uses `$(n+2)`, outside `$n..$(n+1)` |
| Legacy.SourcesOwn | src/query/eq_tag.rs:12-51 | the crate's texts each name `ChildTags_0` only and use their own placeholders only |
| Legacy.SourcesField | src/query/eq_field.rs:24-64 | the legacy `EqField` text is the `EqEntryField` text |
| Legacy.WalkDirection | src/query/eq_tag.rs:30-37 | the downward walk is the parent-to-child step; the upward walk is that step over the reversed rows |
| Legacy.WalkTableLeast | src/query/eq_tag_string.rs:32-37 | a walk's table holds the seed, is a fixpoint of the recursive member, and is the least one, on cyclic rows too |
| Legacy.CteEnds | src/query/eq_tag.rs:30-37 | every leaf table ends with the recursive member of its walk |
| Legacy.StepFixed | src/query/any_tag_id.rs:38-41 | a round adds nothing iff no row leads out of the set |
| Legacy.EqTagWalk | src/query/eq_tag.rs:30-37 | `EqTag` walks upward on `child_id`, adding the parents |
| Legacy.EqTagStringWalk | src/query/eq_tag_string.rs:32-37 | `EqTagString` walks downward on `tag_id` |
| Legacy.AnyTagWalk | src/query/any_tag_string.rs:50-52 | `AnyTagString` walks downward |
| Legacy.AnyTagIdWalk | src/query/any_tag_id.rs:38-41 | `AnyTagId` walks downward |
| Legacy.FieldLeaf | src/query/eq_field.rs:24-64 | `EqField`'s subquery is None with the counter +2; its condition and values are `EqEntryField`'s |
| Legacy.FieldFixture | src/query/eq_field.rs:84-91 | `EqField` DESCRIPTION = "A very dingus cat" selects exactly one entry of the test library |
| Legacy.CteListTable | src/query/or.rs:12-17 | the `", "` join is None iff both sides are; one side passes through; both give `a, b` |
| Legacy.IntoNot | src/query/not.rs:35-39 | `into_not` keeps the fragment's values |
| Legacy.IntoNotPasses | src/query/not.rs:8-20 | `QueryNot` keeps the subquery, advances alike, and gives `(NOT (c))` or None |
| Legacy.AnyTagNew1 | src/query/any_tag_string.rs:13-17 | `new1` binds the one-element list |
| Legacy.AnyTagIdNew1 | src/query/any_tag_id.rs:11-16 | `new1` binds the one-element id list |
| Legacy.GetSubquery | src/query/and.rs:9-21 | the method on the shared counter returns the subquery pass and moves the counter as it does |
| Legacy.GetWhereCondition | src/query/and.rs:23-35 | the method on the shared counter returns the condition pass and moves the counter as it does |
| Legacy.TagEqBinds | src/query/tag_eq.rs:49-51 | `TagEq` binds the one name, as `EqTag` does |
| Legacy.TagEqPlaceholders | src/query/tag_eq.rs:11-47 | `TagEq`'s only placeholder is `$tag_name_<id>`, and its text has no counter-numbered name |
| Legacy.RenamedPlaceholders | src/query/tag_eq.rs:11-47 | renaming by `id` turns every placeholder into `$tag_name_<id>` and drops every numbered name |
| Legacy.TagEqTable | src/query/tag_eq.rs:13-46 | the subquery defines `ChildTags_<id>` and compares with `$tag_name_<id>`; the condition refers to the same `ChildTags_<id>` |
| Legacy.TagEqWalk | src/query/tag_eq.rs:30-34 | `TagEq` walks upward on `child_id` |
| Library.GetLibraryRoot | src/models/library.rs:88-102 | the loop returns exactly `LibraryRoot`: the first ancestor that is a root, None at the top, the first I/O error |
| Library.Ancestor | src/models/library.rs:95-97 | the `k`-th ancestor has `k` fewer components |
| Library.AncestorsOfParent | src/models/library.rs:95-97 | the ancestors of `parent()` are the ancestors of the path one level further up |
| Library.AncestorParent | src/models/library.rs:95-97 | one `parent()` from the `k`-th ancestor is the `(k+1)`-th, and none at the top |
| Library.RootFound | src/models/library.rs:94-101 | the nearest ancestor whose probe finds the database, after nearer ones found none, is returned |
| Library.RootIoError | src/models/library.rs:94 | the first failing probe, after nearer ones found no root, is the result |
| Library.RootAbsent | src/models/library.rs:95-97 | when no ancestor is a root, the result is `Ok(None)` |
| Library.RootSound | src/models/library.rs:88-115 | a returned root is an ancestor whose probe found `.TagStudio/ts_library.sqlite` and every nearer probe did not; None means no ancestor is a root |
| Library.OpenLibraryRoot | src/models/library.rs:47-67 | an opened library is rooted where the search found the root, and its database is the probed file; no root gives `LibraryNotFound` with the given path |
| Library.RustRem | src/models/library.rs:35 | `%` on `i64` truncates: the remainder lies strictly between `-b` and `b`, is not negative for a non-negative dividend and not positive for a negative one, where it is `-((-a) % b)` |
| Library.RustDivision | src/models/library.rs:35 | Rust's identity `a == b * (a / b) + a % b` with the truncated quotient; the remainder changes sign with the dividend |
| Library.VersionAcceptedIff | src/models/library.rs:33-35 | accepted iff `v >= 101` and `v - 1` is a multiple of 100; 100 is refused and 101 accepted; `-101 % 100` is `-1` in Rust |
| Library.TryOpenOutcome | src/models/library.rs:26-44 | opens iff `open_library` succeeds, a connection is had and the version is accepted; a refused version is reported with it and 101 |

## Left out

- Query execution is left out: `fetch_all` and `fetch_optional` send the statement, and the sqlx `QueryAs` building and the connections are I/O. The statement and the values they would send are modelled (`TagFilters.FetchAllStatement`, `EntryFilters.FetchStatement`).
- The SQLite evaluation of the SQL is not run. Meaning is given over an explicit finite snapshot, in three-valued logic.
- Meaning.EntryHolds: a field value compares only with stored values of its own kind. SQLite converts a bound value to the column's type before comparing, so `Text("1")` can match a true boolean row, and a `Text` spelling a stored date can match a datetime row. That conversion is not modelled.
- Case folding is ASCII only. Rust's `to_lowercase` and `is_alphanumeric` are Unicode-aware, but SQLite's built-in `LOWER` folds only ASCII letters.
- The `serde_json` values bound by `EqAnyTagId`, `EqAnyEntryId`, `AnyTagString` and `AnyTagId` are one opaque value per list (`JsonIds`, `JsonStrings`).
- SQL comments in leaf templates are dropped, and layout whitespace is written as one space.
- The `Queryfragments` enum is not part of this model; it is defined here from the variants its `From` impls name. Its own `fetch_all` and statement assembly are left out, and so is the dispatch of `TagEq` into it, since `TagEq` takes a caller-given id instead of the counter.
- Legacy.GetSubquery: the legacy passes and methods take the leaf texts as a parameter; `Legacy.Sources` holds the crate's texts, and the table-pairing and placeholder theorems apply to it through `Legacy.SourcesOwn`.
- Legacy.FieldFixture: the crate's test counts the rows `Queryfragments::fetch_all` returns; the model counts the entries the condition pass selects.
- Some of the crate's database count tests do not match its own fixture data, and they are not encoded. These are eq_tag.rs:87-93, eq_tag_string.rs:87-93, any_tag_string.rs:103, any_tag_id.rs:89, not.rs:57 and the legacy and.rs:67. Where a test and the data disagree, the model proves what the data gives (entry name, text field, absolute path).
- The parser's error trace (`convert_error`, `VerboseError`) and the backtrace are left out. A failure carries only whether it is a cut.
- Parsing.TagString: returns the word itself rather than `AnyTagString::new1(word)`, and Parsing.TagStringEscaped likewise; the word stands for that one-element list.
- Parsing.Parse: the output is modelled with the filter types of the tests; the parsers' mixed `Queryfragments`/`EntrySearchQuery` types do not compile together.
- `Library::try_new`, `Library::in_memory`, `get_root_db_folder`, and the connection-pool lifecycle are left out as database plumbing. So are the CRUD, transaction and file operations under src/models.
- The filesystem probe `try_exists`, `SqliteConnectOptions::from_str`, the pool's `get()` and the version query are parameters of the library functions. The busy timeout and the `debug!` log are left out.
- Library.OpenLibrary: the path in `LibraryNotFound` is the path value itself, not its `display()` text.
- Library.VersionOf: the version is an unbounded integer; the crate reads it as an `i64`, and the rule is the same on that range.
