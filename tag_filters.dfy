/**
 * `TagFilter`: conditions over the `tags` table, the sum type
 * `TagSearchQuery` and its leaves. Each tree renders to a condition on a
 * shared placeholder counter (`get_where_condition`) and, in a separate
 * pass, binds its values (`bind`).
 *
 * The SQL text of the leaves and wrappers is kept with its SQL comments
 * removed and each run of layout whitespace written as one space; the
 * combinator texts `(a AND b)`, `(a OR b)`, `(NOT (c))` and the select
 * wrapper are exact.
 */
module TagFilters {
  import opened Wrappers
  import opened Text
  import opened Sql
  import opened Wrapping
  import opened Combinators

  /**
   * `TagSearchQuery` with every `TagFilter` of the query layer as a
   * constructor. `Box` is transparent here: a boxed filter renders and
   * binds as the filter it holds.
   */
  datatype TagQuery =
    | EqTagId(id: int)
    | EqAnyTagId(ids: seq<int>)
    | EqTagString(text: string)
    | EqTagOrChildren(inner: TagQuery)
    | EqTagOrParents(inner: TagQuery)
    | Not(inner: TagQuery)
    | And(left: TagQuery, right: TagQuery)
    | Or(left: TagQuery, right: TagQuery)

  /*
   * Leaf templates. A template numbers the leaf's own placeholders from 0;
   * rendering shifts them to the counter value.
   */

  const TagIdTemplate: Cond := [Lit("`tags`.`id` = "), Slot(0)]

  const AnyTagIdTemplate: Cond := [Lit("`tags`.`id` IN (SELECT value FROM JSON_EACH("), Slot(0), Lit("))")]

  function Column(col: string, lower: bool): string
  {
    if lower then "LOWER(" + col + ")" else col
  }

  /**
   * One comparison of a text column with the leaf's placeholder, optionally
   * under `LOWER` on both sides and optionally with `'_'` replaced by `' '`
   * in the searched text.
   */
  function Compare(col: string, lower: bool, escaped: bool): Cond
  {
    [ Lit(Column(col, lower) + " = " + (if escaped then "replace(" else "") + (if lower then "LOWER(" else "")),
      Slot(0),
      Lit((if lower then ")" else "") + (if escaped then ", '_', ' ')" else "")) ]
  }

  /**
   * `EqTagString2`: an unparenthesised `OR` chain of the name, escaped name,
   * shorthand, escaped shorthand and alias comparisons, all on `$n`.
   */
  function TagTextTemplate(lower: bool): Cond
  {
    Compare("`tags`.`name`", lower, false) + [Lit(" OR ")]
    + Compare("`tags`.`name`", lower, true) + [Lit(" OR ")]
    + Compare("`tags`.`shorthand`", lower, false) + [Lit(" OR ")]
    + Compare("`tags`.`shorthand`", lower, true) + [Lit(" OR ")]
    + [Lit("`tags`.`id` IN (SELECT `tag_aliases`.`tag_id` FROM `tag_aliases` WHERE ")]
    + Compare("`tag_aliases`.`name`", lower, false) + [Lit(" OR ")]
    + Compare("`tag_aliases`.`name`", lower, true) + [Lit(")")]
  }

  /** The case rule of `EqTagString2`: the text equals its own lower case. */
  predicate CaseInsensitive(s: string)
  {
    s == ToLower(s)
  }

  const TagSelectHead := "SELECT * FROM `tags` WHERE ("

  const ClosureHead := "`tags`.`id` IN (WITH RECURSIVE ChildTags AS (SELECT id AS tag_id FROM ("

  const ClosureTail := ") UNION SELECT tp.child_id AS tag_id FROM tag_parents tp INNER JOIN ChildTags c ON tp.parent_id = c.tag_id) SELECT tag_id AS id FROM ChildTags)"

  /** `as_tag_select` after the condition has rendered. */
  function TagSelect<S>(c: Option<seq<Piece<S>>>): Option<seq<Piece<S>>>
  {
    WrapOpt(TagSelectHead, c, ")")
  }

  /** `EqTagOrChildren` / `EqTagOrParents` after the inner select has rendered. */
  function ClosureCond<S>(sel: Option<seq<Piece<S>>>): Option<seq<Piece<S>>>
  {
    WrapOpt(ClosureHead, sel, ClosureTail)
  }

  /** The values `bind` appends, in order. */
  function TagBinds(q: TagQuery): seq<Value>
  {
    match q
    case EqTagId(id) => [IntValue(id)]
    case EqAnyTagId(ids) => [JsonIds(ids)]
    case EqTagString(s) => [StrValue(s)]
    case EqTagOrChildren(inner) => TagBinds(inner)
    case EqTagOrParents(inner) => TagBinds(inner)
    case Not(inner) => TagBinds(inner)
    case And(a, b) => TagBinds(a) + TagBinds(b)
    case Or(a, b) => TagBinds(a) + TagBinds(b)
  }

  /** `get_where_condition` with the counter at `n` on entry: the condition and the counter on exit. */
  function RenderTag(q: TagQuery, n: nat): Rendered
  {
    match q
    case EqTagId(_) => Rendered(Some(Shift(TagIdTemplate, n)), n + 1)
    case EqAnyTagId(_) => Rendered(Some(Shift(AnyTagIdTemplate, n)), n + 1)
    case EqTagString(s) => Rendered(Some(Shift(TagTextTemplate(CaseInsensitive(s)), n)), n + 1)
    case EqTagOrChildren(inner) =>
      var ri := RenderTag(inner, n);
      Rendered(ClosureCond(TagSelect(ri.cond)), ri.next)
    case EqTagOrParents(inner) =>
      var ri := RenderTag(inner, n);
      Rendered(ClosureCond(TagSelect(ri.cond)), ri.next)
    case Not(inner) =>
      var ri := RenderTag(inner, n);
      Rendered(NotCond(ri.cond), ri.next)
    case And(a, b) =>
      var ra := RenderTag(a, n);
      var rb := RenderTag(b, ra.next);
      Rendered(AndCond(ra.cond, rb.cond), rb.next)
    case Or(a, b) =>
      var ra := RenderTag(a, n);
      var rb := RenderTag(b, ra.next);
      Rendered(OrCond(ra.cond, rb.cond), rb.next)
  }

  /**
   * The reference meaning of a tree: the same SQL with each placeholder
   * replaced by the value the tree itself holds, no counter involved.
   */
  function InlineTag(q: TagQuery): Option<seq<Piece<Value>>>
  {
    match q
    case EqTagId(id) => Some(Resolve(TagIdTemplate, [IntValue(id)], 0))
    case EqAnyTagId(ids) => Some(Resolve(AnyTagIdTemplate, [JsonIds(ids)], 0))
    case EqTagString(s) =>
      TextTemplateSlots(CaseInsensitive(s));
      Some(Resolve(TagTextTemplate(CaseInsensitive(s)), [StrValue(s)], 0))
    case EqTagOrChildren(inner) => ClosureCond(TagSelect(InlineTag(inner)))
    case EqTagOrParents(inner) => ClosureCond(TagSelect(InlineTag(inner)))
    case Not(inner) => NotCond(InlineTag(inner))
    case And(a, b) => AndCond(InlineTag(a), InlineTag(b))
    case Or(a, b) => OrCond(InlineTag(a), InlineTag(b))
  }

  /** The counter moves by exactly the number of values `bind` appends. */
  lemma {:induction false} TagCounter(q: TagQuery, n: nat)
    ensures RenderTag(q, n).next == n + |TagBinds(q)|
  {
    match q
    case EqTagOrChildren(inner) => TagCounter(inner, n);
    case EqTagOrParents(inner) => TagCounter(inner, n);
    case Not(inner) => TagCounter(inner, n);
    case And(a, b) =>
      TagCounter(a, n);
      TagCounter(b, RenderTag(a, n).next);
    case Or(a, b) =>
      TagCounter(a, n);
      TagCounter(b, RenderTag(a, n).next);
    case _ =>
  }

  /** One comparison refers to its own placeholder `$0` only. */
  lemma CompareSlots(col: string, lower: bool, escaped: bool)
    ensures SlotsIn(Compare(col, lower, escaped), 0, 1)
  {
  }

  /** The text template refers to `$0` only, however many comparisons read it. */
  lemma TextTemplateSlots(lower: bool)
    ensures SlotsIn(TagTextTemplate(lower), 0, 1)
  {
    var or: Cond := [Lit(" OR ")];
    var alias: Cond := [Lit("`tags`.`id` IN (SELECT `tag_aliases`.`tag_id` FROM `tag_aliases` WHERE ")];
    var close: Cond := [Lit(")")];
    var t := Compare("`tags`.`name`", lower, false);
    CompareSlots("`tags`.`name`", lower, false);
    SlotsInAppend(t, or, 0, 1);
    t := t + or;
    CompareSlots("`tags`.`name`", lower, true);
    SlotsInAppend(t, Compare("`tags`.`name`", lower, true), 0, 1);
    t := t + Compare("`tags`.`name`", lower, true);
    SlotsInAppend(t, or, 0, 1);
    t := t + or;
    CompareSlots("`tags`.`shorthand`", lower, false);
    SlotsInAppend(t, Compare("`tags`.`shorthand`", lower, false), 0, 1);
    t := t + Compare("`tags`.`shorthand`", lower, false);
    SlotsInAppend(t, or, 0, 1);
    t := t + or;
    CompareSlots("`tags`.`shorthand`", lower, true);
    SlotsInAppend(t, Compare("`tags`.`shorthand`", lower, true), 0, 1);
    t := t + Compare("`tags`.`shorthand`", lower, true);
    SlotsInAppend(t, or, 0, 1);
    t := t + or;
    SlotsInAppend(t, alias, 0, 1);
    t := t + alias;
    CompareSlots("`tag_aliases`.`name`", lower, false);
    SlotsInAppend(t, Compare("`tag_aliases`.`name`", lower, false), 0, 1);
    t := t + Compare("`tag_aliases`.`name`", lower, false);
    SlotsInAppend(t, or, 0, 1);
    t := t + or;
    CompareSlots("`tag_aliases`.`name`", lower, true);
    SlotsInAppend(t, Compare("`tag_aliases`.`name`", lower, true), 0, 1);
    t := t + Compare("`tag_aliases`.`name`", lower, true);
    SlotsInAppend(t, close, 0, 1);
    t := t + close;
    assert t == TagTextTemplate(lower);
  }

  lemma TemplatesSlots(lower: bool)
    ensures SlotsIn(TagIdTemplate, 0, 1)
    ensures SlotsIn(AnyTagIdTemplate, 0, 1)
    ensures SlotsIn(TagTextTemplate(lower), 0, 1)
  {
    TextTemplateSlots(lower);
  }

  /**
   * The alignment theorem: rendering from `n` refers only to `$n` up to
   * the counter on exit, and binding the tree's values from position `n`
   * gives exactly the tree's reference meaning.
   */
  lemma {:induction false} TagAlignment(q: TagQuery, n: nat)
    ensures OptSlotsIn(RenderTag(q, n).cond, n, n + |TagBinds(q)|)
    ensures ResolveOpt(RenderTag(q, n).cond, TagBinds(q), n) == InlineTag(q)
    decreases q, 1
  {
    match q
    case EqTagOrChildren(inner) =>
      TagAlignment(inner, n);
      var c := RenderTag(inner, n).cond;
      WrapOptResolve(TagSelectHead, c, ")", TagBinds(inner), n);
      WrapOptResolve(ClosureHead, TagSelect(c), ClosureTail, TagBinds(inner), n);
    case EqTagOrParents(inner) =>
      TagAlignment(inner, n);
      var c := RenderTag(inner, n).cond;
      WrapOptResolve(TagSelectHead, c, ")", TagBinds(inner), n);
      WrapOptResolve(ClosureHead, TagSelect(c), ClosureTail, TagBinds(inner), n);
    case Not(inner) =>
      TagAlignment(inner, n);
      WrapOptResolve("(NOT (", RenderTag(inner, n).cond, "))", TagBinds(inner), n);
    case And(_, _) => TagJunctionAlignment(q, n);
    case Or(_, _) => TagJunctionAlignment(q, n);
    case _ => TagLeafAlignment(q, n);
  }

  /** The alignment theorem for `(a AND b)` and `(a OR b)`: the right operand starts where the left one stopped. */
  lemma {:induction false} TagJunctionAlignment(q: TagQuery, n: nat)
    requires q.And? || q.Or?
    ensures OptSlotsIn(RenderTag(q, n).cond, n, n + |TagBinds(q)|)
    ensures ResolveOpt(RenderTag(q, n).cond, TagBinds(q), n) == InlineTag(q)
    decreases q, 0
  {
    var m := RenderTag(q.left, n).next;
    TagCounter(q.left, n);
    TagAlignment(q.left, n);
    TagAlignment(q.right, m);
    var op := if q.And? then " AND " else " OR ";
    JunctionResolve(op, RenderTag(q.left, n).cond, RenderTag(q.right, m).cond, TagBinds(q.left), TagBinds(q.right), n);
  }

  /** The alignment theorem for the leaves: each template shifted to `n` and bound from `n`. */
  lemma TagLeafAlignment(q: TagQuery, n: nat)
    requires q.EqTagId? || q.EqAnyTagId? || q.EqTagString?
    ensures OptSlotsIn(RenderTag(q, n).cond, n, n + |TagBinds(q)|)
    ensures ResolveOpt(RenderTag(q, n).cond, TagBinds(q), n) == InlineTag(q)
  {
    match q
    case EqTagId(id) =>
      TemplatesSlots(false);
      ShiftResolve(TagIdTemplate, TagBinds(q), n);
    case EqAnyTagId(ids) =>
      TemplatesSlots(false);
      ShiftResolve(AnyTagIdTemplate, TagBinds(q), n);
    case EqTagString(s) =>
      TemplatesSlots(CaseInsensitive(s));
      ShiftResolve(TagTextTemplate(CaseInsensitive(s)), TagBinds(q), n);
  }

  /** No tree renders to "no condition": every `None` branch of the combinators is unreachable. */
  lemma {:induction false} TagAlwaysSome(q: TagQuery, n: nat)
    ensures RenderTag(q, n).cond.Some?
  {
    match q
    case EqTagId(_) =>
    case EqAnyTagId(_) =>
    case EqTagString(_) =>
    case EqTagOrChildren(inner) => TagAlwaysSome(inner, n);
    case EqTagOrParents(inner) => TagAlwaysSome(inner, n);
    case Not(inner) => TagAlwaysSome(inner, n);
    case And(a, b) => TagAlwaysSome(a, n);
    case Or(a, b) => TagAlwaysSome(a, n);
  }

  /** `EqTagId` renders exactly `` `tags`.`id` = $n `` with `n` the counter on entry. */
  lemma TagIdText(id: int, n: nat)
    ensures RenderTag(EqTagId(id), n).cond.Some?
    ensures Flatten(RenderTag(EqTagId(id), n).cond.value) == "`tags`.`id` = " + "$" + Decimal(n)
  {
    HeadSlotText("`tags`.`id` = ", n);
  }

  /** `EqAnyTagId` puts the whole id list, of any length, behind the one placeholder `$n`. */
  lemma AnyTagIdText(ids: seq<int>, n: nat)
    ensures RenderTag(EqAnyTagId(ids), n).cond.Some?
    ensures Flatten(RenderTag(EqAnyTagId(ids), n).cond.value)
         == "`tags`.`id` IN (SELECT value FROM JSON_EACH(" + "$" + Decimal(n) + "))"
    ensures TagBinds(EqAnyTagId(ids)) == [JsonIds(ids)]
  {
    HeadSlotTailText("`tags`.`id` IN (SELECT value FROM JSON_EACH(", "))", n);
  }

  /**
   * `EqTagString2` takes the `LOWER` branch exactly when the text has no
   * upper-case letter, and binds the text unchanged.
   */
  lemma TagTextBranch(s: string, n: nat)
    ensures RenderTag(EqTagString(s), n).cond == Some(Shift(TagTextTemplate(true), n))
        <==> forall i :: 0 <= i < |s| ==> !IsUpper(s[i])
    ensures TagBinds(EqTagString(s)) == [StrValue(s)]
  {
    LowerFixpointIff(s);
    var t := Shift(TagTextTemplate(true), n);
    var f := Shift(TagTextTemplate(false), n);
    assert t[0] != f[0];
  }

  /** Every placeholder of an `EqTagString2` condition, in either branch, is the same `$n`. */
  lemma TagTextOnePlaceholder(s: string, n: nat)
    ensures RenderTag(EqTagString(s), n).cond.Some?
    ensures forall i :: 0 <= i < |RenderTag(EqTagString(s), n).cond.value|
                        && RenderTag(EqTagString(s), n).cond.value[i].Slot?
                        ==> RenderTag(EqTagString(s), n).cond.value[i].slot == n
  {
    TagAlignment(EqTagString(s), n);
  }

  /**
   * `EqTagOrChildren` embeds the inner filter's select verbatim as the seed
   * of the recursive `ChildTags` walk and adds no placeholder.
   */
  lemma ClosureText(inner: TagQuery, n: nat)
    requires RenderTag(inner, n).cond.Some?
    ensures RenderTag(EqTagOrChildren(inner), n).cond.Some?
    ensures Flatten(RenderTag(EqTagOrChildren(inner), n).cond.value)
         == ClosureHead + TagSelectHead + Flatten(RenderTag(inner, n).cond.value) + ")" + ClosureTail
    ensures RenderTag(EqTagOrChildren(inner), n).next == RenderTag(inner, n).next
    ensures TagBinds(EqTagOrChildren(inner)) == TagBinds(inner)
  {
    var c := RenderTag(inner, n).cond.value;
    WrapOptText(TagSelectHead, c, ")");
    WrapOptText(ClosureHead, Wrap(TagSelectHead, c, ")"), ClosureTail);
    Assoc(ClosureHead, TagSelectHead + Flatten(c), ")");
    Assoc(ClosureHead, TagSelectHead, Flatten(c));
  }

  /**
   * `EqTagOrParents` renders, binds and advances exactly as `EqTagOrChildren`:
   * it walks from parent to child too.
   */
  lemma ParentsRenderAsChildren(inner: TagQuery, n: nat)
    ensures RenderTag(EqTagOrParents(inner), n) == RenderTag(EqTagOrChildren(inner), n)
    ensures TagBinds(EqTagOrParents(inner)) == TagBinds(EqTagOrChildren(inner))
  {
  }

  /**
   * `as_tag_select`: none exactly when the condition is none, otherwise the
   * condition wrapped in `SELECT * FROM `tags` WHERE (…)`; the counter moves
   * as the condition moves it.
   */
  lemma TagSelectText(q: TagQuery, n: nat)
    ensures TagSelect(RenderTag(q, n).cond).None? <==> RenderTag(q, n).cond.None?
    ensures RenderTag(q, n).cond.Some? ==>
      Flatten(TagSelect(RenderTag(q, n).cond).value) == "SELECT * FROM `tags` WHERE (" + Flatten(RenderTag(q, n).cond.value) + ")"
  {
    if RenderTag(q, n).cond.Some? {
      WrapOptText(TagSelectHead, RenderTag(q, n).cond.value, ")");
    }
  }

  /** `TagFilter::get_where_condition` on the shared `&mut u64` counter. */
  method GetWhereCondition(q: TagQuery, bindId: Counter) returns (r: Option<Cond>)
    modifies bindId
    ensures r == RenderTag(q, old(bindId.value)).cond
    ensures bindId.value == RenderTag(q, old(bindId.value)).next
    decreases q, 0
  {
    match q
    case EqTagId(_) =>
      var id := bindId.value;
      bindId.AddAssign(1);
      r := Some(Shift(TagIdTemplate, id));
    case EqAnyTagId(_) =>
      var id := bindId.value;
      bindId.AddAssign(1);
      r := Some(Shift(AnyTagIdTemplate, id));
    case EqTagString(s) =>
      var id := bindId.value;
      bindId.AddAssign(1);
      if s == ToLower(s) {
        r := Some(Shift(TagTextTemplate(true), id));
      } else {
        r := Some(Shift(TagTextTemplate(false), id));
      }
    case EqTagOrChildren(inner) =>
      var sel := AsTagSelect(inner, bindId);
      r := ClosureCond(sel);
    case EqTagOrParents(inner) =>
      var sel := AsTagSelect(inner, bindId);
      r := ClosureCond(sel);
    case Not(inner) =>
      var c := GetWhereCondition(inner, bindId);
      r := NotCond(c);
    case And(a, b) =>
      var qa := GetWhereCondition(a, bindId);
      var qb := GetWhereCondition(b, bindId);
      r := AndCond(qa, qb);
    case Or(a, b) =>
      var qa := GetWhereCondition(a, bindId);
      var qb := GetWhereCondition(b, bindId);
      r := OrCond(qa, qb);
  }

  /** `TagFilter::as_tag_select` on the shared counter. */
  method AsTagSelect(q: TagQuery, bindId: Counter) returns (r: Option<Cond>)
    modifies bindId
    ensures r == TagSelect(RenderTag(q, old(bindId.value)).cond)
    ensures bindId.value == RenderTag(q, old(bindId.value)).next
    decreases q, 1
  {
    var wher := GetWhereCondition(q, bindId);
    r := TagSelect(wher);
  }

  const AllTags := "SELECT * FROM `tags`"

  /** The statement `fetch_all` sends when the reference meaning is known. */
  function InlineTagStatement(q: TagQuery): seq<Piece<Value>>
  {
    match TagSelect(InlineTag(q))
    case Some(sel) => sel
    case None => [Lit(AllTags)]
  }

  /**
   * The statement and the values `TagFilter::fetch_all` hands to the
   * database: rendered from a fresh counter at 1, falling back to the
   * unfiltered select. Its placeholders are `$1` to `$k` for `k` bound
   * values, and binding them gives the tree's reference meaning.
   */
  method FetchAllStatement(q: TagQuery) returns (stmt: Cond, binds: seq<Value>)
    ensures binds == TagBinds(q)
    ensures SlotsIn(stmt, 1, 1 + |binds|)
    ensures Resolve(stmt, binds, 1) == InlineTagStatement(q)
    ensures RenderTag(q, 1).cond.None? ==> Flatten(stmt) == AllTags
    ensures RenderTag(q, 1).cond.Some? ==>
      Flatten(stmt) == "SELECT * FROM `tags` WHERE (" + Flatten(RenderTag(q, 1).cond.value) + ")"
  {
    var counter := new Counter(1);
    var sel := AsTagSelect(q, counter);
    TagAlignment(q, 1);
    TagCounter(q, 1);
    TagSelectText(q, 1);
    WrapOptResolve(TagSelectHead, RenderTag(q, 1).cond, ")", TagBinds(q), 1);
    binds := TagBinds(q);
    match sel
    case Some(s) =>
      stmt := s;
    case None =>
      stmt := [Lit(AllTags)];
      assert Flatten(stmt) == AllTags + Flatten([]);
  }

  /** `EqAnyTagId::new1`: the id list holding just `id`, behind one placeholder. */
  function EqAnyTagIdNew1(id: int): (r: TagQuery)
    ensures TagBinds(r) == [JsonIds([id])]
    ensures forall n: nat {:trigger RenderTag(r, n)} :: RenderTag(r, n).next == n + 1
  {
    EqAnyTagId([id])
  }

  /** `TagSearchQuery::eq_tag_string`: the text as given, matched as tag text. */
  function EqTagStringOf(value: string): (r: TagQuery)
    ensures TagBinds(r) == [StrValue(value)]
    ensures forall n: nat {:trigger RenderTag(r, n)} :: RenderTag(r, n).next == n + 1
  {
    EqTagString(value)
  }

  /**
   * `add_children_tags` / `add_children_tags_opaque`: the same filter
   * widened to its descendants, with the same values bound.
   */
  function AddChildrenTags(q: TagQuery): (r: TagQuery)
    ensures TagBinds(r) == TagBinds(q)
    ensures r.EqTagOrChildren? && r.inner == q
  {
    EqTagOrChildren(q)
  }

  /** `TagSearchQuery::or`: operands kept in order, left values bound first. */
  function OrOf(a: TagQuery, b: TagQuery): (r: TagQuery)
    ensures TagBinds(r) == TagBinds(a) + TagBinds(b)
    ensures r.Or? && r.left == a && r.right == b
  {
    Or(a, b)
  }
}
