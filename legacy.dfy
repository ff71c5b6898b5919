/**
 * The older two-pass protocol of `Queryfragments`. A fragment renders in
 * two passes over the same `&mut u64` counter: `get_subquery` writes the
 * named common table expressions (`ChildTags_n AS (…)`) of its tag
 * leaves, `get_where_condition` writes the condition that refers to
 * them by the same number. Both passes start from the same counter, so a
 * leaf's table and its reference pair up exactly when both passes move
 * the counter alike.
 *
 * The SQL text is kept as in the other filters: comments dropped, layout
 * whitespace written as one space, none next to a parenthesis. Templates
 * number their placeholder and their tables from 0 and are numbered from
 * the counter when rendered.
 */
module Legacy {
  import opened Wrappers
  import opened Sql
  import opened Wrapping
  import opened Combinators
  import opened Snapshot
  import TagFilters
  import EntryFilters
  import Meaning
  import Fixture

  /**
   * `Queryfragments`, with one constructor per `From` impl into it.
   * `EqTag` is the ancestor walk of eq_tag.rs, `EqTagString` the
   * descendant walk of eq_tag_string.rs; `AnyTag` and `AnyTagId` take a
   * list; `And` is `TagAnd`, `Or` is `QueryOr`, `Not` is `QueryNot`.
   */
  datatype Fragment =
    | EqTag(name: string)
    | EqTagString(name: string)
    | AnyTag(names: seq<string>)
    | AnyTagId(ids: seq<int>)
    | EqField(fieldType: string, value: EntryFilters.FieldValue)
    | And(left: Fragment, right: Fragment)
    | Or(left: Fragment, right: Fragment)
    | Not(inner: Fragment)

  /** The leaves that define a `ChildTags` table. */
  predicate TagLeaf(f: Fragment)
  {
    f.EqTag? || f.EqTagString? || f.AnyTag? || f.AnyTagId?
  }

  /*
   * The recursive walk over `tag_parents`.
   */

  /** The direction of a recursive `ChildTags` walk. */
  datatype Walk = Upward | Downward

  /** The column the recursive member selects from `tag_parents tp`. */
  function Selects(w: Walk): string
  {
    match w
    case Upward => "parent_id"
    case Downward => "child_id"
  }

  /** The column of `tag_parents tp` the recursive member joins on the table so far. */
  function Joins(w: Walk): string
  {
    match w
    case Upward => "child_id"
    case Downward => "parent_id"
  }

  /** A `tag_parents` column of one row, by name. */
  function Column(e: Edge, col: string): int
  {
    if col == "parent_id" then e.parent else e.child
  }

  /**
   * One round of `SELECT tp.<Selects> … INNER JOIN ChildTags c ON
   * tp.<Joins> = c.<col>` read over the `tag_parents` rows.
   */
  function FollowStep(edges: seq<Edge>, w: Walk, s: set<int>): set<int>
  {
    s + set e | e in edges && Column(e, Joins(w)) in s :: Column(e, Selects(w))
  }

  /** The walk each leaf runs: only `EqTag` goes from child to parent. */
  function WalkOf(f: Fragment): Walk
  {
    if f.EqTag? then Upward else Downward
  }

  /** The column the `ChildTags` table of a leaf carries. */
  function IdColumn(f: Fragment): string
  {
    if f.EqTag? then "child_id" else "tag_id"
  }

  /*
   * The numbering.
   */

  /** A template's piece with the counter at `n`: `$k` becomes `$(n + k)` and `ChildTags_k` becomes `ChildTags_(n + k)`. */
  function NumberPiece(p: Piece<nat>, n: nat): Piece<nat>
  {
    match p
    case Lit(t) => Lit(t)
    case Slot(k) => Slot(n + k)
    case Name(prefix, k) => Name(prefix, n + k)
  }

  /** A leaf's template, numbered from 0, written with the counter at `n`. */
  function Numbered(t: Cond, n: nat): (r: Cond)
    ensures |r| == |t|
  {
    seq(|t|, i requires 0 <= i < |t| => NumberPiece(t[i], n))
  }

  /** A template that names no table is numbered as the other filters shift theirs. */
  lemma NumberedShift(t: Cond, n: nat)
    requires forall i :: 0 <= i < |t| ==> !t[i].Name?
    ensures Numbered(t, n) == Shift(t, n)
  {
  }

  /** The recursive member of a walk, after the seed. */
  function RecursiveMember(col: string, w: Walk): Cond
  {
    [ Lit(" UNION SELECT tp." + Selects(w) + " AS " + col + " FROM tag_parents tp INNER JOIN "),
      Name("ChildTags_", 0),
      Lit(" c ON tp." + Joins(w) + " = c." + col + ")") ]
  }

  /** `ChildTags_0 AS (<seed> UNION <recursive member>)` */
  function Cte(col: string, seed: Cond, w: Walk): Cond
  {
    [Name("ChildTags_", 0), Lit(" AS (")] + seed + RecursiveMember(col, w)
  }

  /** The seed head shared by the name-matching leaves. */
  function TagRowsSeed(col: string, cmp: Cond): Cond
  {
    [Lit("SELECT `tags`.`id` AS " + col + " FROM `tags` LEFT JOIN `tag_aliases` ON `tags`.`id` = `tag_aliases`.`tag_id` WHERE ")] + cmp
  }

  /**
   * The six comparisons of `EqTag` and `EqTagString` on placeholder 0:
   * name, shorthand and alias under `LOWER`, each plain and with `'_'`
   * read as `' '`.
   */
  const NameCompares: Cond :=
    TagFilters.Compare("`tags`.`name`", true, false) + [Lit(" OR ")]
    + TagFilters.Compare("`tags`.`name`", true, true) + [Lit(" OR ")]
    + TagFilters.Compare("`tags`.`shorthand`", true, false) + [Lit(" OR ")]
    + TagFilters.Compare("`tags`.`shorthand`", true, true) + [Lit(" OR ")]
    + TagFilters.Compare("`tag_aliases`.`name`", true, false) + [Lit(" OR ")]
    + TagFilters.Compare("`tag_aliases`.`name`", true, true)

  /** `LOWER(<col>) IN AnyTags_0 OR LOWER(<col>) IN AnyTags_0_replaced` */
  function InLists(col: string): Cond
  {
    [Lit("LOWER(" + col + ") IN "), Name("AnyTags_", 0), Lit(" OR LOWER(" + col + ") IN "), Name("AnyTags_", 0), Lit("_replaced")]
  }

  /** The six list comparisons of `AnyTagString`. */
  const ListCompares: Cond :=
    InLists("`tags`.`name`") + [Lit(" OR ")]
    + InLists("`tags`.`shorthand`") + [Lit(" OR ")]
    + InLists("`tag_aliases`.`name`")

  /**
   * `AnyTags_0`, the lower-cased list, and `AnyTags_0_replaced`, the
   * lower-cased list with `'_'` read as `' '`, both from `JSON_EACH($0)`.
   */
  const ListTables: Cond :=
    [ Name("AnyTags_", 0), Lit(" AS (SELECT LOWER(value) AS tag FROM JSON_EACH("), Slot(0), Lit(")), "),
      Name("AnyTags_", 0), Lit("_replaced AS (SELECT replace(LOWER(value), '_', ' ') AS tag FROM JSON_EACH("), Slot(0), Lit(")), ") ]

  /** `EqTag::get_subquery`: tags matching the name, then their ancestors. */
  const EqTagTables: Cond := Cte("child_id", TagRowsSeed("child_id", NameCompares), Upward)

  /** `EqTagString::get_subquery`: tags matching the name, then their descendants. */
  const EqTagStringTables: Cond := Cte("tag_id", TagRowsSeed("tag_id", NameCompares), Downward)

  /** `AnyTagString::get_subquery`: tags matching any listed name, then their descendants. */
  const AnyTagTables: Cond := ListTables + Cte("tag_id", TagRowsSeed("tag_id", ListCompares), Downward)

  /** `AnyTagId::get_subquery`: the listed ids, then their descendants. */
  const AnyTagIdTables: Cond :=
    ListTables + Cte("tag_id", [Lit("SELECT value AS tag_id FROM JSON_EACH("), Slot(0), Lit(")")], Downward)

  /** A tag leaf's `get_where_condition`: the entries linked to a tag of its table. */
  function WhereTemplate(entry: string, col: string): Cond
  {
    [ Lit("`entries`.`id` IN (SELECT " + entry + " FROM `"),
      Name("ChildTags_", 0),
      Lit("` INNER JOIN `tag_entries` ON `tag_entries`.`tag_id` = `"),
      Name("ChildTags_", 0),
      Lit("`.`" + col + "`)") ]
  }

  const EqTagWhere: Cond := WhereTemplate("`entry_id`", "child_id")

  const EqTagStringWhere: Cond := WhereTemplate("`entry_id`", "tag_id")

  const AnyTagWhere: Cond := WhereTemplate("`tag_entries`.`entry_id`", "tag_id")

  /**
   * The text each leaf writes, as templates numbered from 0: the tables of
   * the four tag leaves (`get_subquery`) and the conditions of all five
   * leaves (`get_where_condition`). The passes are defined for any
   * templates, so that what they promise about the counter and the table
   * names is seen to hold whatever the leaves write.
   */
  datatype Templates = Templates(
    eqTag: Cond, eqTagString: Cond, anyTag: Cond, anyTagId: Cond,
    eqTagWhere: Cond, eqTagStringWhere: Cond, anyTagWhere: Cond, anyTagIdWhere: Cond, fieldWhere: Cond)

  /** The texts of eq_tag.rs, eq_tag_string.rs, any_tag_string.rs, any_tag_id.rs and eq_field.rs. */
  const Sources: Templates := Templates(
    EqTagTables, EqTagStringTables, AnyTagTables, AnyTagIdTables,
    EqTagWhere, EqTagStringWhere, AnyTagWhere, AnyTagWhere, EntryFilters.FieldTemplate())

  /** The template `get_subquery` of a tag leaf writes. */
  function TablesOf(t: Templates, f: Fragment): Cond
    requires TagLeaf(f)
  {
    match f
    case EqTag(_) => t.eqTag
    case EqTagString(_) => t.eqTagString
    case AnyTag(_) => t.anyTag
    case AnyTagId(_) => t.anyTagId
  }

  /** The template `get_where_condition` of a leaf writes. */
  function WhereOf(t: Templates, f: Fragment): Cond
    requires TagLeaf(f) || f.EqField?
  {
    match f
    case EqTag(_) => t.eqTagWhere
    case EqTagString(_) => t.eqTagStringWhere
    case AnyTag(_) => t.anyTagWhere
    case AnyTagId(_) => t.anyTagIdWhere
    case EqField(_, _) => t.fieldWhere
  }

  /*
   * The two passes.
   */

  /** The join of `TagAnd::get_subquery` and `QueryOr::get_subquery`: `"{a}, {b}"`, an absent side left out. */
  function CteList(a: Option<Cond>, b: Option<Cond>): Option<Cond>
  {
    match (a, b)
    case (Some(x), Some(y)) => Some(Infix(x, ", ", y))
    case (Some(x), None) => Some(x)
    case (None, Some(y)) => Some(y)
    case (None, None) => None
  }

  /** `get_subquery` with the counter at `n` on entry: the tables and the counter on exit. */
  function Subquery(t: Templates, f: Fragment, n: nat): Rendered
  {
    match f
    case EqField(_, _) => Rendered(None, n + 2)
    case And(a, b) =>
      var ra := Subquery(t, a, n);
      var rb := Subquery(t, b, ra.next + 1);
      Rendered(CteList(ra.cond, rb.cond), rb.next + 1)
    case Or(a, b) =>
      var ra := Subquery(t, a, n);
      var rb := Subquery(t, b, ra.next);
      Rendered(CteList(ra.cond, rb.cond), rb.next)
    case Not(inner) => Subquery(t, inner, n)
    case _ => Rendered(Some(Numbered(TablesOf(t, f), n)), n + 1)
  }

  /** `get_where_condition` with the counter at `n` on entry: the condition and the counter on exit. */
  function Where(t: Templates, f: Fragment, n: nat): Rendered
  {
    match f
    case EqField(_, _) => Rendered(Some(Numbered(WhereOf(t, f), n)), n + 2)
    case And(a, b) =>
      var ra := Where(t, a, n);
      var rb := Where(t, b, ra.next + 1);
      Rendered(AndCond(ra.cond, rb.cond), rb.next + 1)
    case Or(a, b) =>
      var ra := Where(t, a, n);
      var rb := Where(t, b, ra.next);
      Rendered(OrCond(ra.cond, rb.cond), rb.next)
    case Not(inner) =>
      var ri := Where(t, inner, n);
      Rendered(NotCond(ri.cond), ri.next)
    case _ => Rendered(Some(Numbered(WhereOf(t, f), n)), n + 1)
  }

  /** The values `bind` appends, in order. */
  function Binds(f: Fragment): seq<Value>
  {
    match f
    case EqTag(name) => [StrValue(name)]
    case EqTagString(name) => [StrValue(name)]
    case AnyTag(names) => [JsonStrings(names)]
    case AnyTagId(ids) => [JsonIds(ids)]
    case EqField(fieldType, value) => [StrValue(fieldType), EntryFilters.FieldBind(value)]
    case And(a, b) => Binds(a) + Binds(b)
    case Or(a, b) => Binds(a) + Binds(b)
    case Not(inner) => Binds(inner)
  }

  /** The number of `TagAnd` nodes in a fragment. */
  function Ands(f: Fragment): nat
  {
    match f
    case And(a, b) => 1 + Ands(a) + Ands(b)
    case Or(a, b) => Ands(a) + Ands(b)
    case Not(inner) => Ands(inner)
    case _ => 0
  }

  /*
   * The counter.
   */

  /** `get_subquery` moves the counter by one per bound value plus two per `TagAnd`. */
  lemma {:induction false} SubqueryAdvance(t: Templates, f: Fragment, n: nat)
    ensures Subquery(t, f, n).next == n + |Binds(f)| + 2 * Ands(f)
  {
    match f
    case And(a, b) =>
      SubqueryAdvance(t, a, n);
      SubqueryAdvance(t, b, n + |Binds(a)| + 2 * Ands(a) + 1);
    case Or(a, b) =>
      SubqueryAdvance(t, a, n);
      SubqueryAdvance(t, b, n + |Binds(a)| + 2 * Ands(a));
    case Not(inner) =>
      SubqueryAdvance(t, inner, n);
    case _ =>
  }

  /** `get_where_condition` moves the counter by one per bound value plus two per `TagAnd`. */
  lemma {:induction false} WhereAdvance(t: Templates, f: Fragment, n: nat)
    ensures Where(t, f, n).next == n + |Binds(f)| + 2 * Ands(f)
  {
    match f
    case And(a, b) =>
      WhereAdvance(t, a, n);
      WhereAdvance(t, b, n + |Binds(a)| + 2 * Ands(a) + 1);
    case Or(a, b) =>
      WhereAdvance(t, a, n);
      WhereAdvance(t, b, n + |Binds(a)| + 2 * Ands(a));
    case Not(inner) =>
      WhereAdvance(t, inner, n);
    case _ =>
  }

  /**
   * Both passes move the counter by the same amount, so a fragment that
   * follows another starts at the same number in both: one per bound value
   * plus two per `TagAnd`, none for `QueryOr` or `QueryNot`.
   */
  lemma PassesAdvanceAlike(t: Templates, f: Fragment, n: nat)
    ensures Subquery(t, f, n).next == Where(t, f, n).next == n + |Binds(f)| + 2 * Ands(f)
  {
    SubqueryAdvance(t, f, n);
    WhereAdvance(t, f, n);
  }

  /*
   * The table names.
   */

  /** The numbers of the `ChildTags_n` tables a text names. */
  function ChildTagNames(c: Option<Cond>): set<nat>
  {
    match c
    case None => {}
    case Some(s) => set i | 0 <= i < |s| && s[i].Name? && s[i].prefix == "ChildTags_" :: s[i].id
  }

  /**
   * Each tag leaf's tables and condition name its own table `ChildTags_0`
   * and no other; the field condition names none.
   */
  ghost predicate NamesOwnTable(t: Templates)
  {
    && ChildTagNames(Some(t.eqTag)) == {0}
    && ChildTagNames(Some(t.eqTagString)) == {0}
    && ChildTagNames(Some(t.anyTag)) == {0}
    && ChildTagNames(Some(t.anyTagId)) == {0}
    && ChildTagNames(Some(t.eqTagWhere)) == {0}
    && ChildTagNames(Some(t.eqTagStringWhere)) == {0}
    && ChildTagNames(Some(t.anyTagWhere)) == {0}
    && ChildTagNames(Some(t.anyTagIdWhere)) == {0}
    && ChildTagNames(Some(t.fieldWhere)) == {}
  }

  lemma NamesAppend(a: Cond, b: Cond)
    ensures ChildTagNames(Some(a + b)) == ChildTagNames(Some(a)) + ChildTagNames(Some(b))
  {
    var ab := a + b;
    forall k | k in ChildTagNames(Some(ab)) ensures k in ChildTagNames(Some(a)) + ChildTagNames(Some(b)) {
      var i :| 0 <= i < |ab| && ab[i].Name? && ab[i].prefix == "ChildTags_" && ab[i].id == k;
      if i < |a| {
        assert a[i] == ab[i];
      } else {
        assert b[i - |a|] == ab[i];
      }
    }
    forall k | k in ChildTagNames(Some(a)) ensures k in ChildTagNames(Some(ab)) {
      var i :| 0 <= i < |a| && a[i].Name? && a[i].prefix == "ChildTags_" && a[i].id == k;
      assert ab[i] == a[i];
    }
    forall k | k in ChildTagNames(Some(b)) ensures k in ChildTagNames(Some(ab)) {
      var i :| 0 <= i < |b| && b[i].Name? && b[i].prefix == "ChildTags_" && b[i].id == k;
      assert ab[|a| + i] == b[i];
    }
  }

  /** Numbering from `n` a template that names only `ChildTags_0` names only `ChildTags_n`. */
  lemma NamesNumberedOwn(c: Cond, n: nat)
    requires ChildTagNames(Some(c)) == {0}
    ensures ChildTagNames(Some(Numbered(c, n))) == {n}
  {
    var s := Numbered(c, n);
    forall k | k in ChildTagNames(Some(s)) ensures k == n {
      var i :| 0 <= i < |s| && s[i].Name? && s[i].prefix == "ChildTags_" && s[i].id == k;
      assert s[i] == NumberPiece(c[i], n);
      assert c[i].id in ChildTagNames(Some(c));
    }
    assert 0 in ChildTagNames(Some(c));
    var i :| 0 <= i < |c| && c[i].Name? && c[i].prefix == "ChildTags_" && c[i].id == 0;
    assert s[i] == NumberPiece(c[i], n);
  }

  /** Numbering a template that names no table names none. */
  lemma NoNamesNumbered(c: Cond, n: nat)
    requires ChildTagNames(Some(c)) == {}
    ensures ChildTagNames(Some(Numbered(c, n))) == {}
  {
    var s := Numbered(c, n);
    forall i | 0 <= i < |s| ensures !(s[i].Name? && s[i].prefix == "ChildTags_") {
      assert s[i] == NumberPiece(c[i], n);
      NameListed(c, i);
    }
  }

  /** Every `ChildTags_` piece of a template is among its names. */
  lemma NameListed(c: Cond, i: nat)
    requires i < |c|
    ensures c[i].Name? && c[i].prefix == "ChildTags_" ==> c[i].id in ChildTagNames(Some(c))
  {
  }

  lemma InfixNames(x: Cond, op: string, y: Cond)
    ensures ChildTagNames(Some(Infix(x, op, y))) == ChildTagNames(Some(x)) + ChildTagNames(Some(y))
  {
    NamesAppend(x + [Lit(op)], y);
    NamesAppend(x, [Lit(op)]);
  }

  lemma WrapNames(pre: string, x: Cond, post: string)
    ensures ChildTagNames(Some(Wrap(pre, x, post))) == ChildTagNames(Some(x))
  {
    NamesAppend([Lit(pre)] + x, [Lit(post)]);
    NamesAppend([Lit(pre)], x);
  }

  /** Both joins of both passes name exactly the tables their two sides name. */
  lemma JoinNames(a: Option<Cond>, b: Option<Cond>)
    ensures ChildTagNames(CteList(a, b)) == ChildTagNames(a) + ChildTagNames(b)
    ensures ChildTagNames(AndCond(a, b)) == ChildTagNames(a) + ChildTagNames(b)
    ensures ChildTagNames(OrCond(a, b)) == ChildTagNames(a) + ChildTagNames(b)
  {
    if a.Some? && b.Some? {
      InfixNames(a.value, ", ", b.value);
      InfixNames(a.value, " AND ", b.value);
      WrapNames("(", Infix(a.value, " AND ", b.value), ")");
      InfixNames(a.value, " OR ", b.value);
      WrapNames("(", Infix(a.value, " OR ", b.value), ")");
    }
  }

  /** Joining sides whose passes name the same tables keeps them naming the same tables. */
  lemma JoinPairUp(sa: Option<Cond>, sb: Option<Cond>, wa: Option<Cond>, wb: Option<Cond>)
    requires ChildTagNames(sa) == ChildTagNames(wa) && ChildTagNames(sb) == ChildTagNames(wb)
    ensures ChildTagNames(CteList(sa, sb)) == ChildTagNames(AndCond(wa, wb))
    ensures ChildTagNames(CteList(sa, sb)) == ChildTagNames(OrCond(wa, wb))
  {
    JoinNames(sa, sb);
    JoinNames(wa, wb);
  }

  /** A tag leaf defines and references the one table its counter value names. */
  lemma LeafPairUp(t: Templates, f: Fragment, n: nat)
    requires NamesOwnTable(t) && TagLeaf(f)
    ensures ChildTagNames(Subquery(t, f, n).cond) == {n}
    ensures ChildTagNames(Where(t, f, n).cond) == {n}
  {
    NamesNumberedOwn(TablesOf(t, f), n);
    NamesNumberedOwn(WhereOf(t, f), n);
  }

  /**
   * The pairing theorem: the condition refers to exactly the `ChildTags_n`
   * tables the subquery pass defines, because both passes advance the
   * counter alike and so give each leaf the same number.
   */
  lemma {:induction false} NamesPairUp(t: Templates, f: Fragment, n: nat)
    requires NamesOwnTable(t)
    ensures ChildTagNames(Subquery(t, f, n).cond) == ChildTagNames(Where(t, f, n).cond)
  {
    match f
    case EqField(_, _) =>
      NoNamesNumbered(t.fieldWhere, n);
    case And(a, b) =>
      PassesAdvanceAlike(t, a, n);
      var m := Subquery(t, a, n).next + 1;
      NamesPairUp(t, a, n);
      NamesPairUp(t, b, m);
      JoinPairUp(Subquery(t, a, n).cond, Subquery(t, b, m).cond, Where(t, a, n).cond, Where(t, b, m).cond);
    case Or(a, b) =>
      PassesAdvanceAlike(t, a, n);
      var m := Subquery(t, a, n).next;
      NamesPairUp(t, a, n);
      NamesPairUp(t, b, m);
      JoinPairUp(Subquery(t, a, n).cond, Subquery(t, b, m).cond, Where(t, a, n).cond, Where(t, b, m).cond);
    case Not(inner) =>
      NamesPairUp(t, inner, n);
      if Where(t, inner, n).cond.Some? {
        WrapNames("(NOT (", Where(t, inner, n).cond.value, "))");
      }
    case _ =>
      LeafPairUp(t, f, n);
  }

  /*
   * The placeholders.
   */

  /** Each leaf template refers to its own placeholders only: `$0`, and `$1` too for `EqField`. */
  ghost predicate SlotsOwn(t: Templates)
  {
    && SlotsIn(t.eqTag, 0, 1) && SlotsIn(t.eqTagString, 0, 1)
    && SlotsIn(t.anyTag, 0, 1) && SlotsIn(t.anyTagId, 0, 1)
    && SlotsIn(t.eqTagWhere, 0, 1) && SlotsIn(t.eqTagStringWhere, 0, 1)
    && SlotsIn(t.anyTagWhere, 0, 1) && SlotsIn(t.anyTagIdWhere, 0, 1)
    && SlotsIn(t.fieldWhere, 0, 2)
  }

  /** A template on `$0 … $(k-1)` numbered from `n` is on `$n … $(n+k-1)`. */
  lemma NumberedSlots(c: Cond, k: nat, n: nat)
    requires SlotsIn(c, 0, k)
    ensures SlotsIn(Numbered(c, n), n, n + k)
  {
    var s := Numbered(c, n);
    forall i | 0 <= i < |s| && s[i].Slot? ensures n <= s[i].slot < n + k {
      assert s[i] == NumberPiece(c[i], n);
    }
  }

  /**
   * The joins keep every placeholder of the two sides, and add none:
   * a left side on `[lo, mid)` and a right side on `[mid', hi)` give a
   * join on `[lo, hi)`.
   */
  lemma JoinSlots(a: Option<Cond>, b: Option<Cond>, lo: nat, mid: nat, mid': nat, hi: nat)
    requires lo <= mid <= mid' <= hi
    requires OptSlotsIn(a, lo, mid) && OptSlotsIn(b, mid', hi)
    ensures OptSlotsIn(CteList(a, b), lo, hi)
    ensures OptSlotsIn(AndCond(a, b), lo, hi)
    ensures OptSlotsIn(OrCond(a, b), lo, hi)
  {
    if a.Some? {
      SlotsInWiden(a.value, lo, mid, lo, hi);
    }
    if b.Some? {
      SlotsInWiden(b.value, mid', hi, lo, hi);
    }
    if a.Some? && b.Some? {
      InfixSlots(a.value, ", ", b.value, lo, hi);
      InfixSlots(a.value, " AND ", b.value, lo, hi);
      WrapSlots("(", Infix(a.value, " AND ", b.value), ")", lo, hi);
      InfixSlots(a.value, " OR ", b.value, lo, hi);
      WrapSlots("(", Infix(a.value, " OR ", b.value), ")", lo, hi);
    }
  }

  /** A tag leaf refers to `$n` alone in both passes. */
  lemma LeafSlots(t: Templates, f: Fragment, n: nat)
    requires SlotsOwn(t) && TagLeaf(f)
    ensures OptSlotsIn(Subquery(t, f, n).cond, n, n + 1)
    ensures OptSlotsIn(Where(t, f, n).cond, n, n + 1)
  {
    NumberedSlots(TablesOf(t, f), 1, n);
    NumberedSlots(WhereOf(t, f), 1, n);
  }

  /** `get_subquery` refers only to placeholders between the counter on entry and the counter on exit. */
  lemma {:induction false} SubquerySlots(t: Templates, f: Fragment, n: nat)
    requires SlotsOwn(t)
    ensures n <= Subquery(t, f, n).next
    ensures OptSlotsIn(Subquery(t, f, n).cond, n, Subquery(t, f, n).next)
  {
    match f
    case EqField(_, _) =>
    case And(a, b) =>
      var m := Subquery(t, a, n).next;
      SubquerySlots(t, a, n);
      SubquerySlots(t, b, m + 1);
      JoinSlots(Subquery(t, a, n).cond, Subquery(t, b, m + 1).cond, n, m, m + 1, Subquery(t, f, n).next);
    case Or(a, b) =>
      var m := Subquery(t, a, n).next;
      SubquerySlots(t, a, n);
      SubquerySlots(t, b, m);
      JoinSlots(Subquery(t, a, n).cond, Subquery(t, b, m).cond, n, m, m, Subquery(t, f, n).next);
    case Not(inner) =>
      SubquerySlots(t, inner, n);
    case _ =>
      LeafSlots(t, f, n);
  }

  /** `get_where_condition` refers only to placeholders between the counter on entry and the counter on exit. */
  lemma {:induction false} WhereSlots(t: Templates, f: Fragment, n: nat)
    requires SlotsOwn(t)
    ensures n <= Where(t, f, n).next
    ensures OptSlotsIn(Where(t, f, n).cond, n, Where(t, f, n).next)
  {
    match f
    case EqField(_, _) =>
      NumberedSlots(t.fieldWhere, 2, n);
    case And(a, b) =>
      var m := Where(t, a, n).next;
      WhereSlots(t, a, n);
      WhereSlots(t, b, m + 1);
      JoinSlots(Where(t, a, n).cond, Where(t, b, m + 1).cond, n, m, m + 1, Where(t, f, n).next);
    case Or(a, b) =>
      var m := Where(t, a, n).next;
      WhereSlots(t, a, n);
      WhereSlots(t, b, m);
      JoinSlots(Where(t, a, n).cond, Where(t, b, m).cond, n, m, m, Where(t, f, n).next);
    case Not(inner) =>
      WhereSlots(t, inner, n);
      if Where(t, inner, n).cond.Some? {
        WrapSlots("(NOT (", Where(t, inner, n).cond.value, "))", n, Where(t, f, n).next);
      }
    case _ =>
      LeafSlots(t, f, n);
  }

  /**
   * Both passes refer only to `$n` up to `$(n + k - 1)`, where `k` is one
   * per bound value plus two per `TagAnd`; without a `TagAnd`, exactly
   * the positions of the bound values.
   */
  lemma LegacySlots(t: Templates, f: Fragment, n: nat)
    requires SlotsOwn(t)
    ensures OptSlotsIn(Subquery(t, f, n).cond, n, n + |Binds(f)| + 2 * Ands(f))
    ensures OptSlotsIn(Where(t, f, n).cond, n, n + |Binds(f)| + 2 * Ands(f))
    ensures Ands(f) == 0 ==> OptSlotsIn(Subquery(t, f, n).cond, n, n + |Binds(f)|)
    ensures Ands(f) == 0 ==> OptSlotsIn(Where(t, f, n).cond, n, n + |Binds(f)|)
  {
    PassesAdvanceAlike(t, f, n);
    SubquerySlots(t, f, n);
    WhereSlots(t, f, n);
  }

  /**
   * The extra increments of `TagAnd` leave a hole in the numbering: two
   * `EqTag` leaves bind two values, but their tables use `$n` and
   * `$(n + 2)`, so the placeholders are not those of the values' positions.
   */
  lemma AndGap(t: Templates, x: string, y: string, n: nat, k: nat)
    requires k < |t.eqTag| && t.eqTag[k] == Slot(0)
    ensures |Binds(And(EqTag(x), EqTag(y)))| == 2
    ensures Subquery(t, And(EqTag(x), EqTag(y)), n).cond.Some?
    ensures Slot(n + 2) in Subquery(t, And(EqTag(x), EqTag(y)), n).cond.value
    ensures !OptSlotsIn(Subquery(t, And(EqTag(x), EqTag(y)), n).cond, n, n + 2)
  {
    var left := Numbered(t.eqTag, n);
    var right := Numbered(t.eqTag, n + 2);
    assert Subquery(t, EqTag(x), n) == Rendered(Some(left), n + 1);
    assert Subquery(t, EqTag(y), n + 2) == Rendered(Some(right), n + 3);
    var c := Subquery(t, And(EqTag(x), EqTag(y)), n).cond.value;
    assert c == left + [Lit(", ")] + right;
    assert right[k] == Slot(n + 2);
    assert c[|left| + 1 + k] == Slot(n + 2);
  }

  /*
   * The texts of the source meet both template disciplines.
   */

  /** A piece of text with no table and no placeholder but `$0`. */
  ghost predicate Plain(c: Cond)
  {
    ChildTagNames(Some(c)) == {} && SlotsIn(c, 0, 1)
  }

  lemma PlainAppend(a: Cond, b: Cond)
    requires Plain(a) && Plain(b)
    ensures Plain(a + b)
  {
    NamesAppend(a, b);
    SlotsInAppend(a, b, 0, 1);
  }

  /** An `OR` of two plain comparisons is plain. */
  lemma PlainOr(a: Cond, b: Cond)
    requires Plain(a) && Plain(b)
    ensures Plain(a + [Lit(" OR ")] + b)
  {
    PlainAppend(a, [Lit(" OR ")]);
    PlainAppend(a + [Lit(" OR ")], b);
  }

  lemma NameComparesPlain()
    ensures Plain(NameCompares)
  {
    var c1 := TagFilters.Compare("`tags`.`name`", true, false);
    var c2 := TagFilters.Compare("`tags`.`name`", true, true);
    var c3 := TagFilters.Compare("`tags`.`shorthand`", true, false);
    var c4 := TagFilters.Compare("`tags`.`shorthand`", true, true);
    var c5 := TagFilters.Compare("`tag_aliases`.`name`", true, false);
    var c6 := TagFilters.Compare("`tag_aliases`.`name`", true, true);
    var or: Cond := [Lit(" OR ")];
    PlainOr(c1, c2);
    PlainOr(c1 + or + c2, c3);
    PlainOr(c1 + or + c2 + or + c3, c4);
    PlainOr(c1 + or + c2 + or + c3 + or + c4, c5);
    PlainOr(c1 + or + c2 + or + c3 + or + c4 + or + c5, c6);
  }

  lemma ListComparesPlain()
    ensures Plain(ListCompares)
  {
    PlainOr(InLists("`tags`.`name`"), InLists("`tags`.`shorthand`"));
    PlainOr(InLists("`tags`.`name`") + [Lit(" OR ")] + InLists("`tags`.`shorthand`"), InLists("`tag_aliases`.`name`"));
  }

  lemma ListTablesPlain()
    ensures Plain(ListTables)
  {
    forall i | 0 <= i < |ListTables| ensures !(ListTables[i].Name? && ListTables[i].prefix == "ChildTags_") {
    }
  }

  /** A walk over a plain seed defines the one table `ChildTags_0` and uses `$0` only. */
  lemma CteOwn(col: string, seed: Cond, w: Walk)
    requires Plain(seed)
    ensures ChildTagNames(Some(Cte(col, seed, w))) == {0}
    ensures SlotsIn(Cte(col, seed, w), 0, 1)
  {
    var head: Cond := [Name("ChildTags_", 0), Lit(" AS (")];
    assert head[0] == Name("ChildTags_", 0);
    NamesAppend(head, seed);
    NamesAppend(head + seed, RecursiveMember(col, w));
    SlotsInAppend(head, seed, 0, 1);
    SlotsInAppend(head + seed, RecursiveMember(col, w), 0, 1);
  }

  lemma TagRowsSeedPlain(col: string, cmp: Cond)
    requires Plain(cmp)
    ensures Plain(TagRowsSeed(col, cmp))
  {
    PlainAppend([Lit("SELECT `tags`.`id` AS " + col + " FROM `tags` LEFT JOIN `tag_aliases` ON `tags`.`id` = `tag_aliases`.`tag_id` WHERE ")], cmp);
  }

  lemma WhereTemplateOwn(entry: string, col: string)
    ensures ChildTagNames(Some(WhereTemplate(entry, col))) == {0}
    ensures SlotsIn(WhereTemplate(entry, col), 0, 1)
  {
    assert WhereTemplate(entry, col)[1] == Name("ChildTags_", 0);
  }

  lemma EqTagTablesOwn()
    ensures ChildTagNames(Some(EqTagTables)) == {0} && SlotsIn(EqTagTables, 0, 1)
  {
    NameComparesPlain();
    TagRowsSeedPlain("child_id", NameCompares);
    CteOwn("child_id", TagRowsSeed("child_id", NameCompares), Upward);
  }

  lemma EqTagStringTablesOwn()
    ensures ChildTagNames(Some(EqTagStringTables)) == {0} && SlotsIn(EqTagStringTables, 0, 1)
  {
    NameComparesPlain();
    TagRowsSeedPlain("tag_id", NameCompares);
    CteOwn("tag_id", TagRowsSeed("tag_id", NameCompares), Downward);
  }

  lemma AnyTagTablesOwn()
    ensures ChildTagNames(Some(AnyTagTables)) == {0} && SlotsIn(AnyTagTables, 0, 1)
  {
    var cte := Cte("tag_id", TagRowsSeed("tag_id", ListCompares), Downward);
    ListComparesPlain();
    TagRowsSeedPlain("tag_id", ListCompares);
    CteOwn("tag_id", TagRowsSeed("tag_id", ListCompares), Downward);
    ListTablesPlain();
    NamesAppend(ListTables, cte);
    SlotsInAppend(ListTables, cte, 0, 1);
  }

  lemma AnyTagIdTablesOwn()
    ensures ChildTagNames(Some(AnyTagIdTables)) == {0} && SlotsIn(AnyTagIdTables, 0, 1)
  {
    var seed: Cond := [Lit("SELECT value AS tag_id FROM JSON_EACH("), Slot(0), Lit(")")];
    var cte := Cte("tag_id", seed, Downward);
    CteOwn("tag_id", seed, Downward);
    ListTablesPlain();
    NamesAppend(ListTables, cte);
    SlotsInAppend(ListTables, cte, 0, 1);
  }

  lemma FieldTemplateOwn()
    ensures ChildTagNames(Some(EntryFilters.FieldTemplate())) == {}
    ensures SlotsIn(EntryFilters.FieldTemplate(), 0, 2)
    ensures forall i :: 0 <= i < |EntryFilters.FieldTemplate()| ==> !EntryFilters.FieldTemplate()[i].Name?
  {
    EntryFilters.EntryTemplatesSlots();
    var c := EntryFilters.FieldTemplate();
    forall i | 0 <= i < |c| ensures !c[i].Name? {
    }
  }

  /** The texts of the source name their one table `ChildTags_0` and use their own placeholders only. */
  lemma SourcesOwn()
    ensures NamesOwnTable(Sources)
    ensures SlotsOwn(Sources)
  {
    EqTagTablesOwn();
    EqTagStringTablesOwn();
    AnyTagTablesOwn();
    AnyTagIdTablesOwn();
    WhereTemplateOwn("`entry_id`", "child_id");
    WhereTemplateOwn("`entry_id`", "tag_id");
    WhereTemplateOwn("`tag_entries`.`entry_id`", "tag_id");
    FieldTemplateOwn();
  }

  /*
   * The walks over `tag_parents`.
   */

  /**
   * Read over the rows, the downward walk is the parent-to-child step of
   * the closure, and the upward walk is the same step over the rows
   * read child to parent.
   */
  lemma WalkDirection(edges: seq<Edge>, s: set<int>)
    ensures FollowStep(edges, Downward, s) == Step(edges, s)
    ensures FollowStep(edges, Upward, s) == Step(Reversed(edges), s)
  {
    var r := Reversed(edges);
    forall x | x in Step(r, s) ensures x in FollowStep(edges, Upward, s) {
      if x !in s {
        var e :| e in r && e.parent in s && e.child == x;
        var i :| 0 <= i < |r| && r[i] == e;
        assert edges[i] in edges;
      }
    }
    forall x | x in FollowStep(edges, Upward, s) ensures x in Step(r, s) {
      if x !in s {
        var e :| e in edges && e.child in s && e.parent == x;
        var i :| 0 <= i < |edges| && edges[i] == e;
        assert r[i] in r;
      }
    }
  }

  /** The rows a walk follows, parent to child. */
  function WalkEdges(edges: seq<Edge>, w: Walk): seq<Edge>
  {
    match w
    case Upward => Reversed(edges)
    case Downward => edges
  }

  /**
   * The table a `ChildTags` walk computes from its seed: the seed, then
   * the rows the recursive member adds, until a round adds nothing.
   */
  function WalkTable(edges: seq<Edge>, w: Walk, seed: set<int>): set<int>
  {
    Closure(WalkEdges(edges, w), seed)
  }

  lemma StepFixed(edges: seq<Edge>, s: set<int>)
    ensures Step(edges, s) == s <==> Closed(edges, s)
  {
    if Closed(edges, s) {
      forall x | x in Step(edges, s) ensures x in s {
      }
    }
    if Step(edges, s) == s {
      forall e | e in edges && e.parent in s ensures e.child in s {
        assert e.child in Step(edges, s);
      }
    }
  }

  /**
   * The table of a walk holds its seed, is a fixpoint of the recursive
   * member, and lies inside every other such fixpoint: the `UNION`
   * recursion stops, on cyclic rows too, at the least one.
   */
  lemma WalkTableLeast(edges: seq<Edge>, w: Walk, seed: set<int>, x: set<int>)
    ensures seed <= WalkTable(edges, w, seed)
    ensures FollowStep(edges, w, WalkTable(edges, w, seed)) == WalkTable(edges, w, seed)
    ensures seed <= x && FollowStep(edges, w, x) == x ==> WalkTable(edges, w, seed) <= x
  {
    var t := WalkTable(edges, w, seed);
    WalkDirection(edges, t);
    StepFixed(WalkEdges(edges, w), t);
    WalkDirection(edges, x);
    StepFixed(WalkEdges(edges, w), x);
    if seed <= x && FollowStep(edges, w, x) == x {
      ClosureLeast(WalkEdges(edges, w), seed, x);
    }
  }

  /** A walk's table, after whatever comes before it, ends with its recursive member. */
  lemma CteEnds(pre: Cond, col: string, seed: Cond, w: Walk)
    ensures |pre + Cte(col, seed, w)| >= 3
    ensures (pre + Cte(col, seed, w))[|pre + Cte(col, seed, w)| - 3..] == RecursiveMember(col, w)
  {
    assert pre + Cte(col, seed, w) == (pre + [Name("ChildTags_", 0), Lit(" AS (")] + seed) + RecursiveMember(col, w);
  }

  /** `EqTag` walks upward on `child_id`, adding the parents of the rows so far. */
  lemma EqTagWalk()
    ensures |EqTagTables| >= 3 && EqTagTables[|EqTagTables| - 3..] == RecursiveMember("child_id", Upward)
  {
    CteEnds([], "child_id", TagRowsSeed("child_id", NameCompares), Upward);
    assert [] + EqTagTables == EqTagTables;
  }

  /** `EqTagString` walks downward on `tag_id`, adding the children of the rows so far. */
  lemma EqTagStringWalk()
    ensures |EqTagStringTables| >= 3 && EqTagStringTables[|EqTagStringTables| - 3..] == RecursiveMember("tag_id", Downward)
  {
    CteEnds([], "tag_id", TagRowsSeed("tag_id", NameCompares), Downward);
    assert [] + EqTagStringTables == EqTagStringTables;
  }

  /** `AnyTagString` walks downward on `tag_id`. */
  lemma AnyTagWalk()
    ensures |AnyTagTables| >= 3 && AnyTagTables[|AnyTagTables| - 3..] == RecursiveMember("tag_id", Downward)
  {
    CteEnds(ListTables, "tag_id", TagRowsSeed("tag_id", ListCompares), Downward);
  }

  /** `AnyTagId` walks downward on `tag_id`. */
  lemma AnyTagIdWalk()
    ensures |AnyTagIdTables| >= 3 && AnyTagIdTables[|AnyTagIdTables| - 3..] == RecursiveMember("tag_id", Downward)
  {
    CteEnds(ListTables, "tag_id", [Lit("SELECT value AS tag_id FROM JSON_EACH("), Slot(0), Lit(")")], Downward);
  }

  /*
   * `EqField` and the fixture.
   */

  /**
   * `EqField` defines no table but still moves the counter by two in the
   * subquery pass; its condition and values are those of `EqEntryField`.
   */
  lemma FieldLeaf(t: Templates, fieldType: string, value: EntryFilters.FieldValue, n: nat)
    requires t.fieldWhere == EntryFilters.FieldTemplate()
    ensures Subquery(t, EqField(fieldType, value), n) == Rendered(None, n + 2)
    ensures Where(t, EqField(fieldType, value), n)
         == EntryFilters.RenderEntry(EntryFilters.EqEntryField(fieldType, value), n)
    ensures Binds(EqField(fieldType, value)) == EntryFilters.EntryBinds(EntryFilters.EqEntryField(fieldType, value))
  {
    FieldTemplateOwn();
    NumberedShift(EntryFilters.FieldTemplate(), n);
  }

  lemma SourcesField()
    ensures Sources.fieldWhere == EntryFilters.FieldTemplate()
  {
  }

  /** `EqField` on `DESCRIPTION` = "A very dingus cat" selects exactly one entry of the fixture. */
  lemma FieldFixture(t: Templates, n: nat)
    requires t.fieldWhere == EntryFilters.FieldTemplate()
    ensures Where(t, EqField("DESCRIPTION", EntryFilters.Text("A very dingus cat")), n)
         == EntryFilters.RenderEntry(EntryFilters.EqEntryField("DESCRIPTION", EntryFilters.Text("A very dingus cat")), n)
    ensures |Meaning.MatchingEntries(Fixture.TestLibrary,
              EntryFilters.EqEntryField("DESCRIPTION", EntryFilters.Text("A very dingus cat")))| == 1
  {
    FieldLeaf(t, "DESCRIPTION", EntryFilters.Text("A very dingus cat"), n);
    Fixture.FieldExample();
  }

  /*
   * The joins and the builders.
   */

  /** The Some/None table of the `", "` join, and its text. */
  lemma CteListTable(a: Option<Cond>, b: Option<Cond>)
    ensures CteList(a, b).None? <==> a.None? && b.None?
    ensures a.None? ==> CteList(a, b) == b
    ensures b.None? ==> CteList(a, b) == a
    ensures a.Some? && b.Some? ==> Flatten(CteList(a, b).value) == Flatten(a.value) + ", " + Flatten(b.value)
  {
    if a.Some? && b.Some? {
      InfixText(a.value, ", ", b.value);
    }
  }

  /** `Queryfragments::into_not` */
  function IntoNot(f: Fragment): (r: Fragment)
    ensures Binds(r) == Binds(f)
  {
    Not(f)
  }

  /**
   * `into_not` leaves the tables and the values alone and negates the
   * condition: `(NOT (c))`, or none if the fragment has none.
   */
  lemma IntoNotPasses(t: Templates, f: Fragment, n: nat)
    ensures Subquery(t, IntoNot(f), n) == Subquery(t, f, n)
    ensures Where(t, IntoNot(f), n).cond == NotCond(Where(t, f, n).cond)
    ensures Where(t, IntoNot(f), n).next == Where(t, f, n).next
    ensures Where(t, f, n).cond.Some? ==>
      Flatten(Where(t, IntoNot(f), n).cond.value) == "(NOT (" + Flatten(Where(t, f, n).cond.value) + "))"
  {
    if Where(t, f, n).cond.Some? {
      WrapOptText("(NOT (", Where(t, f, n).cond.value, "))");
    }
  }

  /** `AnyTagString::new1`: a list of the one name. */
  function AnyTagNew1(value: string): (r: Fragment)
    ensures Binds(r) == [JsonStrings([value])]
  {
    AnyTag([value])
  }

  /** `AnyTagId::new1`: a list of the one id. */
  function AnyTagIdNew1(value: int): (r: Fragment)
    ensures Binds(r) == [JsonIds([value])]
  {
    AnyTagId([value])
  }

  /*
   * The two passes on the shared counter.
   */

  /**
   * `Queryfragments::get_subquery` on the shared `&mut u64` counter. The
   * leaves write the texts `t` holds; the source's own are `Sources`.
   */
  method GetSubquery(t: Templates, f: Fragment, bindId: Counter) returns (r: Option<Cond>)
    modifies bindId
    ensures r == Subquery(t, f, old(bindId.value)).cond
    ensures bindId.value == Subquery(t, f, old(bindId.value)).next
  {
    match f
    case EqTag(_) =>
      var id := bindId.value;
      bindId.AddAssign(1);
      r := Some(Numbered(t.eqTag, id));
    case EqTagString(_) =>
      var id := bindId.value;
      bindId.AddAssign(1);
      r := Some(Numbered(t.eqTagString, id));
    case AnyTag(_) =>
      var id := bindId.value;
      bindId.AddAssign(1);
      r := Some(Numbered(t.anyTag, id));
    case AnyTagId(_) =>
      var id := bindId.value;
      bindId.AddAssign(1);
      r := Some(Numbered(t.anyTagId, id));
    case EqField(_, _) =>
      bindId.AddAssign(2);
      r := None;
    case And(a, b) =>
      var qa := GetSubquery(t, a, bindId);
      bindId.AddAssign(1);
      var qb := GetSubquery(t, b, bindId);
      bindId.AddAssign(1);
      r := CteList(qa, qb);
    case Or(a, b) =>
      var qa := GetSubquery(t, a, bindId);
      var qb := GetSubquery(t, b, bindId);
      r := CteList(qa, qb);
    case Not(inner) =>
      r := GetSubquery(t, inner, bindId);
  }

  /** `Queryfragments::get_where_condition` on the shared `&mut u64` counter, the leaves writing the texts `t` holds. */
  method GetWhereCondition(t: Templates, f: Fragment, bindId: Counter) returns (r: Option<Cond>)
    modifies bindId
    ensures r == Where(t, f, old(bindId.value)).cond
    ensures bindId.value == Where(t, f, old(bindId.value)).next
  {
    match f
    case EqTag(_) =>
      var id := bindId.value;
      bindId.AddAssign(1);
      r := Some(Numbered(t.eqTagWhere, id));
    case EqTagString(_) =>
      var id := bindId.value;
      bindId.AddAssign(1);
      r := Some(Numbered(t.eqTagStringWhere, id));
    case AnyTag(_) =>
      var id := bindId.value;
      bindId.AddAssign(1);
      r := Some(Numbered(t.anyTagWhere, id));
    case AnyTagId(_) =>
      var id := bindId.value;
      bindId.AddAssign(1);
      r := Some(Numbered(t.anyTagIdWhere, id));
    case EqField(_, _) =>
      var typeId := bindId.value;
      bindId.AddAssign(1);
      bindId.AddAssign(1);
      r := Some(Numbered(t.fieldWhere, typeId));
    case And(a, b) =>
      var qa := GetWhereCondition(t, a, bindId);
      bindId.AddAssign(1);
      var qb := GetWhereCondition(t, b, bindId);
      bindId.AddAssign(1);
      r := AndCond(qa, qb);
    case Or(a, b) =>
      var qa := GetWhereCondition(t, a, bindId);
      var qb := GetWhereCondition(t, b, bindId);
      r := OrCond(qa, qb);
    case Not(inner) =>
      var c := GetWhereCondition(t, inner, bindId);
      r := NotCond(c);
  }

  /*
   * `TagEq`: the upward walk of `EqTag`, named by the caller instead of
   * the counter.
   */

  /** A piece of `TagEq`'s text: the numbered name and placeholder take the caller's id instead. */
  function Rename(p: Piece<nat>, id: string): Piece<string>
  {
    match p
    case Lit(t) => Lit(t)
    case Slot(_) => Slot("tag_name_" + id)
    case Name(prefix, _) => Lit(prefix + id)
  }

  function Renamed(c: Cond, id: string): (r: seq<Piece<string>>)
    ensures |r| == |c|
  {
    seq(|c|, i requires 0 <= i < |c| => Rename(c[i], id))
  }

  /** `TagEq::get_subquery(id)`: no counter is read or moved. */
  function TagEqSubquery(id: string): seq<Piece<string>>
  {
    Renamed(EqTagTables, id)
  }

  /** `TagEq::get_where_condition(id)` */
  function TagEqWhere(id: string): seq<Piece<string>>
  {
    Renamed(EqTagWhere, id)
  }

  /** `TagEq::bind` */
  function TagEqBinds(name: string): (r: seq<Value>)
    ensures r == Binds(EqTag(name))
  {
    [StrValue(name)]
  }

  /** Renaming sends every placeholder to `$tag_name_<id>` and leaves no numbered name. */
  lemma RenamedPlaceholders(c: Cond, id: string)
    ensures forall p :: p in Renamed(c, id) && p.Slot? ==> p.slot == "tag_name_" + id
    ensures forall p :: p in Renamed(c, id) ==> !p.Name?
    ensures SlotsIn(c, 0, 0) ==> forall p :: p in Renamed(c, id) ==> !p.Slot?
  {
    var r := Renamed(c, id);
    forall p | p in r ensures (p.Slot? ==> p.slot == "tag_name_" + id) && !p.Name? && (SlotsIn(c, 0, 0) ==> !p.Slot?) {
      var i :| 0 <= i < |r| && r[i] == p;
      assert r[i] == Rename(c[i], id);
    }
  }

  /**
   * `TagEq` uses the one placeholder `$tag_name_<id>` and no numbered
   * name: nothing in its text depends on a counter.
   */
  lemma TagEqPlaceholders(id: string)
    ensures forall p :: p in TagEqSubquery(id) && p.Slot? ==> p.slot == "tag_name_" + id
    ensures forall p :: p in TagEqSubquery(id) ==> !p.Name?
    ensures forall p :: p in TagEqWhere(id) ==> !p.Slot? && !p.Name?
  {
    RenamedPlaceholders(EqTagTables, id);
    RenamedPlaceholders(EqTagWhere, id);
  }

  /**
   * `TagEq`'s subquery opens with the definition of `ChildTags_<id>`,
   * compares with `$tag_name_<id>`, and its condition refers to the same
   * table by the same name.
   */
  lemma TagEqTable(id: string)
    ensures |TagEqSubquery(id)| > 4
    ensures TagEqSubquery(id)[0] == Lit("ChildTags_" + id)
    ensures TagEqSubquery(id)[4] == Slot("tag_name_" + id)
    ensures |TagEqWhere(id)| == 5
    ensures TagEqWhere(id)[1] == Lit("ChildTags_" + id) && TagEqWhere(id)[3] == Lit("ChildTags_" + id)
  {
    assert EqTagTables[0] == Name("ChildTags_", 0);
    assert EqTagTables[4] == Slot(0);
  }

  /** `TagEq` walks upward on `child_id`, as `EqTag` does. */
  lemma TagEqWalk(id: string)
    ensures |TagEqSubquery(id)| >= 3
    ensures TagEqSubquery(id)[|TagEqSubquery(id)| - 3..] == Renamed(RecursiveMember("child_id", Upward), id)
  {
    EqTagWalk();
    var s := TagEqSubquery(id);
    var k := |s| - 3;
    forall i | 0 <= i < 3 ensures s[k..][i] == Renamed(RecursiveMember("child_id", Upward), id)[i] {
      assert EqTagTables[k + i] == RecursiveMember("child_id", Upward)[i];
    }
  }
}
