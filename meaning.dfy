/**
 * What a rendered condition selects from a snapshot, in SQL's
 * three-valued logic.
 *
 * A tag condition is read the way SQL parses its text: `AND` binds tighter
 * than `OR`, so the text is an `OR` of `AND` chains. `TagChains` gives,
 * for one tag row, the truth value of every unit of every chain. A
 * parenthesised part, a `NOT (…)` and an `IN (…)` are single units. The
 * `EqTagString2` text is a bare chain of five `OR`ed comparisons, and
 * `QueryAnd2` writes `(a AND b)` without parentheses around `a` or `b`,
 * so the last chain of `a` and the first chain of `b` join into one.
 *
 * Entry conditions need no such reading: every entry leaf is a single
 * comparison or `IN (…)`, so their `AND`/`OR`/`NOT` nest as written.
 */
module Meaning {
  import opened Wrappers
  import opened Text
  import opened Sql
  import opened Snapshot
  import TagFilters
  import EntryFilters

  /** SQL truth values; `Null` is SQL's unknown. */
  datatype Tri = True | False | Null

  function FromBool(b: bool): Tri
  {
    if b then True else False
  }

  function TAnd(a: Tri, b: Tri): Tri
  {
    if a == False || b == False then False
    else if a == True && b == True then True
    else Null
  }

  function TOr(a: Tri, b: Tri): Tri
  {
    if a == True || b == True then True
    else if a == False && b == False then False
    else Null
  }

  function TNot(a: Tri): Tri
  {
    match a
    case True => False
    case False => True
    case Null => Null
  }

  /** `c[0] AND c[1] AND …` */
  function AllOf(c: seq<Tri>): Tri
  {
    if c == [] then True else TAnd(AllOf(c[..|c| - 1]), c[|c| - 1])
  }

  /** `chain0 OR chain1 OR …` */
  function Holds(d: seq<seq<Tri>>): Tri
  {
    if d == [] then False else TOr(Holds(d[..|d| - 1]), AllOf(d[|d| - 1]))
  }

  /** The chains of `(a AND b)`: the last chain of `a` continues with the first chain of `b`. */
  function Merge(x: seq<seq<Tri>>, y: seq<seq<Tri>>): seq<seq<Tri>>
    requires x != [] && y != []
  {
    x[..|x| - 1] + [x[|x| - 1] + y[0]] + y[1..]
  }

  /**
   * One comparison of the tag-text template: NULL when the column is NULL,
   * otherwise whether the (lower-cased) column equals the (lower-cased,
   * optionally `'_'`-to-`' '`) searched text.
   */
  function CompareTri(col: Option<string>, lower: bool, escaped: bool, s: string): Tri
  {
    match col
    case None => Null
    case Some(v) =>
      var lhs := if lower then ToLower(v) else v;
      var folded := if lower then ToLower(s) else s;
      var rhs := if escaped then ReplaceChar(folded, '_', ' ') else folded;
      FromBool(lhs == rhs)
  }

  /** The alias unit: some alias of the tag matches either comparison. */
  function AliasTri(db: Db, t: TagRow, lower: bool, s: string): Tri
  {
    FromBool(exists a :: (a in db.aliases && a.tagId == t.id &&
      (CompareTri(Some(a.name), lower, false, s) == True || CompareTri(Some(a.name), lower, true, s) == True)))
  }

  /** The rendered tag condition of `q`, read as `OR` of `AND` chains, for the row `t`. */
  function TagChains(db: Db, q: TagFilters.TagQuery, t: TagRow): (r: seq<seq<Tri>>)
    ensures r != [] && forall i :: 0 <= i < |r| ==> r[i] != []
    decreases q, 0
  {
    match q
    case EqTagId(id) => [[FromBool(t.id == id)]]
    case EqAnyTagId(ids) => [[FromBool(t.id in ids)]]
    case EqTagString(s) =>
      var lower := TagFilters.CaseInsensitive(s);
      [ [CompareTri(Some(t.name), lower, false, s)],
        [CompareTri(Some(t.name), lower, true, s)],
        [CompareTri(t.shorthand, lower, false, s)],
        [CompareTri(t.shorthand, lower, true, s)],
        [AliasTri(db, t, lower, s)] ]
    case EqTagOrChildren(inner) => [[FromBool(t.id in Closure(db.edges, Selected(db, inner)))]]
    case EqTagOrParents(inner) => [[FromBool(t.id in Closure(db.edges, Selected(db, inner)))]]
    case Not(inner) => [[TNot(Holds(TagChains(db, inner, t)))]]
    case And(a, b) => [[Holds(Merge(TagChains(db, a, t), TagChains(db, b, t)))]]
    case Or(a, b) => [[Holds(TagChains(db, a, t) + TagChains(db, b, t))]]
  }

  /** `SELECT * FROM `tags` WHERE (cond)`: the ids of the rows where the condition is true. */
  function Selected(db: Db, q: TagFilters.TagQuery): set<int>
    decreases q, 1
  {
    set t | t in db.tags && Holds(TagChains(db, q, t)) == True :: t.id
  }

  /** The meaning the combinators are named for: `And` is the conjunction of its operands. */
  function TagIntended(db: Db, q: TagFilters.TagQuery, t: TagRow): Tri
    decreases q, 0
  {
    match q
    case EqTagOrChildren(inner) => FromBool(t.id in Closure(db.edges, IntendedSelected(db, inner)))
    case EqTagOrParents(inner) => FromBool(t.id in Closure(db.edges, IntendedSelected(db, inner)))
    case Not(inner) => TNot(TagIntended(db, inner, t))
    case And(a, b) => TAnd(TagIntended(db, a, t), TagIntended(db, b, t))
    case Or(a, b) => TOr(TagIntended(db, a, t), TagIntended(db, b, t))
    case _ => Holds(TagChains(db, q, t))
  }

  function IntendedSelected(db: Db, q: TagFilters.TagQuery): set<int>
    decreases q, 1
  {
    set t | t in db.tags && TagIntended(db, q, t) == True :: t.id
  }

  /** No tag-level `And` has a bare `EqTagString2` operand. */
  predicate WellGrouped(q: TagFilters.TagQuery)
  {
    match q
    case EqTagOrChildren(inner) => WellGrouped(inner)
    case EqTagOrParents(inner) => WellGrouped(inner)
    case Not(inner) => WellGrouped(inner)
    case And(a, b) => !a.EqTagString? && !b.EqTagString? && WellGrouped(a) && WellGrouped(b)
    case Or(a, b) => WellGrouped(a) && WellGrouped(b)
    case _ => true
  }

  lemma HoldsSingle(x: Tri)
    ensures AllOf([x]) == x
    ensures Holds([[x]]) == x
  {
    assert [x][..0] == [];
    assert [[x]][..0] == [];
  }

  lemma SingleUnit(db: Db, q: TagFilters.TagQuery, t: TagRow)
    requires !q.EqTagString?
    ensures TagChains(db, q, t) == [[TagChains(db, q, t)[0][0]]]
    ensures Holds(TagChains(db, q, t)) == TagChains(db, q, t)[0][0]
  {
    HoldsSingle(TagChains(db, q, t)[0][0]);
  }

  /** A closure wrapper holds on a tag exactly when the walk from the inner selection reaches it. */
  lemma ClosureUnit(db: Db, q: TagFilters.TagQuery, t: TagRow)
    requires q.EqTagOrChildren? || q.EqTagOrParents?
    ensures Holds(TagChains(db, q, t)) == FromBool(t.id in Closure(db.edges, Selected(db, q.inner)))
  {
    HoldsSingle(FromBool(t.id in Closure(db.edges, Selected(db, q.inner))));
  }

  lemma HoldsSnoc(d: seq<seq<Tri>>, x: Tri)
    ensures Holds(d + [[x]]) == TOr(Holds(d), x)
  {
    assert (d + [[x]])[..|d|] == d;
    HoldsSingle(x);
  }

  /** Five one-unit chains: their `OR`, left to right. */
  lemma HoldsFive(x0: Tri, x1: Tri, x2: Tri, x3: Tri, x4: Tri)
    ensures Holds([[x0], [x1], [x2], [x3], [x4]]) == TOr(TOr(TOr(TOr(x0, x1), x2), x3), x4)
  {
    HoldsSnoc([], x0);
    HoldsSnoc([[x0]], x1);
    assert [[x0]] + [[x1]] == [[x0], [x1]];
    HoldsSnoc([[x0], [x1]], x2);
    assert [[x0], [x1]] + [[x2]] == [[x0], [x1], [x2]];
    HoldsSnoc([[x0], [x1], [x2]], x3);
    assert [[x0], [x1], [x2]] + [[x3]] == [[x0], [x1], [x2], [x3]];
    HoldsSnoc([[x0], [x1], [x2], [x3]], x4);
    assert [[x0], [x1], [x2], [x3]] + [[x4]] == [[x0], [x1], [x2], [x3], [x4]];
  }

  /** The bare text chain is the `OR` of its five comparisons, left to right. */
  lemma TextUnits(db: Db, s: string, t: TagRow)
    ensures var lower := TagFilters.CaseInsensitive(s);
      Holds(TagChains(db, TagFilters.EqTagString(s), t))
      == TOr(TOr(TOr(TOr(CompareTri(Some(t.name), lower, false, s), CompareTri(Some(t.name), lower, true, s)),
          CompareTri(t.shorthand, lower, false, s)), CompareTri(t.shorthand, lower, true, s)),
          AliasTri(db, t, lower, s))
  {
    var lower := TagFilters.CaseInsensitive(s);
    HoldsFive(CompareTri(Some(t.name), lower, false, s), CompareTri(Some(t.name), lower, true, s),
      CompareTri(t.shorthand, lower, false, s), CompareTri(t.shorthand, lower, true, s),
      AliasTri(db, t, lower, s));
  }

  lemma HoldsPush(d: seq<seq<Tri>>, c: seq<Tri>)
    ensures Holds(d + [c]) == TOr(Holds(d), AllOf(c))
  {
    assert (d + [c])[..|d|] == d;
  }

  lemma MergeFiveShape<T>(a0: T, a1: T, a2: T, a3: T, a4: T, b0: T, b1: T, b2: T, b3: T, b4: T)
    ensures var x, y := [[a0], [a1], [a2], [a3], [a4]], [[b0], [b1], [b2], [b3], [b4]];
      x[..|x| - 1] + [x[|x| - 1] + y[0]] + y[1..]
      == [] + [[a0]] + [[a1]] + [[a2]] + [[a3]] + [[a4, b0]] + [[b1]] + [[b2]] + [[b3]] + [[b4]]
  {
    var x, y := [[a0], [a1], [a2], [a3], [a4]], [[b0], [b1], [b2], [b3], [b4]];
    assert x[..4] == [[a0], [a1], [a2], [a3]];
    assert y[1..] == [[b1], [b2], [b3], [b4]];
    assert x[|x| - 1] + y[0] == [a4, b0];
    var flat := [[a0], [a1], [a2], [a3], [a4, b0], [b1], [b2], [b3], [b4]];
    assert x[..|x| - 1] + [x[|x| - 1] + y[0]] + y[1..] == flat;
    assert [] + [[a0]] + [[a1]] + [[a2]] + [[a3]] + [[a4, b0]] + [[b1]] + [[b2]] + [[b3]] + [[b4]] == flat;
  }

  /** Two five-unit chains joined by the `(a AND b)` gap. */
  lemma MergeFive(a0: Tri, a1: Tri, a2: Tri, a3: Tri, a4: Tri, b0: Tri, b1: Tri, b2: Tri, b3: Tri, b4: Tri)
    ensures Holds(Merge([[a0], [a1], [a2], [a3], [a4]], [[b0], [b1], [b2], [b3], [b4]]))
      == TOr(TOr(TOr(TOr(TOr(TOr(TOr(TOr(a0, a1), a2), a3), TAnd(a4, b0)), b1), b2), b3), b4)
  {
    MergeFiveShape(a0, a1, a2, a3, a4, b0, b1, b2, b3, b4);
    var d0 := [] + [[a0]];
    var d1 := d0 + [[a1]];
    var d2 := d1 + [[a2]];
    var d3 := d2 + [[a3]];
    var d4 := d3 + [[a4, b0]];
    var d5 := d4 + [[b1]];
    var d6 := d5 + [[b2]];
    var d7 := d6 + [[b3]];
    HoldsSingle(a0);
    HoldsSingle(a1);
    HoldsSingle(a2);
    HoldsSingle(a3);
    HoldsSingle(a4);
    HoldsSingle(b1);
    HoldsSingle(b2);
    HoldsSingle(b3);
    HoldsSingle(b4);
    assert [a4, b0][..1] == [a4];
    assert [] + [[a0]] == [[a0]];
    HoldsPush(d0, [a1]);
    HoldsPush(d1, [a2]);
    HoldsPush(d2, [a3]);
    HoldsPush(d3, [a4, b0]);
    HoldsPush(d4, [b1]);
    HoldsPush(d5, [b2]);
    HoldsPush(d6, [b3]);
    HoldsPush(d7, [b4]);
  }

  /**
   * The grouping of a tag-level `And` of two text matches, as SQL reads its
   * text: only the alias test of the left text and the name test of the
   * right text are conjoined; every other comparison stands alone in the `OR`.
   */
  lemma TextAndReading(db: Db, s1: string, s2: string, t: TagRow)
    ensures var l1, l2 := TagFilters.CaseInsensitive(s1), TagFilters.CaseInsensitive(s2);
      Holds(TagChains(db, TagFilters.And(TagFilters.EqTagString(s1), TagFilters.EqTagString(s2)), t))
      == TOr(TOr(TOr(TOr(TOr(TOr(TOr(TOr(
           CompareTri(Some(t.name), l1, false, s1), CompareTri(Some(t.name), l1, true, s1)),
           CompareTri(t.shorthand, l1, false, s1)), CompareTri(t.shorthand, l1, true, s1)),
           TAnd(AliasTri(db, t, l1, s1), CompareTri(Some(t.name), l2, false, s2))),
           CompareTri(Some(t.name), l2, true, s2)),
           CompareTri(t.shorthand, l2, false, s2)), CompareTri(t.shorthand, l2, true, s2)),
           AliasTri(db, t, l2, s2))
  {
    var l1, l2 := TagFilters.CaseInsensitive(s1), TagFilters.CaseInsensitive(s2);
    var x, y := TagChains(db, TagFilters.EqTagString(s1), t), TagChains(db, TagFilters.EqTagString(s2), t);
    MergeFive(x[0][0], x[1][0], x[2][0], x[3][0], x[4][0], y[0][0], y[1][0], y[2][0], y[3][0], y[4][0]);
    assert x == [[x[0][0]], [x[1][0]], [x[2][0]], [x[3][0]], [x[4][0]]];
    assert y == [[y[0][0]], [y[1][0]], [y[2][0]], [y[3][0]], [y[4][0]]];
    SingleUnit(db, TagFilters.And(TagFilters.EqTagString(s1), TagFilters.EqTagString(s2)), t);
  }

  /** One chain that is not false keeps the whole `OR` from being false. */
  lemma {:induction false} HoldsNotFalse(d: seq<seq<Tri>>, i: nat)
    requires i < |d| && AllOf(d[i]) != False
    ensures Holds(d) != False
    decreases |d|
  {
    if i < |d| - 1 {
      assert d[..|d| - 1][i] == d[i];
      HoldsNotFalse(d[..|d| - 1], i);
    }
  }

  lemma TOrAssoc(a: Tri, b: Tri, c: Tri)
    ensures TOr(TOr(a, b), c) == TOr(a, TOr(b, c))
  {
  }

  lemma {:induction false} HoldsAppend(x: seq<seq<Tri>>, y: seq<seq<Tri>>)
    ensures Holds(x + y) == TOr(Holds(x), Holds(y))
    decreases |y|
  {
    if y == [] {
      assert x + y == x;
    } else {
      var y' := y[..|y| - 1];
      assert (x + y)[..|x + y| - 1] == x + y';
      assert (x + y)[|x + y| - 1] == y[|y| - 1];
      HoldsAppend(x, y');
      TOrAssoc(Holds(x), Holds(y'), AllOf(y[|y| - 1]));
    }
  }

  /**
   * Where every `And` has grouped operands, the SQL reading of the
   * rendered text is the intended meaning, closures included.
   */
  lemma {:induction false} ReadingAgrees(db: Db, q: TagFilters.TagQuery, t: TagRow)
    requires WellGrouped(q)
    ensures Holds(TagChains(db, q, t)) == TagIntended(db, q, t)
    decreases q, 0
  {
    match q
    case EqTagId(_) =>
    case EqAnyTagId(_) =>
    case EqTagString(_) =>
    case EqTagOrChildren(inner) =>
      SelectedAgrees(db, inner);
      SingleUnit(db, q, t);
    case EqTagOrParents(inner) =>
      SelectedAgrees(db, inner);
      SingleUnit(db, q, t);
    case Not(inner) =>
      ReadingAgrees(db, inner, t);
      SingleUnit(db, q, t);
    case And(a, b) =>
      ReadingAgrees(db, a, t);
      ReadingAgrees(db, b, t);
      SingleUnit(db, a, t);
      SingleUnit(db, b, t);
      var xs, ys := TagChains(db, a, t), TagChains(db, b, t);
      var x, y := xs[0][0], ys[0][0];
      var m := Merge(xs, ys);
      assert xs[..0] == [] && ys[1..] == [];
      assert [x] + [y] == [x, y];
      assert m == [[x, y]];
      assert [x, y][..1] == [x];
      assert [x][..0] == [];
      assert m[..0] == [];
      SingleUnit(db, q, t);
    case Or(a, b) =>
      ReadingAgrees(db, a, t);
      ReadingAgrees(db, b, t);
      HoldsAppend(TagChains(db, a, t), TagChains(db, b, t));
      SingleUnit(db, q, t);
  }

  lemma {:induction false} SelectedAgrees(db: Db, q: TagFilters.TagQuery)
    requires WellGrouped(q)
    ensures Selected(db, q) == IntendedSelected(db, q)
    decreases q, 1
  {
    forall t | t in db.tags
      ensures Holds(TagChains(db, q, t)) == TagIntended(db, q, t)
    {
      ReadingAgrees(db, q, t);
    }
  }

  /**
   * With a NULL shorthand, a tag-level `NOT` over a text match is never
   * true: the bare `OR` chain is true or NULL, and `NOT NULL` is NULL.
   */
  lemma NotTextNeverTrue(db: Db, s: string, t: TagRow)
    requires t.shorthand.None?
    ensures Holds(TagChains(db, TagFilters.Not(TagFilters.EqTagString(s)), t)) != True
  {
    var c := TagChains(db, TagFilters.EqTagString(s), t);
    assert c[2] == [Null];
    HoldsSingle(Null);
    HoldsNotFalse(c, 2);
    SingleUnit(db, TagFilters.Not(TagFilters.EqTagString(s)), t);
  }

  /** `EqAnyTagId::new1(id)` selects exactly what `EqTagId(id)` selects: the tag rows with that id. */
  lemma AnyTagIdNew1Selects(db: Db, id: int)
    ensures Selected(db, TagFilters.EqAnyTagIdNew1(id)) == Selected(db, TagFilters.EqTagId(id))
    ensures Selected(db, TagFilters.EqAnyTagIdNew1(id)) == (set t | t in db.tags :: t.id) * {id}
  {
    var ts := set t | t in db.tags :: t.id;
    forall x | x in ts * {id}
      ensures x in Selected(db, TagFilters.EqAnyTagIdNew1(id))
    {
      var t :| t in db.tags && t.id == x;
      HoldsSingle(FromBool(t.id in [id]));
    }
    forall t | t in db.tags
      ensures Holds(TagChains(db, TagFilters.EqAnyTagIdNew1(id), t)) == Holds(TagChains(db, TagFilters.EqTagId(id), t))
      ensures Holds(TagChains(db, TagFilters.EqTagId(id), t)) == FromBool(t.id == id)
    {
      HoldsSingle(FromBool(t.id in [id]));
      HoldsSingle(FromBool(t.id == id));
    }
  }

  /** An entry's folder test: the path with every occurrence of the file name removed. */
  function FolderOf(e: EntryRow): string
  {
    ReplaceAll(e.path, e.filename, "")
  }

  /** The rendered entry condition of `q` for the row `e`. */
  function EntryHolds(db: Db, q: EntryFilters.EntryQuery, e: EntryRow): Tri
  {
    match q
    case EntriesWithTags(tq) =>
      FromBool(exists l, t :: (l in db.links && t in db.tags && l.entryId == e.id && l.tagId == t.id
        && Holds(TagChains(db, tq, t)) == True))
    case EqEntryId(id) => FromBool(e.id == id)
    case EqAnyEntryId(ids) => FromBool(e.id in ids)
    case EqEntryName(name) => FromBool(e.filename == name)
    case EqEntryFolder(folder) => FromBool(FolderOf(e) == folder)
    case EqAbsolutePath(path) =>
      FromBool(exists x, f :: (x in db.entries && f in db.folders && x.id == e.id && f.id == x.folderId
        && (f.path + "/" + x.path == path || f.path + "\\" + x.path == path)))
    case EqEntryField(fieldType, value) =>
      FromBool(exists row :: (row in db.booleanFields + db.datetimeFields + db.textFields
        && row.entryId == e.id && row.typeKey == fieldType && row.value == Some(EntryFilters.FieldBind(value))))
    case Not(inner) => TNot(EntryHolds(db, inner, e))
    case And(a, b) => TAnd(EntryHolds(db, a, e), EntryHolds(db, b, e))
    case Or(a, b) => TOr(EntryHolds(db, a, e), EntryHolds(db, b, e))
  }

  /** `SELECT * FROM `entries` WHERE (cond)`: the ids of the rows where the condition is true. */
  function MatchingEntries(db: Db, q: EntryFilters.EntryQuery): set<int>
  {
    set e | e in db.entries && EntryHolds(db, q, e) == True :: e.id
  }

  /** Every entry condition is two-valued: entry leaves never compare against NULL. */
  lemma {:induction false} EntryTwoValued(db: Db, q: EntryFilters.EntryQuery, e: EntryRow)
    ensures EntryHolds(db, q, e) != Null
  {
    match q
    case Not(inner) => EntryTwoValued(db, inner, e);
    case And(a, b) => EntryTwoValued(db, a, e); EntryTwoValued(db, b, e);
    case Or(a, b) => EntryTwoValued(db, a, e); EntryTwoValued(db, b, e);
    case _ =>
  }

  /** `id` is the primary key of `entries`. */
  predicate UniqueEntryIds(db: Db)
  {
    forall x, y :: x in db.entries && y in db.entries && x.id == y.id ==> x == y
  }

  function EntryIds(db: Db): set<int>
  {
    set e | e in db.entries :: e.id
  }

  /** `EqAnyEntryId::new1(id)` selects exactly what `EqEntryId(id)` selects: the entry rows with that id. */
  lemma AnyEntryIdNew1Matches(db: Db, id: int)
    ensures MatchingEntries(db, EntryFilters.EqAnyEntryIdNew1(id)) == MatchingEntries(db, EntryFilters.EqEntryId(id))
    ensures MatchingEntries(db, EntryFilters.EqAnyEntryIdNew1(id)) == EntryIds(db) * {id}
  {
    forall x | x in EntryIds(db) * {id}
      ensures x in MatchingEntries(db, EntryFilters.EqAnyEntryIdNew1(id))
    {
      var e :| e in db.entries && e.id == x;
      assert EntryHolds(db, EntryFilters.EqAnyEntryIdNew1(id), e) == True;
    }
  }

  /** `(a AND b)` over entries selects the entries both sides select. */
  lemma MatchingAnd(db: Db, a: EntryFilters.EntryQuery, b: EntryFilters.EntryQuery)
    requires UniqueEntryIds(db)
    ensures MatchingEntries(db, EntryFilters.And(a, b)) == MatchingEntries(db, a) * MatchingEntries(db, b)
  {
    var q := EntryFilters.And(a, b);
    forall id | id in MatchingEntries(db, q)
      ensures id in MatchingEntries(db, a) * MatchingEntries(db, b)
    {
      var x :| x in db.entries && EntryHolds(db, q, x) == True && x.id == id;
      assert EntryHolds(db, a, x) == True && EntryHolds(db, b, x) == True;
    }
    forall id | id in MatchingEntries(db, a) * MatchingEntries(db, b)
      ensures id in MatchingEntries(db, q)
    {
      var x :| x in db.entries && EntryHolds(db, a, x) == True && x.id == id;
      var y :| y in db.entries && EntryHolds(db, b, y) == True && y.id == id;
      assert x == y;
      assert EntryHolds(db, q, x) == True;
    }
  }

  /** `(a OR b)` over entries selects the entries either side selects. */
  lemma MatchingOr(db: Db, a: EntryFilters.EntryQuery, b: EntryFilters.EntryQuery)
    ensures MatchingEntries(db, EntryFilters.Or(a, b)) == MatchingEntries(db, a) + MatchingEntries(db, b)
  {
    var q := EntryFilters.Or(a, b);
    forall id | id in MatchingEntries(db, q)
      ensures id in MatchingEntries(db, a) + MatchingEntries(db, b)
    {
      var x :| x in db.entries && EntryHolds(db, q, x) == True && x.id == id;
      assert EntryHolds(db, a, x) == True || EntryHolds(db, b, x) == True;
    }
    forall id | id in MatchingEntries(db, a) + MatchingEntries(db, b)
      ensures id in MatchingEntries(db, q)
    {
      var x :| x in db.entries && (EntryHolds(db, a, x) == True || EntryHolds(db, b, x) == True) && x.id == id;
      assert EntryHolds(db, q, x) == True;
    }
  }

  /** `(NOT (a))` over entries selects every other entry. */
  lemma MatchingNot(db: Db, a: EntryFilters.EntryQuery)
    requires UniqueEntryIds(db)
    ensures MatchingEntries(db, EntryFilters.Not(a)) == EntryIds(db) - MatchingEntries(db, a)
  {
    forall id | id in EntryIds(db) - MatchingEntries(db, a)
      ensures id in MatchingEntries(db, EntryFilters.Not(a))
    {
      var x :| x in db.entries && x.id == id;
      EntryTwoValued(db, a, x);
    }
    forall id | id in MatchingEntries(db, EntryFilters.Not(a))
      ensures id !in MatchingEntries(db, a)
    {
      var x :| x in db.entries && EntryHolds(db, EntryFilters.Not(a), x) == True && x.id == id;
    }
  }
}
