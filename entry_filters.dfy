/**
 * `EntryFilter`: conditions over the `entries` table, the sum type
 * `EntrySearchQuery`, its leaves and the tag-to-entry bridge
 * `EntriesWithTags`. Same rendering and binding protocol as the tag
 * filters, and the same text conventions.
 */
module EntryFilters {
  import opened Wrappers
  import opened Text
  import opened Sql
  import opened Wrapping
  import opened Combinators
  import TagFilters

  /** `FieldValue`: the typed value a custom field is compared with. */
  datatype FieldValue = Boolean(flag: bool) | Datetime(date: Date) | Text(content: string)

  /**
   * `EntrySearchQuery` with every `EntryFilter` of the query layer as a
   * constructor (the `From` impls name them all). `EqEntryFolder2` has the
   * same text and converts into `EqEntryFolder`, so it is that constructor.
   */
  datatype EntryQuery =
    | EntriesWithTags(tags: TagFilters.TagQuery)
    | EqEntryId(id: int)
    | EqAnyEntryId(ids: seq<int>)
    | EqEntryName(name: string)
    | EqEntryFolder(folder: string)
    | EqAbsolutePath(path: string)
    | EqEntryField(fieldType: string, value: FieldValue)
    | Not(inner: EntryQuery)
    | And(left: EntryQuery, right: EntryQuery)
    | Or(left: EntryQuery, right: EntryQuery)

  const EntryIdTemplate: Cond := [Lit("`entries`.`id` = "), Slot(0)]

  const AnyEntryIdTemplate: Cond := [Lit("`entries`.`id` IN (SELECT value FROM JSON_EACH("), Slot(0), Lit("))")]

  const EntryNameTemplate: Cond := [Lit("`entries`.`filename` = "), Slot(0)]

  /** The folder is the path with every occurrence of the file name removed. */
  const FolderTemplate: Cond := [Lit("replace(`entries`.`path`, `entries`.`filename`, '') =  "), Slot(0)]

  const AbsolutePathHead := "`entries`.`id` in (SELECT `entries`.`id` FROM `entries` INNER JOIN `folders` ON `folders`.id = `entries`.`folder_id` WHERE CONCAT (`folders`.`path`, '/', `entries`.`path`) = "

  const AbsolutePathMiddle := " OR CONCAT (`folders`.`path`, '\\', `entries`.`path`) = "

  /** The UNIX and the Windows concatenation both compare with the one placeholder. */
  const AbsolutePathTemplate: Cond := [Lit(AbsolutePathHead), Slot(0), Lit(AbsolutePathMiddle), Slot(0), Lit(")")]

  /** One of the three field tables: type key on placeholder 0, value on placeholder 1. */
  function FieldTable(table: string): Cond
  {
    [Lit("SELECT `entry_id` FROM `" + table + "` WHERE `type_key` = "), Slot(0), Lit(" AND `value` = "), Slot(1)]
  }

  function FieldTemplate(): Cond
  {
    [Lit("`entries`.`id` IN (")]
    + FieldTable("boolean_fields") + [Lit(" UNION ")]
    + FieldTable("datetime_fields") + [Lit(" UNION ")]
    + FieldTable("text_fields") + [Lit(")")]
  }

  const EntrySelectHead := "SELECT * FROM `entries` WHERE ("

  const BridgeHead := "`entries`.`id` IN (SELECT `tag_entries`.`entry_id` FROM `tags` INNER JOIN `tag_entries` ON `tag_entries`.`tag_id` = `tags`.`id` WHERE ("

  /** `as_entry_select` after the condition has rendered. */
  function EntrySelect<S>(c: Option<seq<Piece<S>>>): Option<seq<Piece<S>>>
  {
    WrapOpt(EntrySelectHead, c, ")")
  }

  /** `EntriesWithTags` after the tag condition has rendered. */
  function BridgeCond<S>(c: Option<seq<Piece<S>>>): Option<seq<Piece<S>>>
  {
    WrapOpt(BridgeHead, c, "))")
  }

  /** The value `EqEntryField::bind` appends for the field value, typed by its variant. */
  function FieldBind(v: FieldValue): Value
  {
    match v
    case Boolean(b) => BoolValue(b)
    case Datetime(d) => DateValue(d)
    case Text(t) => StrValue(t)
  }

  /** The values `bind` appends, in order. */
  function EntryBinds(q: EntryQuery): seq<Value>
  {
    match q
    case EntriesWithTags(t) => TagFilters.TagBinds(t)
    case EqEntryId(id) => [IntValue(id)]
    case EqAnyEntryId(ids) => [JsonIds(ids)]
    case EqEntryName(name) => [StrValue(name)]
    case EqEntryFolder(folder) => [StrValue(folder)]
    case EqAbsolutePath(path) => [StrValue(path)]
    case EqEntryField(fieldType, value) => [StrValue(fieldType), FieldBind(value)]
    case Not(inner) => EntryBinds(inner)
    case And(a, b) => EntryBinds(a) + EntryBinds(b)
    case Or(a, b) => EntryBinds(a) + EntryBinds(b)
  }

  /** `get_where_condition` with the counter at `n` on entry: the condition and the counter on exit. */
  function RenderEntry(q: EntryQuery, n: nat): Rendered
  {
    match q
    case EntriesWithTags(t) =>
      var rt := TagFilters.RenderTag(t, n);
      Rendered(BridgeCond(rt.cond), rt.next)
    case EqEntryId(_) => Rendered(Some(Shift(EntryIdTemplate, n)), n + 1)
    case EqAnyEntryId(_) => Rendered(Some(Shift(AnyEntryIdTemplate, n)), n + 1)
    case EqEntryName(_) => Rendered(Some(Shift(EntryNameTemplate, n)), n + 1)
    case EqEntryFolder(_) => Rendered(Some(Shift(FolderTemplate, n)), n + 1)
    case EqAbsolutePath(_) => Rendered(Some(Shift(AbsolutePathTemplate, n)), n + 1)
    case EqEntryField(_, _) => Rendered(Some(Shift(FieldTemplate(), n)), n + 2)
    case Not(inner) =>
      var ri := RenderEntry(inner, n);
      Rendered(NotCond(ri.cond), ri.next)
    case And(a, b) =>
      var ra := RenderEntry(a, n);
      var rb := RenderEntry(b, ra.next);
      Rendered(AndCond(ra.cond, rb.cond), rb.next)
    case Or(a, b) =>
      var ra := RenderEntry(a, n);
      var rb := RenderEntry(b, ra.next);
      Rendered(OrCond(ra.cond, rb.cond), rb.next)
  }

  /** The counter moves by exactly the number of values `bind` appends. */
  lemma {:induction false} EntryCounter(q: EntryQuery, n: nat)
    ensures RenderEntry(q, n).next == n + |EntryBinds(q)|
  {
    match q
    case EntriesWithTags(t) => TagFilters.TagCounter(t, n);
    case Not(inner) => EntryCounter(inner, n);
    case And(a, b) =>
      EntryCounter(a, n);
      EntryCounter(b, RenderEntry(a, n).next);
    case Or(a, b) =>
      EntryCounter(a, n);
      EntryCounter(b, RenderEntry(a, n).next);
    case _ =>
  }

  /** The reference meaning: the SQL with the tree's own values in place of the placeholders. */
  function InlineEntry(q: EntryQuery): Option<seq<Piece<Value>>>
  {
    match q
    case EntriesWithTags(t) => BridgeCond(TagFilters.InlineTag(t))
    case EqEntryId(id) => Some(Resolve(EntryIdTemplate, EntryBinds(q), 0))
    case EqAnyEntryId(ids) => Some(Resolve(AnyEntryIdTemplate, EntryBinds(q), 0))
    case EqEntryName(name) => Some(Resolve(EntryNameTemplate, EntryBinds(q), 0))
    case EqEntryFolder(folder) => Some(Resolve(FolderTemplate, EntryBinds(q), 0))
    case EqAbsolutePath(path) => Some(Resolve(AbsolutePathTemplate, EntryBinds(q), 0))
    case EqEntryField(_, _) => Some(Resolve(FieldTemplate(), EntryBinds(q), 0))
    case Not(inner) => NotCond(InlineEntry(inner))
    case And(a, b) => AndCond(InlineEntry(a), InlineEntry(b))
    case Or(a, b) => OrCond(InlineEntry(a), InlineEntry(b))
  }

  lemma EntryTemplatesSlots()
    ensures SlotsIn(EntryIdTemplate, 0, 1)
    ensures SlotsIn(AnyEntryIdTemplate, 0, 1)
    ensures SlotsIn(EntryNameTemplate, 0, 1)
    ensures SlotsIn(FolderTemplate, 0, 1)
    ensures SlotsIn(AbsolutePathTemplate, 0, 1)
    ensures SlotsIn(FieldTemplate(), 0, 2)
  {
  }

  /**
   * The alignment theorem for entry filters: rendering from `n` refers
   * only to `$n` up to the counter on exit, and binding the tree's values
   * from position `n` gives the tree's reference meaning.
   */
  lemma {:induction false} EntryAlignment(q: EntryQuery, n: nat)
    ensures OptSlotsIn(RenderEntry(q, n).cond, n, n + |EntryBinds(q)|)
    ensures ResolveOpt(RenderEntry(q, n).cond, EntryBinds(q), n) == InlineEntry(q)
    decreases q, 1
  {
    match q
    case EntriesWithTags(t) =>
      TagFilters.TagAlignment(t, n);
      WrapOptResolve(BridgeHead, TagFilters.RenderTag(t, n).cond, "))", EntryBinds(q), n);
    case Not(inner) =>
      EntryAlignment(inner, n);
      WrapOptResolve("(NOT (", RenderEntry(inner, n).cond, "))", EntryBinds(inner), n);
    case And(_, _) => JunctionAlignment(q, n);
    case Or(_, _) => JunctionAlignment(q, n);
    case _ => LeafAlignment(q, n);
  }

  /** The alignment theorem for `(a AND b)` and `(a OR b)`: the right operand starts where the left one stopped. */
  lemma {:induction false} JunctionAlignment(q: EntryQuery, n: nat)
    requires q.And? || q.Or?
    ensures OptSlotsIn(RenderEntry(q, n).cond, n, n + |EntryBinds(q)|)
    ensures ResolveOpt(RenderEntry(q, n).cond, EntryBinds(q), n) == InlineEntry(q)
    decreases q, 0
  {
    var ra := RenderEntry(q.left, n);
    var rb := RenderEntry(q.right, ra.next);
    var ba, bb := EntryBinds(q.left), EntryBinds(q.right);
    EntryCounter(q.left, n);
    EntryAlignment(q.left, n);
    EntryAlignment(q.right, ra.next);
    assert EntryBinds(q) == ba + bb;
    var op := if q.And? then " AND " else " OR ";
    assert RenderEntry(q, n).cond == Junction(op, ra.cond, rb.cond);
    assert InlineEntry(q) == Junction(op, InlineEntry(q.left), InlineEntry(q.right));
    JunctionResolve(op, ra.cond, rb.cond, ba, bb, n);
  }

  /** The alignment theorem for the leaves: each template shifted to `n` and bound from `n`. */
  lemma LeafAlignment(q: EntryQuery, n: nat)
    requires !q.EntriesWithTags? && !q.Not? && !q.And? && !q.Or?
    ensures OptSlotsIn(RenderEntry(q, n).cond, n, n + |EntryBinds(q)|)
    ensures ResolveOpt(RenderEntry(q, n).cond, EntryBinds(q), n) == InlineEntry(q)
  {
    EntryTemplatesSlots();
    match q
    case EqEntryId(_) => ShiftResolve(EntryIdTemplate, EntryBinds(q), n);
    case EqAnyEntryId(_) => ShiftResolve(AnyEntryIdTemplate, EntryBinds(q), n);
    case EqEntryName(_) => ShiftResolve(EntryNameTemplate, EntryBinds(q), n);
    case EqEntryFolder(_) => ShiftResolve(FolderTemplate, EntryBinds(q), n);
    case EqAbsolutePath(_) => ShiftResolve(AbsolutePathTemplate, EntryBinds(q), n);
    case EqEntryField(_, _) => ShiftResolve(FieldTemplate(), EntryBinds(q), n);
  }

  /** No entry tree renders to "no condition". */
  lemma {:induction false} EntryAlwaysSome(q: EntryQuery, n: nat)
    ensures RenderEntry(q, n).cond.Some?
  {
    match q
    case EntriesWithTags(t) => TagFilters.TagAlwaysSome(t, n);
    case EqEntryId(_) =>
    case EqAnyEntryId(_) =>
    case EqEntryName(_) =>
    case EqEntryFolder(_) =>
    case EqAbsolutePath(_) =>
    case EqEntryField(_, _) =>
    case Not(inner) => EntryAlwaysSome(inner, n);
    case And(a, b) => EntryAlwaysSome(a, n);
    case Or(a, b) => EntryAlwaysSome(a, n);
  }

  /** `EqEntryId` renders exactly `` `entries`.`id` = $n `` and binds the id. */
  lemma EntryIdText(id: int, n: nat)
    ensures RenderEntry(EqEntryId(id), n).cond.Some?
    ensures Flatten(RenderEntry(EqEntryId(id), n).cond.value) == "`entries`.`id` = " + "$" + Decimal(n)
    ensures EntryBinds(EqEntryId(id)) == [IntValue(id)]
  {
    HeadSlotText("`entries`.`id` = ", n);
  }

  /** `EqAnyEntryId` puts the whole id list behind the one placeholder `$n`. */
  lemma AnyEntryIdText(ids: seq<int>, n: nat)
    ensures RenderEntry(EqAnyEntryId(ids), n).cond.Some?
    ensures Flatten(RenderEntry(EqAnyEntryId(ids), n).cond.value)
         == "`entries`.`id` IN (SELECT value FROM JSON_EACH(" + "$" + Decimal(n) + "))"
    ensures EntryBinds(EqAnyEntryId(ids)) == [JsonIds(ids)]
  {
    HeadSlotTailText("`entries`.`id` IN (SELECT value FROM JSON_EACH(", "))", n);
  }

  /** `EqEntryName` renders exactly `` `entries`.`filename` = $n `` and binds the name. */
  lemma EntryNameText(name: string, n: nat)
    ensures RenderEntry(EqEntryName(name), n).cond.Some?
    ensures Flatten(RenderEntry(EqEntryName(name), n).cond.value) == "`entries`.`filename` = " + "$" + Decimal(n)
    ensures EntryBinds(EqEntryName(name)) == [StrValue(name)]
  {
    HeadSlotText("`entries`.`filename` = ", n);
  }

  /** `EqEntryFolder` (and `EqEntryFolder2`) compare the path stripped of the file name with `$n`. */
  lemma FolderText(folder: string, n: nat)
    ensures RenderEntry(EqEntryFolder(folder), n).cond.Some?
    ensures Flatten(RenderEntry(EqEntryFolder(folder), n).cond.value)
         == "replace(`entries`.`path`, `entries`.`filename`, '') =  " + "$" + Decimal(n)
    ensures EntryBinds(EqEntryFolder(folder)) == [StrValue(folder)]
  {
    HeadSlotText("replace(`entries`.`path`, `entries`.`filename`, '') =  ", n);
  }

  /** `EqAbsolutePath`: the UNIX and the Windows comparison both read `$n`; one value is bound. */
  lemma AbsolutePathText(path: string, n: nat)
    ensures RenderEntry(EqAbsolutePath(path), n).cond.Some?
    ensures Flatten(RenderEntry(EqAbsolutePath(path), n).cond.value)
         == AbsolutePathHead + "$" + Decimal(n) + AbsolutePathMiddle + "$" + Decimal(n) + ")"
    ensures EntryBinds(EqAbsolutePath(path)) == [StrValue(path)]
  {
    TwiceSlotText(AbsolutePathHead, AbsolutePathMiddle, ")", n);
  }

  /** One field table's select with the type key on `$t` and the value on `$v`. */
  function FieldSelectText(table: string, t: nat, v: nat): string
  {
    "SELECT `entry_id` FROM `" + table + "` WHERE `type_key` = $" + Decimal(t) + " AND `value` = $" + Decimal(v)
  }

  lemma FieldTableText(table: string, n: nat)
    ensures Flatten(Shift(FieldTable(table), n)) == FieldSelectText(table, n, n + 1)
  {
    var h := "SELECT `entry_id` FROM `" + table + "` WHERE `type_key` = ";
    assert FieldTable(table) == [Lit(h), Slot(0), Lit(" AND `value` = ")] + [Slot(1)];
    FlattenShiftAppend([Lit(h), Slot(0), Lit(" AND `value` = ")], [Slot(1)], n);
    HeadSlotTailText(h, " AND `value` = ", n);
    FlattenShiftSingle(Slot(1), n);
  }

  /**
   * `EqEntryField`: the type key is `$n` and the value `$n+1` in all three
   * UNIONed field tables; the counter moves by 2 and the type key is bound
   * before the value.
   */
  lemma FieldText(fieldType: string, value: FieldValue, n: nat)
    ensures RenderEntry(EqEntryField(fieldType, value), n).cond.Some?
    ensures RenderEntry(EqEntryField(fieldType, value), n).next == n + 2
    ensures Flatten(RenderEntry(EqEntryField(fieldType, value), n).cond.value)
         == "`entries`.`id` IN (" + FieldSelectText("boolean_fields", n, n + 1)
            + " UNION " + FieldSelectText("datetime_fields", n, n + 1)
            + " UNION " + FieldSelectText("text_fields", n, n + 1) + ")"
    ensures EntryBinds(EqEntryField(fieldType, value)) == [StrValue(fieldType), FieldBind(value)]
  {
    var u: Cond := [Lit(" UNION ")];
    var head: Cond := [Lit("`entries`.`id` IN (")];
    var tail: Cond := [Lit(")")];
    FlattenShiftSeven(head, FieldTable("boolean_fields"), u, FieldTable("datetime_fields"), u, FieldTable("text_fields"), tail, n);
    FlattenShiftSingle(Lit("`entries`.`id` IN ("), n);
    FlattenShiftSingle(Lit(" UNION "), n);
    FlattenShiftSingle(Lit(")"), n);
    FieldTableText("boolean_fields", n);
    FieldTableText("datetime_fields", n);
    FieldTableText("text_fields", n);
  }

  /**
   * `EntriesWithTags` embeds the tag condition verbatim as the `WHERE` of a
   * join of `tags` with `tag_entries`, adds no placeholder and binds what
   * the tag filter binds.
   */
  lemma BridgeText(t: TagFilters.TagQuery, n: nat)
    ensures RenderEntry(EntriesWithTags(t), n).cond.Some? <==> TagFilters.RenderTag(t, n).cond.Some?
    ensures TagFilters.RenderTag(t, n).cond.Some? ==>
      Flatten(RenderEntry(EntriesWithTags(t), n).cond.value)
      == BridgeHead + Flatten(TagFilters.RenderTag(t, n).cond.value) + "))"
    ensures RenderEntry(EntriesWithTags(t), n).next == TagFilters.RenderTag(t, n).next
    ensures EntryBinds(EntriesWithTags(t)) == TagFilters.TagBinds(t)
  {
    if TagFilters.RenderTag(t, n).cond.Some? {
      WrapOptText(BridgeHead, TagFilters.RenderTag(t, n).cond.value, "))");
    }
  }

  /**
   * `as_entry_select`: none exactly when the condition is none, otherwise
   * the condition wrapped in `SELECT * FROM `entries` WHERE (…)`.
   */
  lemma EntrySelectText(q: EntryQuery, n: nat)
    ensures EntrySelect(RenderEntry(q, n).cond).None? <==> RenderEntry(q, n).cond.None?
    ensures RenderEntry(q, n).cond.Some? ==>
      Flatten(EntrySelect(RenderEntry(q, n).cond).value) == "SELECT * FROM `entries` WHERE (" + Flatten(RenderEntry(q, n).cond.value) + ")"
  {
    if RenderEntry(q, n).cond.Some? {
      WrapOptText(EntrySelectHead, RenderEntry(q, n).cond.value, ")");
    }
  }

  /** `EntryFilter::get_where_condition` on the shared `&mut u64` counter. */
  method GetWhereCondition(q: EntryQuery, bindId: Counter) returns (r: Option<Cond>)
    modifies bindId
    ensures r == RenderEntry(q, old(bindId.value)).cond
    ensures bindId.value == RenderEntry(q, old(bindId.value)).next
    decreases q
  {
    match q
    case EntriesWithTags(t) =>
      var c := TagFilters.GetWhereCondition(t, bindId);
      r := BridgeCond(c);
    case EqEntryId(_) =>
      var id := bindId.value;
      bindId.AddAssign(1);
      r := Some(Shift(EntryIdTemplate, id));
    case EqAnyEntryId(_) =>
      var id := bindId.value;
      bindId.AddAssign(1);
      r := Some(Shift(AnyEntryIdTemplate, id));
    case EqEntryName(_) =>
      var id := bindId.value;
      bindId.AddAssign(1);
      r := Some(Shift(EntryNameTemplate, id));
    case EqEntryFolder(_) =>
      var id := bindId.value;
      bindId.AddAssign(1);
      r := Some(Shift(FolderTemplate, id));
    case EqAbsolutePath(_) =>
      var id := bindId.value;
      bindId.AddAssign(1);
      r := Some(Shift(AbsolutePathTemplate, id));
    case EqEntryField(_, _) =>
      var typeId := bindId.value;
      bindId.AddAssign(1);
      var valueId := bindId.value;
      bindId.AddAssign(1);
      assert valueId == typeId + 1;
      r := Some(Shift(FieldTemplate(), typeId));
    case Not(inner) =>
      var c := GetWhereCondition(inner, bindId);
      r := NotCond(c);
    case And(a, b) =>
      var qa := GetWhereCondition(a, bindId);
      var qb := GetWhereCondition(b, bindId);
      r := AndCond(qa, qb);
    case Or(a, b) =>
      var qa := GetWhereCondition(a, bindId);
      var qb := GetWhereCondition(b, bindId);
      r := OrCond(qa, qb);
  }

  /** `EntryFilter::as_entry_select` on the shared counter. */
  method AsEntrySelect(q: EntryQuery, bindId: Counter) returns (r: Option<Cond>)
    modifies bindId
    ensures r == EntrySelect(RenderEntry(q, old(bindId.value)).cond)
    ensures bindId.value == RenderEntry(q, old(bindId.value)).next
  {
    var wher := GetWhereCondition(q, bindId);
    r := EntrySelect(wher);
  }

  const AllEntries := "SELECT * FROM `entries`"

  /** The statement sent for a tree when the reference meaning is known. */
  function InlineEntryStatement(q: EntryQuery): seq<Piece<Value>>
  {
    match EntrySelect(InlineEntry(q))
    case Some(sel) => sel
    case None => [Lit(AllEntries)]
  }

  /**
   * The statement and values `EntryFilter::fetch_all` and `fetch_optional`
   * hand to the database: rendered from a fresh counter at 1 with the
   * unfiltered select as fallback, then bound from the same tree. The
   * placeholders are `$1` to `$k` for `k` values, and binding them gives
   * the tree's reference meaning.
   */
  method FetchStatement(q: EntryQuery) returns (stmt: Cond, binds: seq<Value>)
    ensures binds == EntryBinds(q)
    ensures SlotsIn(stmt, 1, 1 + |binds|)
    ensures Resolve(stmt, binds, 1) == InlineEntryStatement(q)
    ensures RenderEntry(q, 1).cond.None? ==> Flatten(stmt) == AllEntries
    ensures RenderEntry(q, 1).cond.Some? ==>
      Flatten(stmt) == "SELECT * FROM `entries` WHERE (" + Flatten(RenderEntry(q, 1).cond.value) + ")"
  {
    var counter := new Counter(1);
    var sel := AsEntrySelect(q, counter);
    EntryAlignment(q, 1);
    EntryCounter(q, 1);
    EntrySelectText(q, 1);
    WrapOptResolve(EntrySelectHead, RenderEntry(q, 1).cond, ")", EntryBinds(q), 1);
    binds := EntryBinds(q);
    match sel
    case Some(s) =>
      stmt := s;
    case None =>
      stmt := [Lit(AllEntries)];
      FlattenSingle(Lit(AllEntries));
  }

  /** `into_entry_filter` / `into_entry_search_query`: entries carrying a matching tag. */
  function IntoEntryFilter(t: TagFilters.TagQuery): (r: EntryQuery)
    ensures EntryBinds(r) == TagFilters.TagBinds(t)
    ensures r.EntriesWithTags? && r.tags == t
  {
    EntriesWithTags(t)
  }

  /** `EqAnyEntryId::new1`: the id list holding just `id`, behind one placeholder. */
  function EqAnyEntryIdNew1(id: int): (r: EntryQuery)
    ensures EntryBinds(r) == [JsonIds([id])]
    ensures forall n: nat {:trigger RenderEntry(r, n)} :: RenderEntry(r, n).next == n + 1
  {
    EqAnyEntryId([id])
  }

  /** `EqEntryFolder2` converts into the `EqEntryFolder` variant. */
  function EqEntryFolder2(folder: string): (r: EntryQuery)
    ensures EntryBinds(r) == [StrValue(folder)]
    ensures r.EqEntryFolder? && r.folder == folder
  {
    EqEntryFolder(folder)
  }

  /** `EntrySearchQuery::and`: operands kept in order, left values bound first. */
  function AndOf(a: EntryQuery, b: EntryQuery): (r: EntryQuery)
    ensures EntryBinds(r) == EntryBinds(a) + EntryBinds(b)
    ensures r.And? && r.left == a && r.right == b
  {
    And(a, b)
  }

  /** `EntrySearchQuery::or`: operands kept in order, left values bound first. */
  function OrOf(a: EntryQuery, b: EntryQuery): (r: EntryQuery)
    ensures EntryBinds(r) == EntryBinds(a) + EntryBinds(b)
    ensures r.Or? && r.left == a && r.right == b
  {
    Or(a, b)
  }

  /** `EntrySearchQuery::not`: the same values, the condition negated once. */
  function NotOf(a: EntryQuery): (r: EntryQuery)
    ensures EntryBinds(r) == EntryBinds(a)
    ensures r.Not? && r.inner == a
  {
    Not(a)
  }
}
