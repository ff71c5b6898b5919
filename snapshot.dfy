/**
 * A finite snapshot of the library tables the queries read, and the
 * recursive `ChildTags` walk those queries run over `tag_parents`.
 */
module Snapshot {
  import opened Wrappers
  import opened Sql

  /** A `tags` row; `shorthand` is a nullable column. */
  datatype TagRow = TagRow(id: int, name: string, shorthand: Option<string>)

  /** A `tag_aliases` row. */
  datatype AliasRow = AliasRow(name: string, tagId: int)

  /** A `tag_parents` row: `parent_id`, `child_id`. */
  datatype Edge = Edge(parent: int, child: int)

  /** A `tag_entries` row. */
  datatype TagLink = TagLink(tagId: int, entryId: int)

  /** An `entries` row: `path` is relative to the folder, `filename` its last component. */
  datatype EntryRow = EntryRow(id: int, folderId: int, path: string, filename: string)

  /** A `folders` row. */
  datatype FolderRow = FolderRow(id: int, path: string)

  /** A row of `boolean_fields`, `datetime_fields` or `text_fields`; `value` may be NULL. */
  datatype FieldRow = FieldRow(typeKey: string, value: Option<Value>, entryId: int)

  datatype Db = Db(
    tags: seq<TagRow>,
    aliases: seq<AliasRow>,
    edges: seq<Edge>,
    links: seq<TagLink>,
    entries: seq<EntryRow>,
    folders: seq<FolderRow>,
    booleanFields: seq<FieldRow>,
    datetimeFields: seq<FieldRow>,
    textFields: seq<FieldRow>)

  /** The `tag_parents` rows read the other way round (child to parent). */
  function Reversed(edges: seq<Edge>): (r: seq<Edge>)
    ensures |r| == |edges|
    ensures forall i :: 0 <= i < |edges| ==> r[i] == Edge(edges[i].child, edges[i].parent)
  {
    seq(|edges|, i requires 0 <= i < |edges| => Edge(edges[i].child, edges[i].parent))
  }

  function Targets(edges: seq<Edge>): set<int>
  {
    set e | e in edges :: e.child
  }

  /** One round of the recursive member: add the child of every edge whose parent is in the set. */
  function Step(edges: seq<Edge>, s: set<int>): set<int>
  {
    s + set e | e in edges && e.parent in s :: e.child
  }

  /** No edge leads out of `s`. */
  ghost predicate Closed(edges: seq<Edge>, s: set<int>)
  {
    forall e :: e in edges && e.parent in s ==> e.child in s
  }

  lemma ProperSubsetSmaller(a: set<int>, b: set<int>, x: int)
    requires a <= b && x in b && x !in a
    ensures |a| < |b|
  {
    assert b == a + (b - a);
    assert x in b - a;
  }

  lemma StepGrows(edges: seq<Edge>, s: set<int>)
    requires !(Step(edges, s) <= s)
    ensures |Targets(edges) - Step(edges, s)| < |Targets(edges) - s|
  {
    var t := Step(edges, s);
    var x :| x in t && x !in s;
    assert x in Targets(edges) - s;
    ProperSubsetSmaller(Targets(edges) - t, Targets(edges) - s, x);
  }

  /**
   * `WITH RECURSIVE ChildTags AS (seed UNION step)`: with `UNION` a row
   * already present is not produced again, so the walk stops when a round
   * adds nothing, cycles included.
   */
  function Closure(edges: seq<Edge>, seed: set<int>): (r: set<int>)
    ensures seed <= r
    ensures Closed(edges, r)
    decreases |Targets(edges) - seed|
  {
    var t := Step(edges, seed);
    if t <= seed then
      seed
    else
      StepGrows(edges, seed);
      Closure(edges, t)
  }

  /** The walk adds nothing that every closed superset of the seed does not already hold. */
  lemma {:induction false} ClosureLeast(edges: seq<Edge>, seed: set<int>, x: set<int>)
    requires seed <= x && Closed(edges, x)
    ensures Closure(edges, seed) <= x
    decreases |Targets(edges) - seed|
  {
    var t := Step(edges, seed);
    if !(t <= seed) {
      StepGrows(edges, seed);
      assert t <= x;
      ClosureLeast(edges, t, x);
    }
  }

  /** Everything the walk adds is the child of some edge. */
  lemma {:induction false} ClosureWithinTargets(edges: seq<Edge>, seed: set<int>)
    ensures Closure(edges, seed) <= seed + Targets(edges)
    decreases |Targets(edges) - seed|
  {
    var t := Step(edges, seed);
    if !(t <= seed) {
      StepGrows(edges, seed);
      ClosureWithinTargets(edges, t);
    }
  }

  /** A two-tag cycle: the walk still ends, with both tags. */
  lemma CyclicClosure()
    ensures Closure([Edge(1, 2), Edge(2, 1)], {1}) == {1, 2}
  {
    var edges := [Edge(1, 2), Edge(2, 1)];
    ClosureLeast(edges, {1}, {1, 2});
    assert Edge(1, 2) in edges;
  }
}
