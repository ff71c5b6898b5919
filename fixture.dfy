/**
 * The test library of `src/tests/fixtures/test_data.rs` as a snapshot, and
 * what the query layer's own examples select from it.
 */
module Fixture {
  import opened Wrappers
  import opened Text
  import opened Sql
  import opened Snapshot
  import opened Meaning
  import TagFilters
  import EntryFilters

  const Entries: seq<EntryRow> := [
    EntryRow(0, 0, "maxwell.png", "maxwell.png"),
    EntryRow(1, 0, "doge.png", "doge.png"),
    EntryRow(2, 0, "doge_and_maxwell.png", "doge_and_maxwell.png"),
    EntryRow(3, 0, "OIIA.png", "OIIA.png"),
    EntryRow(4, 0, "somwhere/far/away.png", "away.png")]

  const Tags: seq<TagRow> := [
    TagRow(1000, "Cat", None),
    TagRow(1001, "Maxwell", None),
    TagRow(1002, "Meme", None),
    TagRow(1003, "Doge", None),
    TagRow(1004, "Dog", None),
    TagRow(1005, "OIIA", None)]

  const Edges: seq<Edge> := [
    Edge(1000, 1001), Edge(1002, 1001), Edge(1002, 1003),
    Edge(1004, 1003), Edge(1002, 1005), Edge(1000, 1005)]

  const Links: seq<TagLink> := [
    TagLink(1001, 0), TagLink(1003, 1), TagLink(1003, 2), TagLink(1001, 2), TagLink(1005, 3)]

  const TestLibrary: Db := Db(
    Tags, [], Edges, Links, Entries,
    [FolderRow(0, "/tmp/")],
    [], [],
    [FieldRow("DESCRIPTION", Some(StrValue("A very dingus cat")), 0)])

  /**
   * Reading a result set row by row: the matching ids are `s` when every
   * row is in `s` exactly when its condition is true.
   */
  lemma MatchingByRows(db: Db, q: EntryFilters.EntryQuery, s: set<int>)
    requires forall e :: e in db.entries ==> (EntryHolds(db, q, e) == True <==> e.id in s)
    requires forall id :: id in s ==> exists e :: e in db.entries && e.id == id
    ensures MatchingEntries(db, q) == s
  {
    forall id | id in s ensures id in MatchingEntries(db, q) {
      var e :| e in db.entries && e.id == id;
    }
  }

  lemma SelectedByRows(db: Db, q: TagFilters.TagQuery, s: set<int>)
    requires forall t :: t in db.tags ==> (Holds(TagChains(db, q, t)) == True <==> t.id in s)
    requires forall id :: id in s ==> exists t :: t in db.tags && t.id == id
    ensures Selected(db, q) == s
  {
    forall id | id in s ensures id in Selected(db, q) {
      var t :| t in db.tags && t.id == id;
    }
  }

  /** An entry stored directly in its folder (path = file name) has the empty folder. */
  lemma FolderOfTopLevel(e: EntryRow)
    requires e.path == e.filename && e.filename != []
    ensures FolderOf(e) == ""
  {
    assert IsPrefix(e.filename, e.path);
    assert e.path[|e.filename|..] == [];
    assert ReplaceAll(e.path, e.filename, "") == "" + ReplaceAll([], e.filename, "");
  }

  /** Entry ids are the positions of the rows. */
  lemma EntryRowsById()
    ensures forall e :: e in Entries ==> 0 <= e.id < 5 && Entries[e.id] == e
  {
    forall e | e in Entries ensures 0 <= e.id < 5 && Entries[e.id] == e {
      var i :| 0 <= i < 5 && Entries[i] == e;
      assert Entries[0].id == 0 && Entries[1].id == 1 && Entries[2].id == 2;
      assert Entries[3].id == 3 && Entries[4].id == 4;
    }
  }

  /** `EqEntryId(2)` selects entry 2. */
  lemma EntryIdExample()
    ensures MatchingEntries(TestLibrary, EntryFilters.EqEntryId(2)) == {2}
  {
    assert Entries[2] in TestLibrary.entries;
    MatchingByRows(TestLibrary, EntryFilters.EqEntryId(2), {2});
  }

  /** `EqAnyEntryId([2, 4])` selects entries 2 and 4. */
  lemma AnyEntryIdExample()
    ensures MatchingEntries(TestLibrary, EntryFilters.EqAnyEntryId([2, 4])) == {2, 4}
  {
    var q := EntryFilters.EqAnyEntryId([2, 4]);
    forall e | e in TestLibrary.entries ensures EntryHolds(TestLibrary, q, e) == True <==> e.id in {2, 4} {
      assert e.id in [2, 4] <==> e.id == 2 || e.id == 4;
    }
    assert Entries[2] in TestLibrary.entries && Entries[4] in TestLibrary.entries;
    MatchingByRows(TestLibrary, q, {2, 4});
  }

  /** `EqEntryName("maxwell.png")` selects entry 0, the row with that file name. */
  lemma EntryNameExample()
    ensures MatchingEntries(TestLibrary, EntryFilters.EqEntryName("maxwell.png")) == {0}
  {
    MatchingByRows(TestLibrary, EntryFilters.EqEntryName("maxwell.png"), {0});
  }

  /** The folder of entry 4 is its path without the file name. */
  lemma FolderOfNested()
    ensures FolderOf(Entries[4]) == "somwhere/far/"
  {
    var folder, pat := "somwhere/far/", "away.png";
    assert folder + pat == Entries[4].path;
    forall i | 0 <= i < |folder| ensures !IsPrefix(pat, (folder + pat)[i..]) {
      assert (folder + pat)[i..][0] == folder[i];
      if i == 10 {
        assert (folder + pat)[i..][1] == 'r';
      }
    }
    ReplaceAllStripsSuffix(folder, pat);
  }

  lemma FolderFacts()
    ensures forall i :: 0 <= i < 4 ==> FolderOf(Entries[i]) == ""
    ensures FolderOf(Entries[4]) == "somwhere/far/"
  {
    forall i | 0 <= i < 4 ensures FolderOf(Entries[i]) == "" {
      FolderOfTopLevel(Entries[i]);
    }
    FolderOfNested();
  }

  /** `EqEntryFolder("somwhere/far/")` selects entry 4 only. */
  lemma FolderExample()
    ensures MatchingEntries(TestLibrary, EntryFilters.EqEntryFolder("somwhere/far/")) == {4}
  {
    FolderFacts();
    var q := EntryFilters.EqEntryFolder("somwhere/far/");
    assert forall i :: 0 <= i < 5 ==> EntryHolds(TestLibrary, q, Entries[i]) == FromBool(i == 4);
    MatchingByRows(TestLibrary, EntryFilters.EqEntryFolder("somwhere/far/"), {4});
  }

  /** With one folder `f` and one row `x` for the entry's id, the absolute-path test compares the two joins of `x`. */
  lemma JoinRow(db: Db, path: string, e: EntryRow, x: EntryRow, f: FolderRow)
    requires db.folders == [f] && f.id == x.folderId
    requires x in db.entries && x.id == e.id
    requires forall y :: y in db.entries && y.id == e.id ==> y == x
    ensures EntryHolds(db, EntryFilters.EqAbsolutePath(path), e)
      == FromBool(f.path + "/" + x.path == path || f.path + "\\" + x.path == path)
  {
    assert f in db.folders;
  }

  /** Over the test library's one folder, an absolute-path test of an entry compares the two joins of its own row. */
  lemma AbsoluteRow(path: string, e: EntryRow)
    requires e in Entries
    ensures EntryHolds(TestLibrary, EntryFilters.EqAbsolutePath(path), e)
      == FromBool("/tmp/" + "/" + Entries[e.id].path == path || "/tmp/" + "\\" + Entries[e.id].path == path)
  {
    EntryRowsById();
    var f := FolderRow(0, "/tmp/");
    JoinRow(TestLibrary, path, e, Entries[e.id], f);
  }

  /** No row joins to the single-slash spelling, whichever separator is used. */
  lemma SingleSlashJoins()
    ensures forall i :: 0 <= i < 5 ==> "/tmp/" + "/" + Entries[i].path != "/tmp/somwhere/far/away.png"
    ensures forall i :: 0 <= i < 5 ==> "/tmp/" + "\\" + Entries[i].path != "/tmp/somwhere/far/away.png"
  {
    forall i | 0 <= i < 5
      ensures "/tmp/" + "/" + Entries[i].path != "/tmp/somwhere/far/away.png"
      ensures "/tmp/" + "\\" + Entries[i].path != "/tmp/somwhere/far/away.png"
    {
      assert ("/tmp/" + "/" + Entries[i].path)[5] == '/';
      assert ("/tmp/" + "\\" + Entries[i].path)[5] == '\\';
    }
  }

  /**
   * The test library's folder path ends in `'/'`, so the `'/'` join writes
   * it twice: the single-slash path of entry 4 matches nothing.
   */
  lemma AbsolutePathSingleSlash()
    ensures MatchingEntries(TestLibrary, EntryFilters.EqAbsolutePath("/tmp/somwhere/far/away.png")) == {}
  {
    var path := "/tmp/somwhere/far/away.png";
    var q := EntryFilters.EqAbsolutePath(path);
    SingleSlashJoins();
    EntryRowsById();
    forall e | e in TestLibrary.entries ensures EntryHolds(TestLibrary, q, e) != True {
      AbsoluteRow(path, e);
    }
    MatchingByRows(TestLibrary, q, {});
  }

  /** Only entry 4's path has the length the doubled-slash spelling needs. */
  lemma ShortJoins()
    ensures forall i :: 0 <= i < 4 ==> "/tmp/" + "/" + Entries[i].path != "/tmp//somwhere/far/away.png"
  {
    var path := "/tmp//somwhere/far/away.png";
    assert |path| == 27;
    forall i | 0 <= i < 4 ensures "/tmp/" + "/" + Entries[i].path != path {
      assert |Entries[i].path| != 21;
    }
  }

  /** A `'\\'` join puts a backslash where the doubled-slash spelling has `'/'`. */
  lemma BackslashJoins()
    ensures forall i :: 0 <= i < 5 ==> "/tmp/" + "\\" + Entries[i].path != "/tmp//somwhere/far/away.png"
  {
    forall i | 0 <= i < 5 ensures "/tmp/" + "\\" + Entries[i].path != "/tmp//somwhere/far/away.png" {
      assert ("/tmp/" + "\\" + Entries[i].path)[5] == '\\';
    }
  }

  /** The `'/'` join of entry 4 is the doubled-slash spelling. */
  lemma Entry4Join()
    ensures "/tmp/" + "/" + Entries[4].path == "/tmp//somwhere/far/away.png"
  {
    var p := Entries[4].path;
    assert p == "somwhere/far/away.png";
    assert "/tmp/" + "/" == "/tmp//";
  }

  lemma DoubledSlashJoins()
    ensures forall i :: 0 <= i < 4 ==> "/tmp/" + "/" + Entries[i].path != "/tmp//somwhere/far/away.png"
    ensures forall i :: 0 <= i < 5 ==> "/tmp/" + "\\" + Entries[i].path != "/tmp//somwhere/far/away.png"
    ensures "/tmp/" + "/" + Entries[4].path == "/tmp//somwhere/far/away.png"
  {
    ShortJoins();
    BackslashJoins();
    Entry4Join();
  }

  /** The doubled-slash spelling is the one that selects entry 4. */
  lemma AbsolutePathDoubledSlash()
    ensures MatchingEntries(TestLibrary, EntryFilters.EqAbsolutePath("/tmp//somwhere/far/away.png")) == {4}
  {
    var path := "/tmp//somwhere/far/away.png";
    var q := EntryFilters.EqAbsolutePath(path);
    DoubledSlashJoins();
    EntryRowsById();
    forall e | e in TestLibrary.entries ensures EntryHolds(TestLibrary, q, e) == True <==> e.id in {4} {
      AbsoluteRow(path, e);
    }
    assert Entries[4] in TestLibrary.entries;
    MatchingByRows(TestLibrary, q, {4});
  }

  /** The `DESCRIPTION` text field row belongs to entry 0. */
  lemma FieldExample()
    ensures MatchingEntries(TestLibrary,
      EntryFilters.EqEntryField("DESCRIPTION", EntryFilters.Text("A very dingus cat"))) == {0}
  {
    var q := EntryFilters.EqEntryField("DESCRIPTION", EntryFilters.Text("A very dingus cat"));
    var row := FieldRow("DESCRIPTION", Some(StrValue("A very dingus cat")), 0);
    var rows := TestLibrary.booleanFields + TestLibrary.datetimeFields + TestLibrary.textFields;
    assert rows == [row];
    forall e | e in TestLibrary.entries ensures EntryHolds(TestLibrary, q, e) == True <==> e.id in {0} {
      if e.id == 0 {
        assert row in rows;
      }
    }
    assert Entries[0] in TestLibrary.entries;
    MatchingByRows(TestLibrary, q, {0});
  }

  lemma SingleUnits()
    ensures forall x: Tri :: Holds([[x]]) == x
  {
    forall x: Tri ensures Holds([[x]]) == x {
      HoldsSingle(x);
    }
  }

  /** `EqTagId(id)` selects exactly the tag with that id. */
  lemma TagIdSelects(id: int)
    requires 1000 <= id <= 1005
    ensures Selected(TestLibrary, TagFilters.EqTagId(id)) == {id}
  {
    SingleUnits();
    assert Tags[id - 1000].id == id;
    SelectedByRows(TestLibrary, TagFilters.EqTagId(id), {id});
  }

  /** Maxwell (1001) and Doge (1003) have no children: their closures are themselves. */
  lemma LeafClosures()
    ensures Closure(Edges, {1001}) == {1001}
    ensures Closure(Edges, {1003}) == {1003}
  {
    ClosureLeast(Edges, {1001}, {1001});
    ClosureLeast(Edges, {1003}, {1003});
  }

  /** The entries of `db` linked to a tag id in `s`. */
  function LinkedTo(db: Db, s: set<int>): set<int>
  {
    set l | l in db.links && l.tagId in s :: l.entryId
  }

  /**
   * The tag-to-entry bridge, for one entry: over a tag condition that holds
   * exactly on the tags in `s`, and links that all name an existing tag,
   * the entry matches when it is linked to a tag in `s`.
   */
  lemma BridgeRow(db: Db, tq: TagFilters.TagQuery, s: set<int>, e: EntryRow)
    requires forall t :: t in db.tags ==> Holds(TagChains(db, tq, t)) == FromBool(t.id in s)
    requires forall l :: l in db.links ==> exists t :: t in db.tags && t.id == l.tagId
    ensures EntryHolds(db, EntryFilters.EntriesWithTags(tq), e) == FromBool(e.id in LinkedTo(db, s))
  {
    if e.id in LinkedTo(db, s) {
      var l :| l in db.links && l.tagId in s && l.entryId == e.id;
      var t :| t in db.tags && t.id == l.tagId;
      assert Holds(TagChains(db, tq, t)) == True;
    } else {
      forall l, t | l in db.links && t in db.tags && l.entryId == e.id && l.tagId == t.id
        ensures Holds(TagChains(db, tq, t)) != True
      {
        assert l.tagId !in s;
      }
    }
  }

  /** Every link of the test library names one of its tags. */
  lemma LinksNameTags()
    ensures forall l :: l in Links ==> exists t :: t in Tags && t.id == l.tagId
  {
    forall l | l in Links ensures exists t :: t in Tags && t.id == l.tagId {
      assert l.tagId == 1001 || l.tagId == 1003 || l.tagId == 1005;
      assert Tags[1].id == 1001 && Tags[3].id == 1003 && Tags[5].id == 1005;
    }
  }

  /** The tag-to-entry bridge over a tag condition that holds exactly on the tags in `s`. */
  lemma Bridge(tq: TagFilters.TagQuery, s: set<int>, m: set<int>)
    requires forall t :: t in Tags ==> Holds(TagChains(TestLibrary, tq, t)) == FromBool(t.id in s)
    requires LinkedTo(TestLibrary, s) == m
    ensures forall e :: e in Entries ==>
      EntryHolds(TestLibrary, EntryFilters.EntriesWithTags(tq), e) == FromBool(e.id in m)
  {
    LinksNameTags();
    forall e | e in Entries
      ensures EntryHolds(TestLibrary, EntryFilters.EntriesWithTags(tq), e) == FromBool(e.id in m)
    {
      BridgeRow(TestLibrary, tq, s, e);
    }
  }

  /** A walk from a selection of one leaf tag (Maxwell or Doge) holds on that tag alone. */
  lemma LeafWalk(inner: TagFilters.TagQuery, id: int)
    requires id == 1001 || id == 1003
    requires Selected(TestLibrary, inner) == {id}
    ensures forall t :: t in Tags ==>
      Holds(TagChains(TestLibrary, TagFilters.EqTagOrParents(inner), t)) == FromBool(t.id in {id})
  {
    LeafClosures();
    forall t | t in Tags
      ensures Holds(TagChains(TestLibrary, TagFilters.EqTagOrParents(inner), t)) == FromBool(t.id in {id})
    {
      ClosureUnit(TestLibrary, TagFilters.EqTagOrParents(inner), t);
    }
  }

  lemma LinkedEntries()
    ensures LinkedTo(TestLibrary, {1001}) == {0, 2}
    ensures LinkedTo(TestLibrary, {1003}) == {1, 2}
  {
    assert Links[0] in Links && Links[3] in Links;
    assert Links[1] in Links && Links[2] in Links;
  }

  /** The entries carrying Maxwell or a descendant of it, and the same for Doge. */
  lemma LeafEntries(inner: TagFilters.TagQuery, id: int, m: set<int>)
    requires (id == 1001 && m == {0, 2}) || (id == 1003 && m == {1, 2})
    requires Selected(TestLibrary, inner) == {id}
    ensures forall e :: e in Entries ==> EntryHolds(TestLibrary,
      EntryFilters.EntriesWithTags(TagFilters.EqTagOrParents(inner)), e) == FromBool(e.id in m)
  {
    LeafWalk(inner, id);
    LinkedEntries();
    Bridge(TagFilters.EqTagOrParents(inner), {id}, m);
  }

  lemma LeafMatches(inner: TagFilters.TagQuery, id: int, m: set<int>)
    requires (id == 1001 && m == {0, 2}) || (id == 1003 && m == {1, 2})
    requires Selected(TestLibrary, inner) == {id}
    ensures MatchingEntries(TestLibrary, EntryFilters.EntriesWithTags(TagFilters.EqTagOrParents(inner))) == m
  {
    LeafEntries(inner, id, m);
    assert TestLibrary.entries == Entries;
    forall x | x in m ensures exists e :: e in TestLibrary.entries && e.id == x {
      assert Entries[x] in Entries;
    }
    MatchingByRows(TestLibrary, EntryFilters.EntriesWithTags(TagFilters.EqTagOrParents(inner)), m);
  }

  /** The bridged walks seeded by Maxwell and by Doge, by id or by name. */
  lemma SeedMatches(inner: TagFilters.TagQuery, id: int, m: set<int>)
    requires Seed(inner, id, m)
    ensures MatchingEntries(TestLibrary, EntryFilters.EntriesWithTags(TagFilters.EqTagOrParents(inner))) == m
  {
    if inner.EqTagId? {
      TagIdSelects(id);
    } else {
      WordSelects(inner.text, id);
    }
    LeafMatches(inner, id, m);
  }

  lemma UniqueIds()
    ensures UniqueEntryIds(TestLibrary)
  {
    EntryRowsById();
  }

  /** Walks seeded by Maxwell and by Doge, by id or by name. */
  predicate Seed(inner: TagFilters.TagQuery, id: int, m: set<int>)
  {
    (id == 1001 && m == {0, 2} && (inner == TagFilters.EqTagId(id) || inner == TagFilters.EqTagString("maxwell")))
    || (id == 1003 && m == {1, 2} && (inner == TagFilters.EqTagId(id) || inner == TagFilters.EqTagString("doge")))
  }

  /** An entry-level `And` of two seeded walks selects the entries both walks select. */
  lemma AndOfSeeds(i1: TagFilters.TagQuery, id1: int, m1: set<int>, i2: TagFilters.TagQuery, id2: int, m2: set<int>, m: set<int>)
    requires Seed(i1, id1, m1) && Seed(i2, id2, m2) && m1 * m2 == m
    ensures MatchingEntries(TestLibrary, EntryFilters.And(
      EntryFilters.EntriesWithTags(TagFilters.EqTagOrParents(i1)),
      EntryFilters.EntriesWithTags(TagFilters.EqTagOrParents(i2)))) == m
  {
    SeedMatches(i1, id1, m1);
    SeedMatches(i2, id2, m2);
    UniqueIds();
    MatchingAnd(TestLibrary, EntryFilters.EntriesWithTags(TagFilters.EqTagOrParents(i1)),
      EntryFilters.EntriesWithTags(TagFilters.EqTagOrParents(i2)));
  }

  /** The first example of `QueryAnd2`: descendants of Maxwell and descendants of Doge. */
  lemma AndOfClosuresExample()
    ensures MatchingEntries(TestLibrary, EntryFilters.And(
      EntryFilters.EntriesWithTags(TagFilters.EqTagOrParents(TagFilters.EqTagId(1001))),
      EntryFilters.EntriesWithTags(TagFilters.EqTagOrParents(TagFilters.EqTagId(1003))))) == {2}
  {
    assert {0, 2} * {1, 2} == {2};
    AndOfSeeds(TagFilters.EqTagId(1001), 1001, {0, 2}, TagFilters.EqTagId(1003), 1003, {1, 2}, {2});
  }

  /** The second example of `QueryAnd2`: the same walks seeded by the words "maxwell" and "doge". */
  lemma AndOfWordClosuresExample()
    ensures MatchingEntries(TestLibrary, EntryFilters.And(
      EntryFilters.EntriesWithTags(TagFilters.EqTagOrParents(TagFilters.EqTagString("maxwell"))),
      EntryFilters.EntriesWithTags(TagFilters.EqTagOrParents(TagFilters.EqTagString("doge"))))) == {2}
  {
    assert {0, 2} * {1, 2} == {2};
    AndOfSeeds(TagFilters.EqTagString("maxwell"), 1001, {0, 2}, TagFilters.EqTagString("doge"), 1003, {1, 2}, {2});
  }

  lemma LowerNames()
    ensures ToLower("Cat") == "cat" && ToLower("Maxwell") == "maxwell" && ToLower("Meme") == "meme"
    ensures ToLower("Doge") == "doge" && ToLower("Dog") == "dog" && ToLower("OIIA") == "oiia"
  {
  }

  /** Tag ids are 1000 plus the positions of the rows, and no tag has a shorthand. */
  lemma TagRowsById()
    ensures forall t :: t in Tags ==> 1000 <= t.id < 1006 && Tags[t.id - 1000] == t && t.shorthand.None?
  {
    forall t | t in Tags ensures 1000 <= t.id < 1006 && Tags[t.id - 1000] == t && t.shorthand.None? {
      var i :| 0 <= i < 6 && Tags[i] == t;
      assert Tags[0].id == 1000 && Tags[1].id == 1001 && Tags[2].id == 1002;
      assert Tags[3].id == 1003 && Tags[4].id == 1004 && Tags[5].id == 1005;
    }
  }

  /** Among the test tags only Maxwell lower-cases to "maxwell", and only Doge to "doge". */
  lemma NameMatches()
    ensures forall t :: t in Tags ==> (ToLower(t.name) == "maxwell" <==> t.id == 1001)
    ensures forall t :: t in Tags ==> (ToLower(t.name) == "doge" <==> t.id == 1003)
  {
    LowerNames();
    forall t | t in Tags
      ensures ToLower(t.name) == "maxwell" <==> t.id == 1001
      ensures ToLower(t.name) == "doge" <==> t.id == 1003
    {
      var i :| 0 <= i < 6 && Tags[i] == t;
    }
  }

  /** The two search words are lower-case and hold no `'_'`. */
  lemma PlainWords(s: string)
    requires s == "maxwell" || s == "doge"
    ensures TagFilters.CaseInsensitive(s) && ReplaceChar(s, '_', ' ') == s
  {
    LowerFixpointIff(s);
  }

  /** Searching a lower-case word: only the tag whose lower-cased name is that word matches. */
  lemma WordSelects(s: string, id: int)
    requires (s == "maxwell" && id == 1001) || (s == "doge" && id == 1003)
    ensures Selected(TestLibrary, TagFilters.EqTagString(s)) == {id}
  {
    PlainWords(s);
    TagRowsById();
    NameMatches();
    forall t | t in TestLibrary.tags
      ensures Holds(TagChains(TestLibrary, TagFilters.EqTagString(s), t)) == True <==> t.id in {id}
    {
      PlainWordRow(TestLibrary, s, t);
    }
    assert Tags[id - 1000] in TestLibrary.tags;
    SelectedByRows(TestLibrary, TagFilters.EqTagString(s), {id});
  }

  /** With no aliases and no shorthand, a lower-case word without `'_'` is true on a name match and NULL otherwise. */
  lemma PlainWordRow(db: Db, w: string, t: TagRow)
    requires db.aliases == [] && t.shorthand.None?
    requires TagFilters.CaseInsensitive(w) && ReplaceChar(w, '_', ' ') == w
    ensures Holds(TagChains(db, TagFilters.EqTagString(w), t)) == if ToLower(t.name) == w then True else Null
  {
    TextUnits(db, w, t);
    assert AliasTri(db, t, true, w) == False;
  }

  lemma PlainWordAndRow(db: Db, w1: string, w2: string, t: TagRow)
    requires db.aliases == [] && t.shorthand.None?
    requires TagFilters.CaseInsensitive(w1) && ReplaceChar(w1, '_', ' ') == w1
    requires TagFilters.CaseInsensitive(w2) && ReplaceChar(w2, '_', ' ') == w2
    ensures Holds(TagChains(db, TagFilters.And(TagFilters.EqTagString(w1), TagFilters.EqTagString(w2)), t))
      == if ToLower(t.name) == w1 || ToLower(t.name) == w2 then True else Null
    ensures TagIntended(db, TagFilters.And(TagFilters.EqTagString(w1), TagFilters.EqTagString(w2)), t)
      == if ToLower(t.name) == w1 && ToLower(t.name) == w2 then True else Null
  {
    TextAndReading(db, w1, w2, t);
    PlainWordRow(db, w1, t);
    PlainWordRow(db, w2, t);
    assert AliasTri(db, t, true, w1) == False;
    assert AliasTri(db, t, true, w2) == False;
  }

  lemma WordAndGapRows(w1: string, w2: string)
    requires w1 == "maxwell" && w2 == "doge"
    ensures forall t :: t in Tags ==> (t.id in {1001, 1003} <==>
      Holds(TagChains(TestLibrary, TagFilters.And(TagFilters.EqTagString(w1), TagFilters.EqTagString(w2)), t)) == True)
    ensures forall t :: t in Tags ==>
      TagIntended(TestLibrary, TagFilters.And(TagFilters.EqTagString(w1), TagFilters.EqTagString(w2)), t) != True
  {
    LowerNames();
    LowerFixpointIff(w1);
    LowerFixpointIff(w2);
    assert ReplaceChar(w1, '_', ' ') == w1 && ReplaceChar(w2, '_', ' ') == w2;
    forall t | t in Tags
      ensures t.id in {1001, 1003} <==>
        Holds(TagChains(TestLibrary, TagFilters.And(TagFilters.EqTagString(w1), TagFilters.EqTagString(w2)), t)) == True
      ensures TagIntended(TestLibrary, TagFilters.And(TagFilters.EqTagString(w1), TagFilters.EqTagString(w2)), t) != True
    {
      PlainWordAndRow(TestLibrary, w1, w2, t);
    }
  }

  /**
   * The grouping gap of a tag-level `And` of two words: SQL reads the text
   * as "name is maxwell, or ..., or name is doge, or ...", so both Maxwell
   * and Doge are selected, while no tag is both.
   */
  lemma WordAndGapExample()
    ensures Selected(TestLibrary, TagFilters.And(TagFilters.EqTagString("maxwell"), TagFilters.EqTagString("doge"))) == {1001, 1003}
    ensures IntendedSelected(TestLibrary, TagFilters.And(TagFilters.EqTagString("maxwell"), TagFilters.EqTagString("doge"))) == {}
  {
    var q := TagFilters.And(TagFilters.EqTagString("maxwell"), TagFilters.EqTagString("doge"));
    WordAndGapRows("maxwell", "doge");
    assert Tags[1].id == 1001 && Tags[3].id == 1003;
    SelectedByRows(TestLibrary, q, {1001, 1003});
  }

  /** Every tag of the test library has a NULL shorthand, so a tag-level `NOT` of a word selects nothing. */
  lemma NotWordExample(w: string)
    ensures Selected(TestLibrary, TagFilters.Not(TagFilters.EqTagString(w))) == {}
  {
    forall t | t in Tags ensures Holds(TagChains(TestLibrary, TagFilters.Not(TagFilters.EqTagString(w)), t)) != True {
      NotTextNeverTrue(TestLibrary, w, t);
    }
    SelectedByRows(TestLibrary, TagFilters.Not(TagFilters.EqTagString(w)), {});
  }
}
