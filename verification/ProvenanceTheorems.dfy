/** When the lookup by key agrees with the walk over the whole tree. */
module ProvenanceTheorems {
  import opened Common
  import opened Ordering
  import opened Text
  import opened Provenance

  // ----- leaves and their paths -----

  type Place = (seq<string>, Origin)

  function Under(name: string, places: seq<Place>): (r: seq<Place>)
    ensures |r| == |places|
    ensures forall i :: 0 <= i < |r| ==> r[i] == ([name] + places[i].0, places[i].1)
  {
    seq(|places|, i requires 0 <= i < |places| => ([name] + places[i].0, places[i].1))
  }

  function Leaves(v: Value): seq<Place>
    decreases v
  {
    match v
    case Leaf(origin) => [([], Classify(origin))]
    case Table(entries) => EntryLeaves(entries)
  }

  function EntryLeaves(entries: Entries): seq<Place>
    decreases entries
  {
    match entries
    case End => []
    case Entry(name, value, rest) => Under(name, Leaves(value)) + EntryLeaves(rest)
  }

  /** The key that the walk builds for a path. */
  function KeyFrom(prefix: string, path: seq<string>): string
    decreases |path|
  {
    if path == [] then prefix else KeyFrom(Extended(prefix, path[0]), path[1..])
  }

  function Named(prefix: string, places: seq<Place>): (r: seq<Setting>)
    ensures |r| == |places|
    ensures forall i :: 0 <= i < |r| ==> r[i] == (KeyFrom(prefix, places[i].0), places[i].1)
  {
    seq(|places|, i requires 0 <= i < |places| => (KeyFrom(prefix, places[i].0), places[i].1))
  }

  lemma NamedUnder(prefix: string, name: string, places: seq<Place>)
    ensures Named(prefix, Under(name, places)) == Named(Extended(prefix, name), places)
  {
    forall i | 0 <= i < |places|
      ensures KeyFrom(prefix, [name] + places[i].0) == KeyFrom(Extended(prefix, name), places[i].0)
    {
      assert ([name] + places[i].0)[1..] == places[i].0;
    }
  }

  lemma NamedGlue(prefix: string, a: seq<Place>, b: seq<Place>)
    ensures Named(prefix, a + b) == Named(prefix, a) + Named(prefix, b)
  {
  }

  /** The walk names every leaf by its path. */
  lemma {:induction false} WalkNamesLeaves(v: Value, prefix: string)
    ensures Walk(v, prefix) == Named(prefix, Leaves(v))
    decreases v
  {
    if v.Table? {
      WalkNamesEntries(v.entries, prefix);
    }
  }

  lemma {:induction false} WalkNamesEntries(entries: Entries, prefix: string)
    ensures WalkEntries(entries, prefix) == Named(prefix, EntryLeaves(entries))
    decreases entries
  {
    if entries.Entry? {
      WalkNamesLeaves(entries.value, Extended(prefix, entries.name));
      WalkNamesEntries(entries.rest, prefix);
      NamedUnder(prefix, entries.name, Leaves(entries.value));
      NamedGlue(prefix, Under(entries.name, Leaves(entries.value)), EntryLeaves(entries.rest));
    }
  }

  // ----- the lookup finds exactly the leaves -----

  function LookupIn(entries: Entries, path: seq<string>): Option<Origin> {
    if path == [] then None
    else match Find(entries, path[0]) case None => None case Some(child) => Lookup(child, path[1..])
  }

  lemma InUnder(name: string, places: seq<Place>, path: seq<string>, o: Origin)
    ensures (path, o) in Under(name, places) <==> path != [] && path[0] == name && (path[1..], o) in places
  {
    if path != [] && path[0] == name && (path[1..], o) in places {
      var i :| 0 <= i < |places| && places[i] == (path[1..], o);
      assert path == [name] + path[1..];
      assert Under(name, places)[i] == (path, o);
    }
    if (path, o) in Under(name, places) {
      var i :| 0 <= i < |places| && Under(name, places)[i] == (path, o);
      assert places[i] == (path[1..], o);
    }
  }

  lemma {:induction false} LookupFindsLeaves(v: Value, path: seq<string>, o: Origin)
    requires Distinct(v)
    ensures Lookup(v, path) == Some(o) <==> (path, o) in Leaves(v)
    decreases v
  {
    if v.Table? {
      LookupFindsEntries(v.entries, path, o);
    }
  }

  lemma {:induction false} LookupFindsEntries(entries: Entries, path: seq<string>, o: Origin)
    requires DistinctEntries(entries)
    ensures LookupIn(entries, path) == Some(o) <==> (path, o) in EntryLeaves(entries)
    decreases entries
  {
    if entries.Entry? {
      InUnder(entries.name, Leaves(entries.value), path, o);
      if path != [] {
        LookupFindsLeaves(entries.value, path[1..], o);
      }
      LookupFindsEntries(entries.rest, path, o);
    }
  }

  predicate DistinctPaths(places: seq<Place>) {
    forall i, j :: 0 <= i < j < |places| ==> places[i].0 != places[j].0
  }

  lemma UnderDistinct(name: string, places: seq<Place>)
    requires DistinctPaths(places)
    ensures DistinctPaths(Under(name, places))
  {
    var r := Under(name, places);
    forall i, j | 0 <= i < j < |r|
      ensures r[i].0 != r[j].0
    {
      assert r[i].0[1..] == places[i].0 && r[j].0[1..] == places[j].0;
    }
  }

  lemma GlueDistinct(a: seq<Place>, b: seq<Place>)
    requires DistinctPaths(a) && DistinctPaths(b)
    requires forall i, j :: 0 <= i < |a| && 0 <= j < |b| ==> a[i].0 != b[j].0
    ensures DistinctPaths(a + b)
  {
  }

  /** No two leaves have the same path. */
  lemma {:induction false} LeavesDistinct(v: Value)
    requires Distinct(v)
    ensures DistinctPaths(Leaves(v))
    decreases v
  {
    if v.Table? {
      EntriesDistinct(v.entries);
    }
  }

  lemma {:induction false} EntriesDistinct(entries: Entries)
    requires DistinctEntries(entries)
    ensures DistinctPaths(EntryLeaves(entries))
    decreases entries
  {
    if entries.Entry? {
      var a, b := Under(entries.name, Leaves(entries.value)), EntryLeaves(entries.rest);
      LeavesDistinct(entries.value);
      UnderDistinct(entries.name, Leaves(entries.value));
      EntriesDistinct(entries.rest);
      forall i, j | 0 <= i < |a| && 0 <= j < |b|
        ensures a[i].0 != b[j].0
      {
        assert b[j] in b;
        LookupFindsEntries(entries.rest, b[j].0, b[j].1);
      }
      GlueDistinct(a, b);
    }
  }

  // ----- keys -----

  function KeyOf(path: seq<string>): string {
    KeyFrom("", path)
  }

  /** No name has a dot, and only a path of one name may begin with an empty name. */
  predicate CleanPath(path: seq<string>) {
    && (forall i :: 0 <= i < |path| ==> '.' !in path[i])
    && (|path| >= 2 ==> path[0] != "")
  }

  lemma JoinTail(path: seq<string>)
    requires |path| >= 2
    ensures Join(path, '.') == path[0] + "." + Join(path[1..], '.')
  {
    assert path == [path[0]] + path[1..];
    JoinHead(path[0], path[1..], '.');
  }

  lemma {:induction false} KeyBelow(prefix: string, path: seq<string>)
    requires prefix != "" && path != []
    ensures KeyFrom(prefix, path) == prefix + "." + Join(path, '.')
    decreases |path|
  {
    var next := prefix + "." + path[0];
    if |path| == 1 {
      assert path[1..] == [];
    } else {
      KeyBelow(next, path[1..]);
      JoinTail(path);
      assert next + "." + Join(path[1..], '.') == prefix + "." + (path[0] + "." + Join(path[1..], '.'));
    }
  }

  lemma KeyOfClean(path: seq<string>)
    requires path != [] && (|path| >= 2 ==> path[0] != "")
    ensures KeyOf(path) == Join(path, '.')
  {
    assert Extended("", path[0]) == path[0];
    if |path| >= 2 {
      KeyBelow(path[0], path[1..]);
      JoinTail(path);
    } else {
      assert path[1..] == [];
      assert KeyFrom(path[0], []) == path[0];
    }
  }

  /** Empty names at the front are lost with their dots. */
  lemma {:induction false} KeyIsShort(path: seq<string>)
    requires path != []
    ensures |KeyOf(path)| <= |Join(path, '.')|
    ensures |path| >= 2 && path[0] == "" ==> |KeyOf(path)| < |Join(path, '.')|
    decreases |path|
  {
    if |path| >= 2 && path[0] == "" {
      assert KeyOf(path) == KeyOf(path[1..]);
      KeyIsShort(path[1..]);
      JoinTail(path);
    } else {
      KeyOfClean(path);
    }
  }

  /** A key splits into the path it was built from exactly when that path is clean. */
  lemma KeySplits(path: seq<string>)
    requires path != []
    ensures Split(KeyOf(path), '.') == path <==> CleanPath(path)
  {
    if CleanPath(path) {
      KeyOfClean(path);
      SplitOfJoin(path, '.');
    }
    if Split(KeyOf(path), '.') == path {
      SplitPartsClean(KeyOf(path), '.');
      JoinOfSplit(KeyOf(path), '.');
      KeyIsShort(path);
    }
  }

  // ----- agreement -----

  predicate DistinctKeys(s: seq<Setting>) {
    forall i, j :: 0 <= i < j < |s| ==> s[i].0 != s[j].0
  }

  /** The walk lists a setting exactly when the lookup of its key gives its origin. */
  ghost predicate Agrees(root: Value, s: seq<Setting>) {
    forall k, o :: (k, o) in s <==> Lookup(root, Split(k, '.')) == Some(o)
  }

  /** The root is a table, and the path of every setting is clean. */
  predicate Clean(root: Value) {
    root.Table? && forall i :: 0 <= i < |Leaves(root)| ==> CleanPath(Leaves(root)[i].0)
  }

  lemma {:induction false} LeavesBelowTable(entries: Entries)
    ensures forall i :: 0 <= i < |EntryLeaves(entries)| ==> EntryLeaves(entries)[i].0 != []
    decreases entries
  {
    if entries.Entry? {
      LeavesBelowTable(entries.rest);
    }
  }

  lemma CleanKeys(root: Value, i: nat)
    requires Clean(root) && i < |Leaves(root)|
    ensures Split(KeyOf(Leaves(root)[i].0), '.') == Leaves(root)[i].0
  {
    LeavesBelowTable(root.entries);
    KeySplits(Leaves(root)[i].0);
  }

  lemma CleanIsDistinct(root: Value)
    requires Distinct(root) && Clean(root)
    ensures DistinctKeys(Walk(root, ""))
  {
    var ls, w := Leaves(root), Walk(root, "");
    WalkNamesLeaves(root, "");
    LeavesDistinct(root);
    forall i, j | 0 <= i < j < |w|
      ensures w[i].0 != w[j].0
    {
      CleanKeys(root, i);
      CleanKeys(root, j);
      assert ls[i].0 != ls[j].0;
    }
  }

  lemma CleanAgrees(root: Value, k: string, o: Origin)
    requires Distinct(root) && Clean(root)
    ensures (k, o) in Walk(root, "") <==> Lookup(root, Split(k, '.')) == Some(o)
  {
    var ls, w, path := Leaves(root), Walk(root, ""), Split(k, '.');
    WalkNamesLeaves(root, "");
    LookupFindsLeaves(root, path, o);
    if (k, o) in w {
      var i :| 0 <= i < |w| && w[i] == (k, o);
      CleanKeys(root, i);
      assert ls[i] == (path, o);
    }
    if (path, o) in ls {
      var i :| 0 <= i < |ls| && ls[i] == (path, o);
      KeyOfClean(path);
      JoinOfSplit(k, '.');
      assert w[i] == (k, o);
    }
  }

  /** Where the walk and the lookup agree on distinct keys, every key splits into its own path. */
  lemma {:induction false} AgreeingKeySplits(root: Value, i: nat)
    requires Distinct(root) && root.Table? && DistinctKeys(Walk(root, "")) && Agrees(root, Walk(root, ""))
    requires i < |Leaves(root)|
    ensures CleanPath(Leaves(root)[i].0)
    decreases |KeyOf(Leaves(root)[i].0)|
  {
    var path := Split(KeyOf(Leaves(root)[i].0), '.');
    var j := KeyLeads(root, i);
    LeavesBelowTable(root.entries);
    JoinOfSplit(KeyOf(Leaves(root)[i].0), '.');
    KeyIsShort(path);
    if |path| >= 2 && path[0] == "" {
      // The leaf at `path` has a shorter key, so its path is clean, and it is not.
      AgreeingKeySplits(root, j);
    } else {
      KeyOfClean(path);
      SameKey(root, i, j);
    }
    KeySplits(Leaves(root)[i].0);
  }

  lemma SameKey(root: Value, i: nat, j: nat)
    requires DistinctKeys(Walk(root, "")) && i < |Leaves(root)| && j < |Leaves(root)|
    requires KeyOf(Leaves(root)[i].0) == KeyOf(Leaves(root)[j].0)
    ensures i == j
  {
    WalkNamesLeaves(root, "");
    assert Walk(root, "")[i].0 == Walk(root, "")[j].0;
  }

  /** The key of a leaf leads to a leaf, though perhaps another one. */
  lemma KeyLeads(root: Value, i: nat) returns (j: nat)
    requires Distinct(root) && Agrees(root, Walk(root, "")) && i < |Leaves(root)|
    ensures j < |Leaves(root)| && Leaves(root)[j].0 == Split(KeyOf(Leaves(root)[i].0), '.')
  {
    WalkNamesLeaves(root, "");
    var key, o := Walk(root, "")[i].0, Walk(root, "")[i].1;
    var path := Split(key, '.');
    assert (key, o) in Walk(root, "");
    LookupFindsLeaves(root, path, o);
    j :| 0 <= j < |Leaves(root)| && Leaves(root)[j] == (path, o);
  }

  lemma LeafDisagrees(root: Value)
    requires root.Leaf?
    ensures !Agrees(root, Walk(root, ""))
  {
    var o := Classify(root.origin);
    assert ("", o) in Walk(root, "");
    assert Lookup(root, Split("", '.')) == None;
  }

  /** The walk has distinct keys and agrees with the lookup exactly on clean trees. */
  lemma AgreementIsClean(root: Value)
    requires Distinct(root)
    ensures DistinctKeys(Walk(root, "")) && Agrees(root, Walk(root, "")) <==> Clean(root)
  {
    if root.Leaf? {
      LeafDisagrees(root);
    } else {
      if Clean(root) {
        CleanIsDistinct(root);
        forall k, o
          ensures (k, o) in Walk(root, "") <==> Lookup(root, Split(k, '.')) == Some(o)
        {
          CleanAgrees(root, k, o);
        }
      }
      if DistinctKeys(Walk(root, "")) && Agrees(root, Walk(root, "")) {
        forall i | 0 <= i < |Leaves(root)|
          ensures CleanPath(Leaves(root)[i].0)
        {
          AgreeingKeySplits(root, i);
        }
      }
    }
  }

  // ----- the sorted list -----

  /** Distinct keys, said of the settings without their order. */
  ghost predicate UniqueKeys(m: multiset<Setting>) {
    && (forall s :: s in m ==> m[s] == 1)
    && (forall s, t :: s in m && t in m && s.0 == t.0 ==> s == t)
  }

  lemma {:induction false} DistinctIsUnique(s: seq<Setting>)
    ensures DistinctKeys(s) <==> UniqueKeys(multiset(s))
    decreases |s|
  {
    if s != [] {
      var x, rest := s[0], s[1..];
      DistinctIsUnique(rest);
      Uncons(s);
      assert multiset(s) == multiset{x} + multiset(rest);
      if DistinctKeys(s) {
        DistinctHead(s);
      }
      if UniqueKeys(multiset(s)) {
        UniqueTail(x, rest);
        forall i | 0 < i < |s|
          ensures s[0].0 != s[i].0
        {
          assert s[i] == rest[i - 1] && s[i] in multiset(rest);
        }
        forall i, j | 0 <= i < j < |s|
          ensures s[i].0 != s[j].0
        {
          if i > 0 {
            assert s[i] == rest[i - 1] && s[j] == rest[j - 1];
          }
        }
      }
    }
  }

  lemma DistinctHead(s: seq<Setting>)
    requires s != [] && DistinctKeys(s)
    ensures DistinctKeys(s[1..]) && forall y :: y in multiset(s[1..]) ==> y.0 != s[0].0
  {
    forall y | y in multiset(s[1..])
      ensures y.0 != s[0].0
    {
      assert y in s[1..];
      var i :| 0 <= i < |s[1..]| && s[1..][i] == y;
      assert s[i + 1] == y;
    }
  }

  lemma UniqueTail(x: Setting, rest: seq<Setting>)
    requires UniqueKeys(multiset{x} + multiset(rest))
    ensures UniqueKeys(multiset(rest)) && forall y :: y in multiset(rest) ==> y.0 != x.0
  {
    var m, tail := multiset{x} + multiset(rest), multiset(rest);
    assert m[x] == 1 + tail[x];
    forall y | y in tail
      ensures tail[y] == 1 && y.0 != x.0
    {
      assert y in m && m[y] >= tail[y];
      assert x in m;
    }
  }

  lemma StrictIsDistinct(s: seq<Setting>)
    requires Ascending(s)
    ensures StrictlyAscending(s) <==> DistinctKeys(s)
  {
    forall i, j | 0 <= i < j < |s|
      ensures Less(s[i].0, s[j].0) <==> s[i].0 != s[j].0
    {
      LessIsTotal(s[i].0, s[j].0);
    }
  }

  /**
   * The sorted list of all settings is strictly sorted and agrees with the lookup exactly when the tree is clean.
   */
  lemma SortedListAgrees(root: Value, found: seq<Setting>)
    requires Distinct(root) && Ascending(found) && multiset(found) == multiset(Walk(root, ""))
    ensures StrictlyAscending(found) && Agrees(root, found) <==> Clean(root)
  {
    var w := Walk(root, "");
    StrictIsDistinct(found);
    DistinctIsUnique(found);
    DistinctIsUnique(w);
    forall k, o
      ensures (k, o) in found <==> (k, o) in w
    {
      assert (k, o) in multiset(found) <==> (k, o) in multiset(w);
    }
    AgreementIsClean(root);
  }

  // ----- trees that are not clean -----

  /** A name with a dot: the walk lists a key that the lookup does not find. */
  lemma DottedNameDisagrees(origin: Option<string>)
    ensures
      var root := Table(Entry("a.b", Leaf(origin), End));
      Walk(root, "") == [("a.b", Classify(origin))] && Lookup(root, Split("a.b", '.')) == None
  {
    var entries := Entry("a.b", Leaf(origin), End);
    SplitHead("a", "b", '.');
    SplitWhole("b", '.');
    assert "a" + "." + "b" == "a.b";
    assert Split("a.b", '.')[0] == "a";
    assert Find(entries, "a") == None;
    assert WalkEntries(End, "") == [];
    assert Walk(Leaf(origin), "a.b") == [("a.b", Classify(origin))];
    assert WalkEntries(entries, "") == Walk(Leaf(origin), "a.b") + WalkEntries(End, "");
  }

  /** A table with an empty name at the root: its settings are listed under keys that do not lead to them. */
  lemma EmptyNameDisagrees(origin: Option<string>)
    ensures
      var root := Table(Entry("", Table(Entry("a", Leaf(origin), End)), End));
      Walk(root, "") == [("a", Classify(origin))] && Lookup(root, Split("a", '.')) == None
  {
    SplitWhole("a", '.');
    var inner := Entry("a", Leaf(origin), End);
    var entries := Entry("", Table(inner), End);
    assert Find(entries, "a") == None;
    assert WalkEntries(End, "") == [];
    assert Walk(Leaf(origin), "a") == [("a", Classify(origin))];
    assert WalkEntries(inner, "") == Walk(Leaf(origin), "a") + WalkEntries(End, "");
    assert WalkEntries(entries, "") == Walk(Table(inner), "") + WalkEntries(End, "");
  }
}
