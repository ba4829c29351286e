/** Which layer of the configuration supplied a setting: one lookup by key, and the walk over the whole tree. */
module Provenance {
  import opened Common
  import opened Ordering
  import opened Text

  // ----- the merged tree -----

  /** A setting with the origin recorded for it, or a table of named values in the order in which it is iterated. */
  datatype Value = Leaf(origin: Option<string>) | Table(entries: Entries)

  datatype Entries = End | Entry(name: string, value: Value, rest: Entries)

  function Find(entries: Entries, name: string): Option<Value> {
    match entries
    case End => None
    case Entry(n, v, rest) => if n == name then Some(v) else Find(rest, name)
  }

  /** The names of every table are distinct, as those of a map are. */
  predicate Distinct(v: Value) {
    v.Table? ==> DistinctEntries(v.entries)
  }

  predicate DistinctEntries(entries: Entries) {
    match entries
    case End => true
    case Entry(name, value, rest) => Find(rest, name).None? && Distinct(value) && DistinctEntries(rest)
  }

  // ----- origins -----

  datatype Origin = Default | File(path: string) | Environment | Unknown(text: string)

  const ENVIRONMENT_ORIGIN := "the environment"
  const SEPARATOR := '/'

  function Classify(origin: Option<string>): Origin {
    match origin
    case None => Default
    case Some(text) =>
      if text == ENVIRONMENT_ORIGIN then Environment else if SEPARATOR in text then File(text) else Unknown(text)
  }

  // ----- the lookup -----

  function Lookup(v: Value, path: seq<string>): Option<Origin>
    decreases |path|
  {
    if path == [] then if v.Leaf? then Some(Classify(v.origin)) else None
    else if v.Leaf? then None
    else match Find(v.entries, path[0]) case None => None case Some(child) => Lookup(child, path[1..])
  }

  /** The lookup of the source, which follows the key down the tree. */
  method OriginOf(root: Value, key: string) returns (r: Option<Origin>)
    ensures r == Lookup(root, Split(key, '.'))
  {
    var value, segments, i := root, Split(key, '.'), 0;
    assert segments[0..] == segments;
    while i < |segments|
      invariant 0 <= i <= |segments|
      invariant Lookup(root, segments) == Lookup(value, segments[i..])
    {
      assert segments[i..][1..] == segments[i + 1..];
      if value.Leaf? {
        return None;
      }
      var child := Find(value.entries, segments[i]);
      if child.None? {
        return None;
      }
      value, i := child.value, i + 1;
    }
    return if value.Table? then None else Some(Classify(value.origin));
  }

  // ----- the walk -----

  type Setting = (string, Origin)

  function Extended(prefix: string, name: string): string {
    if prefix == "" then name else prefix + "." + name
  }

  function Walk(v: Value, prefix: string): seq<Setting>
    decreases v
  {
    match v
    case Leaf(origin) => [(prefix, Classify(origin))]
    case Table(entries) => WalkEntries(entries, prefix)
  }

  function WalkEntries(entries: Entries, prefix: string): seq<Setting>
    decreases entries
  {
    match entries
    case End => []
    case Entry(name, value, rest) => Walk(value, Extended(prefix, name)) + WalkEntries(rest, prefix)
  }

  /** The buffers that the walk shares between its levels. */
  class Collector {
    var prefix: string
    var out: seq<Setting>

    constructor ()
      ensures prefix == "" && out == []
    {
      prefix, out := "", [];
    }

    /** Every level appends its settings and leaves the prefix as it found it. */
    method Collect(v: Value)
      modifies this
      ensures prefix == old(prefix)
      ensures out == old(out) + Walk(v, old(prefix))
      decreases v
    {
      if v.Leaf? {
        out := out + [(prefix, Classify(v.origin))];
        return;
      }
      var entries := v.entries;
      ghost var before := out;
      assert before + WalkEntries(v.entries, prefix) == out + WalkEntries(entries, prefix);
      while entries.Entry?
        invariant entries == v.entries || entries < v.entries
        invariant prefix == old(prefix)
        invariant before + WalkEntries(v.entries, prefix) == out + WalkEntries(entries, prefix)
        decreases entries
      {
        var restore := |prefix|;
        ghost var done := out;
        if prefix != "" {
          prefix := prefix + ".";
        }
        prefix := prefix + entries.name;
        assert "" + entries.name == entries.name;
        assert prefix == Extended(old(prefix), entries.name);
        Collect(entries.value);
        prefix := prefix[..restore];
        Associative(done, Walk(entries.value, Extended(prefix, entries.name)), WalkEntries(entries.rest, prefix));
        entries := entries.rest;
      }
      assert out + [] == out;
    }
  }

  // ----- sorting -----

  predicate Ascending(s: seq<Setting>) {
    forall i, j :: 0 <= i < j < |s| ==> AtMost(s[i].0, s[j].0)
  }

  predicate StrictlyAscending(s: seq<Setting>) {
    forall i, j :: 0 <= i < j < |s| ==> Less(s[i].0, s[j].0)
  }

  /** A stable insertion: after every setting with the same key. */
  function Insert(s: seq<Setting>, x: Setting): (r: seq<Setting>)
    requires Ascending(s)
    ensures multiset(r) == multiset(s) + multiset{x}
  {
    if s == [] || !Less(x.0, s[|s| - 1].0) then s + [x]
    else
      assert s == s[..|s| - 1] + [s[|s| - 1]];
      Insert(s[..|s| - 1], x) + [s[|s| - 1]]
  }

  lemma {:induction false} InsertAscending(s: seq<Setting>, x: Setting)
    requires Ascending(s)
    ensures Ascending(Insert(s, x))
    decreases |s|
  {
    if s != [] {
      var n := |s| - 1;
      var last := s[n];
      LessIsTotal(x.0, last.0);
      if Less(x.0, last.0) {
        var front := s[..n];
        InsertAscending(front, x);
        var r := Insert(front, x);
        forall i | 0 <= i < |r|
          ensures AtMost(r[i].0, last.0)
        {
          assert r[i] in multiset(r);
          InsertBelow(front, x, r[i], last);
        }
      } else {
        forall i | 0 <= i < |s|
          ensures AtMost(s[i].0, x.0)
        {
          Below(s, i, last, x);
        }
      }
    }
  }

  lemma InsertBelow(front: seq<Setting>, x: Setting, y: Setting, last: Setting)
    requires Less(x.0, last.0) && y in multiset(front) + multiset{x}
    requires forall i :: 0 <= i < |front| ==> AtMost(front[i].0, last.0)
    ensures AtMost(y.0, last.0)
  {
  }

  lemma Below(s: seq<Setting>, i: nat, last: Setting, x: Setting)
    requires Ascending(s) && i < |s| && last == s[|s| - 1] && AtMost(last.0, x.0)
    ensures AtMost(s[i].0, x.0)
  {
    if i < |s| - 1 && s[i].0 != last.0 && last.0 != x.0 {
      LessIsTransitive(s[i].0, last.0, x.0);
    }
  }

  method SortByKey(out: seq<Setting>) returns (found: seq<Setting>)
    ensures Ascending(found) && multiset(found) == multiset(out)
  {
    found := [];
    for i := 0 to |out|
      invariant Ascending(found) && multiset(found) == multiset(out[..i])
    {
      InsertAscending(found, out[i]);
      found := Insert(found, out[i]);
      assert out[..i + 1] == out[..i] + [out[i]];
    }
    assert out[..|out|] == out;
  }

  /** The settings of the whole tree, sorted by key. */
  method All(root: Value) returns (found: seq<Setting>)
    ensures Ascending(found) && multiset(found) == multiset(Walk(root, ""))
  {
    var collector := new Collector();
    collector.Collect(root);
    assert [] + Walk(root, "") == Walk(root, "");
    found := SortByKey(collector.out);
  }

  /** The settings that are not defaults, in their order. */
  function Supplied(s: seq<Setting>): seq<Setting> {
    if s == [] then []
    else
      var last := s[|s| - 1];
      Supplied(s[..|s| - 1]) + if last.1 == Default then [] else [last]
  }

  lemma {:induction false} SuppliedCounts(s: seq<Setting>, x: Setting)
    ensures multiset(Supplied(s))[x] == if x.1 == Default then 0 else multiset(s)[x]
    decreases |s|
  {
    if s != [] {
      SuppliedCounts(s[..|s| - 1], x);
      assert s == s[..|s| - 1] + [s[|s| - 1]];
    }
  }

  lemma {:induction false} SuppliedAscending(s: seq<Setting>)
    requires Ascending(s)
    ensures Ascending(Supplied(s))
    ensures forall i :: 0 <= i < |Supplied(s)| ==> Supplied(s)[i] in s
    decreases |s|
  {
    if s != [] {
      var front, last := s[..|s| - 1], s[|s| - 1];
      SuppliedAscending(front);
      forall i | 0 <= i < |Supplied(front)|
        ensures AtMost(Supplied(front)[i].0, last.0)
      {
        var j :| 0 <= j < |front| && front[j] == Supplied(front)[i];
        assert s[j] == front[j];
      }
    }
  }

  method Retain(all: seq<Setting>) returns (found: seq<Setting>)
    ensures found == Supplied(all)
  {
    found := [];
    for i := 0 to |all|
      invariant found == Supplied(all[..i])
    {
      assert all[..i + 1][..i] == all[..i];
      if all[i].1 != Default {
        found := found + [all[i]];
      }
    }
    assert all[..|all|] == all;
  }

  lemma SuppliedCount(s: seq<Setting>)
    ensures forall x :: multiset(Supplied(s))[x] == if x.1 == Default then 0 else multiset(s)[x]
  {
    forall x
      ensures multiset(Supplied(s))[x] == if x.1 == Default then 0 else multiset(s)[x]
    {
      SuppliedCounts(s, x);
    }
  }

  /** All settings but the defaults, in the order of their keys. */
  method Overrides(root: Value) returns (found: seq<Setting>)
    ensures Ascending(found)
    ensures forall s :: multiset(found)[s] == if s.1 == Default then 0 else multiset(Walk(root, ""))[s]
  {
    var all := All(root);
    found := Retain(all);
    SuppliedAscending(all);
    SuppliedCount(all);
  }
}
