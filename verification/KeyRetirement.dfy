/** The migration that retires superseded verification keys, as set-based updates of the table of keys. */
module KeyRetirement {
  import opened Common

  type Time = int

  /** The purposes that the table allows. */
  datatype Purpose = TransportIdentity | AgentState

  datatype Row = Row(agent: string, purpose: Purpose, registeredAt: Time, retiredAt: Option<Time>)

  /** The table by key id, which is its primary key. */
  type Rows = map<string, Row>

  predicate SameGroup(a: Row, b: Row) {
    a.agent == b.agent && a.purpose == b.purpose
  }

  // ----- queries -----

  /** The registration times of newer keys of the same agent and purpose. */
  function Newer(rows: Rows, row: Row): set<Time> {
    set k | k in rows && SameGroup(rows[k], row) && rows[k].registeredAt > row.registeredAt :: rows[k].registeredAt
  }

  /** The keys of the same agent and purpose that are not retired. */
  function Active(rows: Rows, row: Row): set<string> {
    set k | k in rows && SameGroup(rows[k], row) && rows[k].retiredAt.None?
  }

  predicate IsSmallest(times: set<Time>, t: Time) {
    t in times && forall u :: u in times ==> t <= u
  }

  lemma Member<T>(s: set<T>) returns (t: T)
    requires s != {}
    ensures t in s
  {
    t :| t in s;
  }

  lemma {:induction false} SmallestExists(times: set<Time>)
    requires times != {}
    ensures exists t :: IsSmallest(times, t)
    decreases |times|
  {
    var t := Member(times);
    var rest := times - {t};
    if rest == {} {
      assert times == {t};
      assert IsSmallest(times, t);
    } else {
      SmallestExists(rest);
      var s :| IsSmallest(rest, s);
      assert times == rest + {t};
      assert IsSmallest(times, if t <= s then t else s);
    }
  }

  /** `MIN`: the least of a set of times. */
  function Smallest(times: set<Time>): (t: Time)
    requires times != {}
    ensures IsSmallest(times, t)
  {
    SmallestExists(times);
    var t :| IsSmallest(times, t);
    t
  }

  // ----- the two updates -----

  /** The first update: a key with a newer key was retired when the next newer one was registered. */
  function Superseded(rows: Rows, row: Row): Row {
    if Newer(rows, row) == {} then row else row.(retiredAt := Some(Smallest(Newer(rows, row))))
  }

  function RetireSuperseded(rows: Rows): Rows {
    map k | k in rows :: Superseded(rows, rows[k])
  }

  /** The second update chooses among keys that were registered at the same latest time. */
  predicate Ambiguous(rows: Rows, agents: map<string, string>, key: string)
    requires key in rows
  {
    var row := rows[key];
    && row.retiredAt.None?
    && match row.purpose
       case TransportIdentity => row.agent in agents && key != agents[row.agent]
       case AgentState => |Active(rows, row)| > 1
  }

  function RetireAmbiguous(rows: Rows, agents: map<string, string>, now: Time): Rows {
    map k | k in rows :: if Ambiguous(rows, agents, k) then rows[k].(retiredAt := Some(now)) else rows[k]
  }

  // ----- what the updates leave -----

  /** No newer key of the same agent and purpose exists. */
  predicate Latest(rows: Rows, key: string)
    requires key in rows
  {
    forall k :: k in rows && SameGroup(rows[k], rows[key]) ==> rows[k].registeredAt <= rows[key].registeredAt
  }

  /** Every agent of a key exists, and every column of retirement is new. */
  predicate Fresh(rows: Rows, agents: map<string, string>) {
    forall k :: k in rows ==> rows[k].agent in agents && rows[k].retiredAt.None?
  }

  lemma NewerEmpty(rows: Rows, key: string)
    requires key in rows
    ensures Newer(rows, rows[key]) == {} <==> Latest(rows, key)
  {
    forall k | k in rows && SameGroup(rows[k], rows[key])
      ensures rows[k].registeredAt <= rows[key].registeredAt || rows[k].registeredAt in Newer(rows, rows[key])
    {
    }
  }

  /** The first update keeps exactly the latest keys, and retires every other at the next newer registration. */
  lemma FirstUpdate(rows: Rows, agents: map<string, string>, key: string)
    requires Fresh(rows, agents) && key in rows
    ensures
      var row, after := rows[key], RetireSuperseded(rows)[key];
      && after == row.(retiredAt := after.retiredAt)
      && (after.retiredAt.None? <==> Latest(rows, key))
      && (after.retiredAt.Some? ==>
            && after.retiredAt.value > row.registeredAt
            && (exists k :: k in rows && SameGroup(rows[k], row) && rows[k].registeredAt == after.retiredAt.value)
            && forall k :: k in rows && SameGroup(rows[k], row) && rows[k].registeredAt > row.registeredAt ==>
                 after.retiredAt.value <= rows[k].registeredAt)
  {
    NewerEmpty(rows, key);
    if !Latest(rows, key) {
      var t := Smallest(Newer(rows, rows[key]));
      assert t in Newer(rows, rows[key]);
      forall k | k in rows && SameGroup(rows[k], rows[key]) && rows[k].registeredAt > rows[key].registeredAt
        ensures t <= rows[k].registeredAt
      {
        assert rows[k].registeredAt in Newer(rows, rows[key]);
      }
    }
  }

  /** No other key of the same agent and purpose was registered as late. */
  predicate SoleLatest(rows: Rows, key: string)
    requires key in rows
  {
    forall k :: k in rows && k != key && SameGroup(rows[k], rows[key]) ==> rows[k].registeredAt < rows[key].registeredAt
  }

  /** The keys that stay active, from the table as it was before. */
  predicate Survives(rows: Rows, agents: map<string, string>, key: string)
    requires key in rows && rows[key].agent in agents
  {
    match rows[key].purpose
    case TransportIdentity => Latest(rows, key) && agents[rows[key].agent] == key
    case AgentState => SoleLatest(rows, key)
  }

  function Migrated(rows: Rows, agents: map<string, string>, now: Time): Rows {
    RetireAmbiguous(RetireSuperseded(rows), agents, now)
  }

  lemma TwoMembers<T>(s: set<T>, a: T, b: T)
    requires a in s && b in s && a != b
    ensures |s| > 1
  {
    assert {a, b} <= s;
    assert s == {a, b} + (s - {a, b});
    assert |{a, b}| == 2;
  }

  lemma AnotherMember<T>(s: set<T>, a: T) returns (b: T)
    requires a in s && |s| > 1
    ensures b in s && b != a
  {
    assert |s - {a}| == |s| - 1;
    b :| b in s - {a};
  }

  /** Two keys of one agent and purpose that are both latest were registered at the same time. */
  lemma ActiveAreLatest(rows: Rows, agents: map<string, string>, key: string)
    requires Fresh(rows, agents) && key in rows && Latest(rows, key)
    ensures
      var after := RetireSuperseded(rows);
      |Active(after, after[key])| > 1 <==> !SoleLatest(rows, key)
  {
    var after := RetireSuperseded(rows);
    var active := Active(after, after[key]);
    FirstUpdate(rows, agents, key);
    assert key in active;
    if |active| > 1 {
      var other := AnotherMember(active, key);
      FirstUpdate(rows, agents, other);
      assert SameGroup(rows[other], rows[key]) && rows[key].registeredAt <= rows[other].registeredAt;
    }
    if !SoleLatest(rows, key) {
      var other :|
        && other in rows && other != key && SameGroup(rows[other], rows[key])
        && rows[other].registeredAt >= rows[key].registeredAt;
      FirstUpdate(rows, agents, other);
      assert Latest(rows, other);
      TwoMembers(active, key, other);
    }
  }

  /** A key stays active exactly when it survives. */
  lemma SurvivorsStayActive(rows: Rows, agents: map<string, string>, now: Time, key: string)
    requires Fresh(rows, agents) && key in rows
    ensures Migrated(rows, agents, now)[key].retiredAt.None? <==> Survives(rows, agents, key)
    ensures Migrated(rows, agents, now)[key] == rows[key].(retiredAt := Migrated(rows, agents, now)[key].retiredAt)
  {
    FirstUpdate(rows, agents, key);
    if Latest(rows, key) {
      ActiveAreLatest(rows, agents, key);
    }
  }

  predicate BothActive(a: Row, b: Row) {
    SameGroup(a, b) && a.retiredAt.None? && b.retiredAt.None?
  }

  /** What the unique index demands. */
  predicate IndexHolds(rows: Rows) {
    forall j, k :: j in rows && k in rows && BothActive(rows[j], rows[k]) ==> j == k
  }

  /** The unique index can always be built: at most one key of each agent and purpose stays active. */
  lemma IndexAlwaysBuilds(rows: Rows, agents: map<string, string>, now: Time)
    requires Fresh(rows, agents)
    ensures IndexHolds(Migrated(rows, agents, now))
  {
    var after := Migrated(rows, agents, now);
    forall j, k | j in after && k in after && BothActive(after[j], after[k])
      ensures j == k
    {
      SurvivorsStayActive(rows, agents, now, j);
      SurvivorsStayActive(rows, agents, now, k);
    }
  }

  predicate TransportKeyOf(row: Row, agent: string) {
    row.agent == agent && row.purpose.TransportIdentity?
  }

  /**
   * An agent keeps an active transport key exactly when its current key was registered as its transport key and none
   * was registered later.
   */
  lemma CurrentKeyStaysActive(rows: Rows, agents: map<string, string>, now: Time, agent: string)
    requires Fresh(rows, agents) && agent in agents
    ensures
      var after, current := Migrated(rows, agents, now), agents[agent];
      (exists k :: k in after && TransportKeyOf(after[k], agent) && after[k].retiredAt.None?) <==>
      current in rows && TransportKeyOf(rows[current], agent) && Latest(rows, current)
  {
    var after, current := Migrated(rows, agents, now), agents[agent];
    forall k | k in after
      ensures after[k].retiredAt.None? <==> Survives(rows, agents, k)
      ensures after[k].agent == rows[k].agent && after[k].purpose == rows[k].purpose
    {
      SurvivorsStayActive(rows, agents, now, k);
    }
  }

  /** A later transport key than the current one: after the migration the agent has no active transport key at all. */
  lemma CurrentKeyCanRetire(agent: string, now: Time)
    ensures
      var rows := map[
        "old" := Row(agent, TransportIdentity, 1, None),
        "new" := Row(agent, TransportIdentity, 2, None)];
      var agents := map[agent := "old"];
      Fresh(rows, agents) && forall k :: k in rows ==> Migrated(rows, agents, now)[k].retiredAt.Some?
  {
    var rows := map[
      "old" := Row(agent, TransportIdentity, 1, None),
      "new" := Row(agent, TransportIdentity, 2, None)];
    var agents := map[agent := "old"];
    assert SameGroup(rows["new"], rows["old"]) && rows["new"].registeredAt > rows["old"].registeredAt;
    SurvivorsStayActive(rows, agents, now, "old");
    SurvivorsStayActive(rows, agents, now, "new");
  }

  // ----- the table -----

  class KeyTable {
    var rows: Rows

    constructor (initial: Rows)
      ensures rows == initial
    {
      rows := initial;
    }

    /** The statements of the migration, in order; the last fails when the index cannot be built. */
    method Up(agents: map<string, string>, now: Time) returns (ok: bool)
      requires Fresh(rows, agents)
      modifies this
      ensures ok && IndexHolds(rows) && rows == Migrated(old(rows), agents, now)
      ensures rows.Keys == old(rows).Keys
      ensures forall k :: k in rows ==> (rows[k].retiredAt.None? <==> Survives(old(rows), agents, k))
    {
      ghost var before := rows;
      rows := RetireSuperseded(rows);
      rows := RetireAmbiguous(rows, agents, now);
      IndexAlwaysBuilds(before, agents, now);
      forall k | k in rows
        ensures rows[k].retiredAt.None? <==> Survives(before, agents, k)
      {
        SurvivorsStayActive(before, agents, now, k);
      }
      ok := IndexHolds(rows);
    }
  }
}
