/** What a crash does to the voter and the proposer: both keep their memory of what they sent in tables of
    the write-behind database, so a restarted node may find an earlier version of it.
    Source: crates/storage/src/lib.rs, crates/storage/src/stores/vote_digest_store.rs and
    crates/storage/src/stores/proposer_store.rs */
module Durability {
  import opened Basics
  import opened Committees
  import L = LayeredDb
  import V = Voting
  import P = ProposerModel
  import PS = ProposerSafety

  // ---------- a table of typed rows ----------

  /** How one table's keys and values are written as bytes. */
  datatype Codec<!K, !T> = Codec(table: L.TableName, key: K -> L.Bytes, value: T -> L.Bytes)

  ghost predicate Injective<K(!new), T(!new)>(c: Codec<K, T>) {
    && (forall j, k :: c.key(j) == c.key(k) ==> j == k)
    && (forall x, y :: c.value(x) == c.value(y) ==> x == y)
  }

  function Table<K, T>(base: map<K, T>, writes: seq<(K, T)>): map<K, T> {
    if writes == [] then base
    else
      var n := |writes| - 1;
      Table(base, writes[..n])[writes[n].0 := writes[n].1]
  }

  /** The operations of `ops` on one table. */
  function Touching(ops: seq<L.Op>, t: L.TableName): seq<L.Op> {
    if ops == [] then []
    else Touching(ops[..|ops| - 1], t) + if ops[|ops| - 1].table == t then [ops[|ops| - 1]] else []
  }

  function Inserts<K, T>(c: Codec<K, T>, writes: seq<(K, T)>): seq<L.Op> {
    seq(|writes|, i requires 0 <= i < |writes| => L.Insert(c.table, c.key(writes[i].0), c.value(writes[i].1)))
  }

  ghost predicate Encodes<K(!new), T>(c: Codec<K, T>, rows: map<L.Bytes, L.Bytes>, m: map<K, T>) {
    && (forall k :: k in m ==> c.key(k) in rows && rows[c.key(k)] == c.value(m[k]))
    && (forall b :: b in rows ==> exists k :: k in m && b == c.key(k))
  }

  lemma {:induction false} ReplayEncodes<K(!new), T(!new)>(c: Codec<K, T>, initial: L.Store, ops: seq<L.Op>,
                                                          base: map<K, T>, writes: seq<(K, T)>)
    requires Injective(c) && c.table in initial && Encodes(c, initial[c.table], base)
    requires Touching(ops, c.table) == Inserts(c, writes)
    ensures c.table in L.Replay(initial, ops) && Encodes(c, L.Replay(initial, ops)[c.table], Table(base, writes))
    decreases |ops|
  {
    if ops == [] {
      assert |Inserts(c, writes)| == 0;
    } else {
      var n := |ops| - 1;
      if ops[n].table != c.table {
        ReplayEncodes(c, initial, ops[..n], base, writes);
      } else {
        var k := |writes| - 1;
        assert Touching(ops[..n], c.table) == Touching(ops, c.table)[..k] == Inserts(c, writes[..k]);
        assert ops[n] == Touching(ops, c.table)[k] == Inserts(c, writes)[k];
        ReplayEncodes(c, initial, ops[..n], base, writes[..k]);
        EncodesMore(c, L.Replay(initial, ops[..n])[c.table], Table(base, writes[..k]), writes[k].0, writes[k].1);
      }
    }
  }

  lemma EncodesMore<K(!new), T(!new)>(c: Codec<K, T>, rows: map<L.Bytes, L.Bytes>, m: map<K, T>, k: K, x: T)
    requires Injective(c) && Encodes(c, rows, m)
    ensures Encodes(c, rows[c.key(k) := c.value(x)], m[k := x])
  {
    var rows', m' := rows[c.key(k) := c.value(x)], m[k := x];
    forall b | b in rows' ensures exists j :: j in m' && b == c.key(j) {
      if b == c.key(k) {
        assert k in m';
      } else {
        var j :| j in m && b == c.key(j);
        assert j in m';
      }
    }
  }

  /** Equal bytes, equal rows. */
  lemma EncodesOnce<K(!new), T(!new)>(c: Codec<K, T>, r: map<L.Bytes, L.Bytes>, m: map<K, T>,
                                     r': map<L.Bytes, L.Bytes>, m': map<K, T>)
    requires Injective(c) && Encodes(c, r, m) && Encodes(c, r', m')
    ensures r == r' <==> m == m'
  {
    if r == r' {
      forall k ensures k in m <==> k in m' {
        if k in m { var j :| j in m' && c.key(k) == c.key(j); }
        if k in m' { var j :| j in m && c.key(k) == c.key(j); }
      }
      forall k | k in m ensures m[k] == m'[k] { assert c.value(m[k]) == c.value(m'[k]); }
      assert m == m';
    }
    if m == m' {
      forall b ensures b in r <==> b in r' {
        if b in r { var k :| k in m && b == c.key(k); }
        if b in r' { var k :| k in m && b == c.key(k); }
      }
      forall b | b in r ensures r[b] == r'[b] { var k :| k in m && b == c.key(k); }
      assert r == r';
    }
  }

  lemma {:induction false} OpsPrefix(log: seq<L.Client>, n: nat)
    requires n <= |log|
    ensures L.Ops(log[..n]) <= L.Ops(log)
  {
    if n == |log| {
      assert log[..n] == log;
    } else {
      var m := |log| - 1;
      OpsPrefix(log[..m], n);
      assert log[..m][..n] == log[..n];
    }
  }

  lemma {:induction false} TouchingPrefix(ops: seq<L.Op>, more: seq<L.Op>, t: L.TableName)
    requires ops <= more
    ensures Touching(ops, t) <= Touching(more, t)
    decreases |more|
  {
    if |ops| < |more| {
      TouchingPrefix(ops, more[..|more| - 1], t);
    } else {
      assert ops == more;
    }
  }

  /** After a crash a table holds the rows of the first `k` writes to it, for some `k`, while clients had
      been reading all of them. */
  lemma RowsAfterCrash<K(!new), T(!new)>(c: Codec<K, T>, initial: L.Store, events: seq<L.Event>,
                                        base: map<K, T>, writes: seq<(K, T)>) returns (k: nat)
    requires Injective(c) && c.table in initial && Encodes(c, initial[c.table], base)
    requires Touching(L.Ops(L.Log(events)), c.table) == Inserts(c, writes)
    ensures var d := L.Run(L.OpenDb(initial), events);
            && k <= |writes| && c.table in d.durable && c.table in d.mem
            && Encodes(c, d.durable[c.table], Table(base, writes[..k]))
            && Encodes(c, d.mem[c.table], Table(base, writes))
  {
    var idle := L.CrashConsistency(initial, events);
    var log := L.Log(events);
    OpsPrefix(log, idle);
    TouchingPrefix(L.Ops(log[..idle]), L.Ops(log), c.table);
    k := |Touching(L.Ops(log[..idle]), c.table)|;
    assert Touching(L.Ops(log[..idle]), c.table) == Inserts(c, writes)[..k] == Inserts(c, writes[..k]);
    ReplayEncodes(c, initial, L.Ops(log[..idle]), base, writes[..k]);
    ReplayEncodes(c, initial, L.Ops(log), base, writes);
  }

  // ---------- votes ----------

  /** The vote one event writes, if any. */
  function VoteWritten(now: V.Voter, e: V.Event): seq<(AuthorityId, V.VoteInfo)> {
    if e.Write? && e.task in now.reading
    then [(now.reading[e.task].author, V.InfoOf(now.reading[e.task]))] else []
  }

  /** The votes a run writes, in order. */
  function VoteWrites(v: V.Voter, events: seq<V.Event>): seq<(AuthorityId, V.VoteInfo)> {
    if events == [] then []
    else
      var n := |events| - 1;
      VoteWrites(v, events[..n]) + VoteWritten(V.Run(v, events[..n]), events[n])
  }

  lemma TableMore<K, T>(base: map<K, T>, writes: seq<(K, T)>, more: seq<(K, T)>)
    requires |more| <= 1
    ensures Table(base, writes + more) == Table(Table(base, writes), more)
  {
    if more == [] {
      assert writes + more == writes;
    } else {
      assert (writes + more)[..|writes|] == writes && more[..0] == [];
    }
  }

  lemma StepWrites(now: V.Voter, e: V.Event)
    ensures V.Step(now, e).store == Table(now.store, VoteWritten(now, e))
  {
    var w := VoteWritten(now, e);
    if w != [] { assert w[..0] == []; }
  }

  lemma {:induction false} StoreIsTable(v: V.Voter, events: seq<V.Event>)
    ensures V.Run(v, events).store == Table(v.store, VoteWrites(v, events))
  {
    if events != [] {
      var n := |events| - 1;
      var now := V.Run(v, events[..n]);
      StoreIsTable(v, events[..n]);
      StepWrites(now, events[n]);
      TableMore(v.store, VoteWrites(v, events[..n]), VoteWritten(now, events[n]));
    }
  }

  lemma OlderTransitive(d: V.Votes, e: V.Votes, f: V.Votes, epoch: nat)
    requires V.Older(d, e, epoch) && V.Older(e, f, epoch)
    ensures V.Older(d, f, epoch)
  {}

  lemma StepIsOlder(v: V.Voter, e: V.Event)
    requires V.Sound(v) && !V.StaleWrite(v, e)
    ensures V.Older(v.store, V.Step(v, e).store, v.epoch)
  {}

  /** With no stale write, every earlier version of the table is older in each row. */
  lemma {:induction false} PrefixIsOlder(v: V.Voter, events: seq<V.Event>, k: nat)
    requires V.Sound(v) && V.NoStaleWrite(v, events) && k <= |VoteWrites(v, events)|
    ensures V.Older(Table(v.store, VoteWrites(v, events)[..k]), V.Run(v, events).store, v.epoch)
  {
    var all := VoteWrites(v, events);
    if k == |all| {
      StoreIsTable(v, events);
      V.RunKeepsSound(v, events);
      assert all[..k] == all;
    } else {
      var n := |events| - 1;
      var w, now := VoteWrites(v, events[..n]), V.Run(v, events[..n]);
      assert all[..k] == w[..k];
      PrefixIsOlder(v, events[..n], k);
      V.RunKeepsSound(v, events[..n]);
      V.EpochKept(v, events[..n]);
      StepIsOlder(now, events[n]);
      OlderTransitive(Table(v.store, w[..k]), now.store, V.Run(v, events).store, v.epoch);
    }
  }

  /** After a crash the voter can vote a second time for some slot exactly when the durable votes table is
      behind the one it had been reading: when a vote it cast had not become durable. */
  lemma CrashVotesTwiceIff(c: Codec<AuthorityId, V.VoteInfo>, initial: L.Store, dbEvents: seq<L.Event>,
                           v: V.Voter, events: seq<V.Event>) returns (found: V.Votes)
    requires Injective(c) && c.table in initial && Encodes(c, initial[c.table], v.store)
    requires V.Sound(v) && V.NoStaleWrite(v, events)
    requires Touching(L.Ops(L.Log(dbEvents)), c.table) == Inserts(c, VoteWrites(v, events))
    ensures var d := L.Run(L.OpenDb(initial), dbEvents);
            && c.table in d.durable && c.table in d.mem && Encodes(c, d.durable[c.table], found)
            && (V.SafeNow(V.Crashed(V.Run(v, events), found)) <==> d.durable[c.table] == d.mem[c.table])
  {
    var writes := VoteWrites(v, events);
    var k := RowsAfterCrash(c, initial, dbEvents, v.store, writes);
    found := Table(v.store, writes[..k]);
    var d := L.Run(L.OpenDb(initial), dbEvents);
    StoreIsTable(v, events);
    PrefixIsOlder(v, events, k);
    V.RunKeepsSound(v, events);
    V.EpochKept(v, events);
    V.CrashSafeIffDurable(V.Run(v, events), found);
    EncodesOnce(c, d.durable[c.table], found, d.mem[c.table], Table(v.store, writes));
  }

  // ---------- the last proposed header ----------

  const LAST_PROPOSAL_KEY: nat := 0

  function Found(rows: map<nat, P.Header>): Option<P.Header> {
    if LAST_PROPOSAL_KEY in rows then Some(rows[LAST_PROPOSAL_KEY]) else None
  }

  function StoredHeaders(stored: seq<P.Header>): seq<(nat, P.Header)> {
    seq(|stored|, i requires 0 <= i < |stored| => (LAST_PROPOSAL_KEY, stored[i]))
  }

  lemma {:induction false} LastStored(stored: seq<P.Header>)
    ensures Found(Table(map[], StoredHeaders(stored))) == if stored == [] then None else Some(stored[|stored| - 1])
    ensures forall k :: k in Table(map[], StoredHeaders(stored)) ==> k == LAST_PROPOSAL_KEY
  {
    if stored != [] {
      var n := |stored| - 1;
      LastStored(stored[..n]);
      assert StoredHeaders(stored)[..n] == StoredHeaders(stored[..n]);
    }
  }

  /** After a crash the proposer finds a header it stored earlier, or none; it finds the last one exactly when
      its row in the durable store is the one it had been reading. */
  lemma FoundAfterCrash(c: Codec<nat, P.Header>, initial: L.Store, dbEvents: seq<L.Event>, stored: seq<P.Header>)
    returns (found: Option<P.Header>)
    requires Injective(c) && c.table in initial && initial[c.table] == map[] && stored != []
    requires Touching(L.Ops(L.Log(dbEvents)), c.table) == Inserts(c, StoredHeaders(stored))
    ensures var d := L.Run(L.OpenDb(initial), dbEvents);
            && c.table in d.durable && c.table in d.mem
            && (found.Some? ==> found.value in stored)
            && (found == Some(stored[|stored| - 1]) <==> d.durable[c.table] == d.mem[c.table])
  {
    var writes := StoredHeaders(stored);
    var k := RowsAfterCrash(c, initial, dbEvents, map[], writes);
    assert writes[..k] == StoredHeaders(stored[..k]);
    var rows, all := Table(map[], writes[..k]), Table(map[], writes);
    found := Found(rows);
    LastStored(stored[..k]);
    LastStored(stored);
    assert rows == all <==> Found(rows) == Found(all);
    var d := L.Run(L.OpenDb(initial), dbEvents);
    EncodesOnce(c, d.durable[c.table], rows, d.mem[c.table], all);
  }

  /** About to propose for the round of the newest header it sent, a restarted proposer can be relied on to
      send one header per round exactly when that header had become durable. */
  lemma CrashProposesTwiceIff(c: Codec<nat, P.Header>, initial: L.Store, dbEvents: seq<L.Event>,
                              stored: seq<P.Header>, cfg: P.Config, before: P.State, bus: nat,
                              genesis: seq<P.Certificate>, arm: P.Arm, env: P.Env, cert: P.Certificate)
    returns (found: Option<P.Header>)
    requires Injective(c) && c.table in initial && initial[c.table] == map[] && stored != []
    requires Touching(L.Ops(L.Log(dbEvents)), c.table) == Inserts(c, StoredHeaders(stored))
    requires PS.OneHeader(before) && PS.Newest(before, stored[|stored| - 1]) && env.meta != stored[|stored| - 1].meta
    ensures var d := L.Run(L.OpenDb(initial), dbEvents);
            var s := P.Step(cfg, before, P.Restart(found, bus, before.epoch, genesis));
            var a := P.ApplyArm(cfg, s, arm, env);
            && c.table in d.durable && c.table in d.mem && (found.Some? ==> found.value in stored)
            && (P.ShouldPropose(cfg, a) && P.NextRound(a) == stored[|stored| - 1].round ==>
                  (PS.SendsOnce(cfg, P.Turn(cfg, s, arm, env)) <==> d.durable[c.table] == d.mem[c.table]))
  {
    found := FoundAfterCrash(c, initial, dbEvents, stored);
    PS.RestartSafeIffFound(cfg, before, found, bus, genesis, arm, env, cert, stored[|stored| - 1]);
  }
}
