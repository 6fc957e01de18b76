/** The Bullshark instance of one node: its dag, the commit bookkeeping and `process_certificate`,
    shown to produce exactly the histories of `BullsharkModel`.
    Source: crates/consensus/primary/src/consensus/bullshark.rs, utils.rs and state.rs */
module Bullshark {
  import opened Basics
  import opened Committees
  import opened BullsharkModel

  /** The dag by round and author; a round is present when some certificate of it is. */
  datatype Slot = At(round: nat, author: AuthorityId)

  type Dag = map<Slot, Cert>

  datatype Outcome =
    | CertificateBelowCommitRound
    | NoLeaderElectedForOddRound
    | LeaderBelowCommitRound
    | LeaderNotFound
    | NotEnoughSupportForLeader
    | ScheduleChanged
    | Commit

  datatype ConsensusError = MissingParent | MissingParentRound | CertificateEquivocation

  function SlotOf(x: Cert): Slot { At(x.round, x.author) }

  predicate Holds(dag: Dag, x: Cert) { SlotOf(x) in dag && dag[SlotOf(x)] == x }

  predicate HasRound(dag: Dag, r: nat) { exists k :: k in dag && k.round == r }

  function Purge(dag: Dag, gc: nat): Dag { map k | k in dag && k.round > gc :: dag[k] }

  /** Only certificates that exist, each in its slot and above the garbage-collected rounds. */
  ghost predicate Stored(u: set<Cert>, dag: Dag, gc: nat) {
    forall k {:trigger dag[k]} :: k in dag ==> dag[k] in u && k == SlotOf(dag[k]) && k.round > gc
  }

  ghost predicate HasParents(dag: Dag, x: Cert) { forall p :: p in x.parents ==> Holds(dag, p) }

  /** Every certificate has its parents in the dag, unless they have been garbage collected. */
  ghost predicate Closed(dag: Dag, gc: nat) {
    forall k {:trigger HasParents(dag, dag[k])} :: k in dag && k.round > gc + 1 ==> HasParents(dag, dag[k])
  }

  /** Ancestors above the garbage-collected rounds are all there. */
  lemma {:induction false} AncestorsHeld(c: Committee, u: set<Cert>, dag: Dag, gc: nat, x: Cert, y: Cert)
    requires World(c, u) && Stored(u, dag, gc) && Closed(dag, gc)
    requires Holds(dag, x) && Reach(x, y) && y.round > gc
    ensures Holds(dag, y)
    decreases x
  {
    assert dag[SlotOf(x)] == x && x in u;
    if x != y {
      var i :| 0 <= i < |x.parents| && Reach(x.parents[i], y);
      var p := x.parents[i];
      assert p in x.parents && SoundParents(c, u, x);
      if x.round >= 2 {
        assert p in ParentSet(x);
        ReachInWorld(c, u, p, y);
        assert HasParents(dag, dag[SlotOf(x)]);
        AncestorsHeld(c, u, dag, gc, p, y);
      }
    }
  }

  lemma {:induction false} LastStep(c: Committee, u: set<Cert>, x: Cert, y: Cert) returns (z: Cert)
    requires World(c, u) && x in u && Reach(x, y) && 0 < y.round < x.round
    ensures z in u && Reach(x, z) && y in z.parents && z.round == y.round + 1
    decreases x
  {
    var i :| 0 <= i < |x.parents| && Reach(x.parents[i], y);
    var p := x.parents[i];
    assert p in x.parents && SoundParents(c, u, x) && p in ParentSet(x);
    if p == y {
      z := x;
    } else {
      ReachInWorld(c, u, p, y);
      z := LastStep(c, u, p, y);
      ReachParent(x, p, z);
    }
  }

  /** `linked`: is there a path between two leaders? */
  method Linked(cfg: Config, ghost u: set<Cert>, dag: Dag, ghost gc: nat, leader: Cert, prev: Cert) returns (r: bool)
    requires World(cfg.committee, u) && Stored(u, dag, gc) && Closed(dag, gc)
    requires Holds(dag, leader) && Holds(dag, prev) && prev.round < leader.round
    ensures r <==> Reach(leader, prev)
  {
    var parents, round := {leader}, leader.round;
    assert dag[SlotOf(leader)] == leader && dag[SlotOf(prev)] == prev;
    forall y | Holds(dag, y) && y.round == round && Reach(leader, y) ensures y in parents {
      ReachInWorld(cfg.committee, u, leader, y);
    }
    while round > prev.round
      invariant prev.round <= round <= leader.round
      invariant forall y :: y in parents <==> Holds(dag, y) && y.round == round && Reach(leader, y)
    {
      var next := set k |
        k in dag && k.round == round - 1 && (exists x :: x in parents && dag[k] in x.parents) :: dag[k];
      forall y ensures y in next <==> Holds(dag, y) && y.round == round - 1 && Reach(leader, y) {
        PathGrows(cfg.committee, u, dag, gc, leader, parents, round, y);
      }
      parents, round := next, round - 1;
    }
    r := prev in parents;
  }

  lemma PathGrows(c: Committee, u: set<Cert>, dag: Dag, gc: nat, leader: Cert, parents: set<Cert>, round: nat, y: Cert)
    requires World(c, u) && Stored(u, dag, gc) && Closed(dag, gc) && Holds(dag, leader)
    requires gc < round - 1 < leader.round
    requires forall y :: y in parents <==> Holds(dag, y) && y.round == round && Reach(leader, y)
    ensures (&& SlotOf(y) in dag && dag[SlotOf(y)] == y && y.round == round - 1
             && exists x :: x in parents && y in x.parents)
            <==> Holds(dag, y) && y.round == round - 1 && Reach(leader, y)
  {
    assert dag[SlotOf(leader)] == leader;
    if Holds(dag, y) && y.round == round - 1 {
      if x :| x in parents && y in x.parents {
        ReachParent(x, y, y);
        ReachTransitive(leader, x, y);
      }
      if Reach(leader, y) {
        var z := LastStep(c, u, leader, y);
        AncestorsHeld(c, u, dag, gc, leader, z);
      }
    }
  }

  /** `order_leaders`: the leaders to commit, lowest round first. */
  method OrderLeaders(cfg: Config, ghost u: set<Cert>, table: seq<SubDag>, dag: Dag, ghost gc: nat, top: Cert,
                      committedRound: nat)
    returns (toCommit: seq<Cert>)
    requires World(cfg.committee, u) && Stored(u, dag, gc) && Closed(dag, gc) && gc <= committedRound
    requires Holds(dag, top) && top.round % 2 == 0 && committedRound % 2 == 0 && top.round > committedRound
    ensures toCommit == Leaders(cfg, table, top, Below(top.round), committedRound)
  {
    toCommit := [top];
    var leader, r := top, top.round - 2;
    while r >= committedRound + 2
      invariant r % 2 == 0 && committedRound <= r && r + 2 <= leader.round
      invariant Holds(dag, leader)
      invariant Walked(cfg, table, top, committedRound, leader, r, toCommit)
      decreases r
    {
      var slot := At(r, cfg.elect(table, r));
      if slot in dag {
        var prev := dag[slot];
        assert Holds(dag, prev);
        var linked := Linked(cfg, u, dag, gc, leader, prev);
        FoundIffLinked(cfg.committee, u, dag, gc, leader, prev);
        if linked {
          WalkedOn(cfg, table, top, committedRound, leader, r, toCommit);
          toCommit, leader := [prev] + toCommit, prev;
        }
      } else {
        NotFound(cfg.committee, u, dag, gc, leader, r, cfg.elect(table, r));
      }
      r := r - 2;
    }
    assert [leader] + toCommit[1..] == toCommit;
  }

  /** The list is split between what is collected and what the rest of the walk will put in front. */
  ghost predicate Walked(cfg: Config, table: seq<SubDag>, top: Cert, floor: nat, leader: Cert, r: nat,
                         toCommit: seq<Cert>) {
    && toCommit != [] && toCommit[0] == leader
    && Leaders(cfg, table, top, Below(top.round), floor) == Leaders(cfg, table, leader, r, floor) + toCommit[1..]
  }

  lemma WalkedOn(cfg: Config, table: seq<SubDag>, top: Cert, floor: nat, leader: Cert, r: nat, toCommit: seq<Cert>)
    requires Walked(cfg, table, top, floor, leader, r, toCommit) && r > floor && r >= 2
    requires Find(leader, r, cfg.elect(table, r)).Some?
    ensures var prev := Find(leader, r, cfg.elect(table, r)).value;
            Walked(cfg, table, top, floor, prev, r - 2, [prev] + toCommit)
  {
    var prev := Find(leader, r, cfg.elect(table, r)).value;
    var rest := Leaders(cfg, table, prev, r - 2, floor);
    assert rest + [leader] + toCommit[1..] == rest + toCommit;
    assert ([prev] + toCommit)[1..] == toCommit;
  }

  lemma FoundIffLinked(c: Committee, u: set<Cert>, dag: Dag, gc: nat, leader: Cert, prev: Cert)
    requires World(c, u) && Stored(u, dag, gc) && Holds(dag, leader) && Holds(dag, prev)
    ensures Find(leader, prev.round, prev.author) == if Reach(leader, prev) then Some(prev) else None
  {
    assert dag[SlotOf(leader)] == leader && dag[SlotOf(prev)] == prev;
    FindIffReach(c, u, leader, prev);
  }

  lemma NotFound(c: Committee, u: set<Cert>, dag: Dag, gc: nat, x: Cert, round: nat, author: AuthorityId)
    requires World(c, u) && Stored(u, dag, gc) && Closed(dag, gc) && Holds(dag, x)
    requires round > gc && At(round, author) !in dag
    ensures Find(x, round, author).None?
  {
    if Find(x, round, author).Some? {
      FoundIsReached(x, round, author);
      AncestorsHeld(c, u, dag, gc, x, Find(x, round, author).value);
    }
  }

  /** `order_dag`: the sub-dag of a leader, flattened. */
  method OrderDag(cfg: Config, ghost u: set<Cert>, dag: Dag, ghost gc: nat, last: LastRounds, leader: Cert)
    returns (ordered: seq<Cert>)
    requires World(cfg.committee, u) && Stored(u, dag, gc) && Closed(dag, gc)
    requires Holds(dag, leader) && cfg.gcDepth > 0 && gc <= GcRound(leader.round, cfg.gcDepth)
    ensures ordered == SortByRound(Search([leader], {}, [], last, GcRound(leader.round, cfg.gcDepth)))
  {
    var gcRound := GcRound(leader.round, cfg.gcDepth);
    var buffer, seen := [leader], {};
    ordered := [];
    assert dag[SlotOf(leader)] == leader && SoundParents(cfg.committee, u, leader);
    while buffer != []
      invariant SearchInv(leader, buffer, seen, ordered, last, gcRound)
      invariant Search([leader], {}, [], last, gcRound) == Search(buffer, seen, ordered, last, gcRound)
      decreases StackSize(buffer)
    {
      var x, rest := buffer[|buffer| - 1], buffer[..|buffer| - 1];
      OnStack(cfg.committee, u, dag, gc, leader, buffer, seen, ordered, last, gcRound);
      ExpandKeepsInv(cfg.committee, u, leader, buffer, seen, ordered, last, gcRound);
      PushedSize(x, |x.parents|, rest, seen, last);
      if x.round == gcRound + 1 {
        buffer := rest;
      } else {
        buffer, seen := PushParents(dag, x, rest, seen, last);
      }
      ordered := ordered + [x];
    }
    ordered := SortByRound(ordered);
  }

  lemma OnStack(c: Committee, u: set<Cert>, dag: Dag, gc: nat, leader: Cert, stack: seq<Cert>, seen: set<Cert>,
                ordered: seq<Cert>, last: LastRounds, gcRound: nat)
    requires World(c, u) && Stored(u, dag, gc) && Closed(dag, gc) && Holds(dag, leader) && leader in u
    requires gc <= gcRound < leader.round && stack != []
    requires SearchInv(leader, stack, seen, ordered, last, gcRound)
    ensures stack[|stack| - 1].round > gcRound
    ensures stack[|stack| - 1].round > gcRound + 1 ==> HasParents(dag, stack[|stack| - 1])
  {
    var x := stack[|stack| - 1];
    assert multiset(stack)[x] > 0;
    OnPath(c, u, leader, x, last, gcRound);
    HangsIsReach(leader, x, last, gcRound);
    AncestorsHeld(c, u, dag, gc, leader, x);
    assert x.round > gcRound + 1 ==> HasParents(dag, dag[SlotOf(x)]);
  }

  /** The inner loop of `order_dag` over the parents of one certificate. */
  method PushParents(dag: Dag, x: Cert, rest: seq<Cert>, seen0: set<Cert>, last: LastRounds)
    returns (buffer: seq<Cert>, seen: set<Cert>)
    requires HasParents(dag, x)
    ensures (buffer, seen) == Push(x, |x.parents|, rest, seen0, last)
  {
    buffer, seen := rest, seen0;
    var n := 0;
    while n < |x.parents|
      invariant 0 <= n <= |x.parents| && (buffer, seen) == Push(x, n, rest, seen0, last)
    {
      var parent := x.parents[n];
      if Holds(dag, parent) {
        var skip := parent in seen || Done(last, parent);
        if !skip { buffer, seen := buffer + [parent], seen + {parent}; }
      }
      n := n + 1;
    }
  }

  /** `ConsensusState`, with the swap table and the sub-dags committed so far. The table is identified
      with the sub-dags its scores were computed from. */
  datatype State = State(dag: Dag, lastCommitted: LastRounds, committedRound: nat, gcRound: nat,
                         swapTable: seq<SubDag>, committed: seq<SubDag>)

  /** The dag is closed under parents, the history is one the commit rule allows on the certificates that
      exist, and the rest of the state is determined by it. */
  ghost predicate ValidState(cfg: Config, u: set<Cert>, s: State) {
    && World(cfg.committee, u) && cfg.gcDepth > 0
    && Stored(u, s.dag, s.gcRound) && Closed(s.dag, s.gcRound)
    && ValidHistory(cfg, u, s.committed)
    && Derived(cfg, s)
  }

  ghost predicate Derived(cfg: Config, s: State) {
    && s.lastCommitted == LastCommitted(s.committed)
    && s.committedRound == CommittedRound(s.committed) && s.committedRound % 2 == 0
    && s.gcRound == GcRound(s.committedRound, cfg.gcDepth)
    && s.swapTable == ActiveTable(cfg, s.committed)
  }

  /** The elected leader of a round is in the dag, with enough support in the next round. */
  predicate SupportedIn(cfg: Config, s: State, round: nat) {
    var slot := At(round, cfg.elect(s.swapTable, round));
    slot in s.dag && cfg.committee.Weight(SupportersOf(s.dag, s.dag[slot])) >= cfg.committee.Validity()
  }

  /** Another certificate of the same author and round is in the dag. */
  predicate Rivals(dag: Dag, x: Cert) { SlotOf(x) in dag && dag[SlotOf(x)] != x }

  ghost predicate MissesParents(dag: Dag, gc: nat, x: Cert) {
    x.round > gc + 1 && (!HasRound(dag, x.round - 1) || !HasParents(dag, x))
  }

  /** The dag takes the certificate in. */
  ghost predicate Accepts(s: State, x: Cert) {
    x.round > s.gcRound && !MissesParents(s.dag, s.gcRound, x) && !Rivals(s.dag, x)
  }

  function WithCert(s: State, x: Cert): State { s.(dag := s.dag[SlotOf(x) := x]) }

  predicate HasLeader(cfg: Config, s: State, round: nat) { At(round, cfg.elect(s.swapTable, round)) in s.dag }

  /** The commit rule lets the node commit at the round on what its dag holds: the elected leader is there with
      supporters that are there. */
  ghost predicate CanCommitAt(cfg: Config, u: set<Cert>, s: State, round: nat) {
    exists top, supporters {:trigger Committable(cfg, u, s.committed, top, supporters)} ::
      && Committable(cfg, u, s.committed, top, supporters) && top.round == round
      && Holds(s.dag, top) && AllHeld(s.dag, supporters)
  }

  ghost predicate AllHeld(dag: Dag, certs: set<Cert>) { forall y :: y in certs ==> Holds(dag, y) }

  /** Counting support in the dag decides exactly that. */
  lemma SupportedIffCanCommit(cfg: Config, u: set<Cert>, s: State, round: nat)
    requires ValidState(cfg, u, s) && round % 2 == 0 && round > s.committedRound
    ensures SupportedIn(cfg, s, round) <==> CanCommitAt(cfg, u, s, round)
  {
    var slot := At(round, cfg.elect(s.swapTable, round));
    if SupportedIn(cfg, s, round) {
      var top := s.dag[slot];
      SupportFromDag(cfg, u, s.dag, s.gcRound, top);
      assert Committable(cfg, u, s.committed, top, SupporterCerts(s.dag, top));
    }
    if CanCommitAt(cfg, u, s, round) {
      var top, supporters :|
        && Committable(cfg, u, s.committed, top, supporters) && top.round == round
        && Holds(s.dag, top) && AllHeld(s.dag, supporters);
      assert SlotOf(top) == slot;
      forall a | a in Authors(supporters) ensures a in SupportersOf(s.dag, top) {
        var y: Cert :| y in supporters && y.author == a;
        assert SlotOf(y) in s.dag;
      }
      WeightMonotone(cfg.committee.authorities, Authors(supporters), SupportersOf(s.dag, top));
    }
  }

  /** The state after committing one leader with its sub-dag. */
  function AfterSubDag(cfg: Config, s: State, leader: Cert): State {
    var subDag := SubDagOf(cfg, s.committed, leader);
    var gc := GcRound(leader.round, cfg.gcDepth);
    State(Purge(s.dag, gc), UpdateAll(s.lastCommitted, subDag.certificates), leader.round, gc,
          if FinalOfSchedule(cfg, subDag) then s.committed + [subDag] else s.swapTable, s.committed + [subDag])
  }

  class Consensus {
    const cfg: Config
    var state: State

    constructor (cfg: Config)
      ensures this.cfg == cfg && state.dag == map[] && state.committed == []
      ensures forall u :: cfg.gcDepth > 0 && World(cfg.committee, u) ==> ValidState(cfg, u, state)
    {
      this.cfg := cfg;
      state := State(map[], map[], 0, 0, [], []);
    }

    /** `try_insert`: does nothing at or below the garbage-collected rounds, refuses a certificate whose
        parents are missing, and otherwise inserts it, replacing another one of its author and round,
        which is then reported. A certificate of the world is never such a rival, and keeps the state
        valid. */
    method TryInsert(ghost u: set<Cert>, x: Cert) returns (r: Result<bool, ConsensusError>)
      requires ValidState(cfg, u, state)
      modifies this
      ensures x in u ==> ValidState(cfg, u, state) && !Rivals(old(state.dag), x)
      ensures var dag := old(state.dag);
              if x.round <= old(state.gcRound) then r == Ok(false) && state == old(state)
              else if MissesParents(dag, old(state.gcRound), x)
              then r.Err? && r.error in {MissingParent, MissingParentRound} && state == old(state)
              else
                && state == old(state).(dag := dag[SlotOf(x) := x])
                && r == if Rivals(dag, x) then Err(CertificateEquivocation) else Ok(!Done(state.lastCommitted, x))
    {
      var dag := state.dag;
      assert x in u && SlotOf(x) in dag ==> SameSlot(x, dag[SlotOf(x)]);
      if x.round <= state.gcRound { return Ok(false); }
      if x.round > state.gcRound + 1 {
        if !HasRound(dag, x.round - 1) { return Err(MissingParentRound); }
        if !(forall p :: p in x.parents ==> Holds(dag, p)) { return Err(MissingParent); }
      }
      if x in u { InsertKeepsDag(u, dag, state.gcRound, x, cfg.committee); }
      state := state.(dag := dag[SlotOf(x) := x]);
      if SlotOf(x) in dag && dag[SlotOf(x)] != x { return Err(CertificateEquivocation); }
      var last := if x.author in state.lastCommitted then state.lastCommitted[x.author] else 0;
      r := Ok(x.round > last);
    }

    /** The loop over a flattened sub-dag, with `update` for each certificate. */
    method UpdateState(leader: Cert, sequence: seq<Cert>)
      requires leader in sequence && forall x :: x in sequence ==> x.round <= leader.round
      requires state.committedRound <= leader.round && state.gcRound == GcRound(state.committedRound, cfg.gcDepth)
      requires state.dag == Purge(state.dag, state.gcRound)
      modifies this
      ensures var gc := GcRound(leader.round, cfg.gcDepth);
              state == old(state).(lastCommitted := UpdateAll(old(state.lastCommitted), sequence),
                                   committedRound := leader.round,
                                   gcRound := gc, dag := Purge(old(state.dag), gc))
    {
      var dag, last, round, gc := state.dag, state.lastCommitted, state.committedRound, state.gcRound;
      var i := 0;
      while i < |sequence|
        invariant 0 <= i <= |sequence| && state == old(state)
        invariant last == UpdateAll(state.lastCommitted, sequence[..i])
        invariant state.committedRound <= round <= leader.round
        invariant leader in sequence[..i] ==> round == leader.round
        invariant gc == GcRound(round, cfg.gcDepth) && dag == Purge(state.dag, gc)
      {
        var x := sequence[i];
        assert sequence[..i + 1] == sequence[..i] + [x] && x in sequence;
        last := Update(last, x);
        round := if round < x.round then x.round else round;
        PurgeTwice(state.dag, gc, GcRound(round, cfg.gcDepth));
        gc := GcRound(round, cfg.gcDepth);
        dag := Purge(dag, gc);
        i := i + 1;
      }
      assert sequence[..i] == sequence;
      state := state.(lastCommitted := last, committedRound := round, gcRound := gc, dag := dag);
    }

    /** Commits one leader with its sub-dag, and updates the schedule if it closes a window. */
    method CommitSubDag(ghost u: set<Cert>, leader: Cert) returns (subDag: SubDag)
      requires ValidState(cfg, u, state) && Holds(state.dag, leader) && leader.round > state.committedRound
      modifies this
      ensures subDag == SubDagOf(cfg, old(state.committed), leader) && state == AfterSubDag(cfg, old(state), leader)
    {
      ghost var s := state;
      var sequence := OrderDag(cfg, u, state.dag, state.gcRound, state.lastCommitted, leader);
      subDag := SubDag(leader, sequence);
      assert s.dag[SlotOf(leader)] == leader;
      SubDagRounds(cfg, u, s.committed, leader);
      PurgeKeepsDag(cfg.committee, u, s.dag, s.gcRound, s.gcRound);
      UpdateState(leader, sequence);
      state := state.(committed := state.committed + [subDag]);
      if FinalOfSchedule(cfg, subDag) { state := state.(swapTable := state.committed); }
    }

    /** The loop of `commit_leader` over the leaders to commit. */
    method CommitLeaders(ghost u: set<Cert>, toCommit: seq<Cert>, ghost top: Cert, ghost supporters: set<Cert>)
      returns (outcome: Outcome, subDags: seq<SubDag>)
      requires ValidState(cfg, u, state) && Pending(cfg, u, state, top, supporters, toCommit)
      modifies this
      ensures Committed(cfg, u, old(state), state, subDags, top.round) && subDags != []
      ensures outcome in {Commit, ScheduleChanged}
      ensures outcome == Commit ==> state.committedRound == top.round
      ensures outcome == ScheduleChanged ==> old(state.committedRound) < state.committedRound < top.round
    {
      var leaders := toCommit;
      subDags := [];
      while leaders != []
        invariant Committed(cfg, u, old(state), state, subDags, top.round)
        invariant leaders != [] ==> Pending(cfg, u, state, top, supporters, leaders)
        invariant leaders == [] ==> state.committedRound == top.round && subDags != []
        decreases |leaders|
      {
        CommitKeepsPending(cfg, u, state, top, supporters, leaders);
        CommittedMore(cfg, u, old(state), state, subDags, top.round, leaders[0]);
        var subDag := CommitSubDag(u, leaders[0]);
        subDags := subDags + [subDag];
        if FinalOfSchedule(cfg, subDag) {
          if |leaders| > 1 { return ScheduleChanged, subDags; }
        }
        leaders := leaders[1..];
      }
      outcome := Commit;
    }

    /** `commit_leader`: commits the leaders up to the supported one, stopping early when a commit changes the
        schedule under the leaders still to come. */
    method CommitLeader(ghost u: set<Cert>, leaderRound: nat) returns (outcome: Outcome, subDags: seq<SubDag>)
      requires ValidState(cfg, u, state) && leaderRound % 2 == 0 && leaderRound > state.committedRound
      requires HasRound(state.dag, leaderRound + 1)
      modifies this
      ensures Committed(cfg, u, old(state), state, subDags, leaderRound)
      ensures outcome in {LeaderNotFound, NotEnoughSupportForLeader, ScheduleChanged, Commit}
      ensures outcome in {LeaderNotFound, NotEnoughSupportForLeader} <==> !SupportedIn(cfg, old(state), leaderRound)
      ensures outcome in {LeaderNotFound, NotEnoughSupportForLeader} ==> subDags == [] && state == old(state)
      ensures outcome == LeaderNotFound <==> !HasLeader(cfg, old(state), leaderRound)
      ensures outcome == Commit ==> subDags != [] && state.committedRound == leaderRound
      ensures outcome == ScheduleChanged ==>
                subDags != [] && old(state.committedRound) < state.committedRound < leaderRound
    {
      var slot := At(leaderRound, cfg.elect(state.swapTable, leaderRound));
      if slot !in state.dag { return LeaderNotFound, []; }
      var top := state.dag[slot];
      if cfg.committee.Weight(SupportersOf(state.dag, top)) < cfg.committee.Validity() {
        return NotEnoughSupportForLeader, [];
      }
      ghost var supporters := SupporterCerts(state.dag, top);
      SupportFromDag(cfg, u, state.dag, state.gcRound, top);
      assert SlotOf(top) == slot;
      var leaders := OrderLeaders(cfg, u, state.swapTable, state.dag, state.gcRound, top, state.committedRound);
      outcome, subDags := CommitLeaders(u, leaders, top, supporters);
    }

    /** The retry loop of `process_certificate`: again while the schedule changes under the leaders left. */
    method CommitUntilSettled(ghost u: set<Cert>, leaderRound: nat) returns (outcome: Outcome, subDags: seq<SubDag>)
      requires ValidState(cfg, u, state) && leaderRound % 2 == 0 && leaderRound > state.committedRound
      requires HasRound(state.dag, leaderRound + 1)
      modifies this
      ensures Committed(cfg, u, old(state), state, subDags, leaderRound)
      ensures outcome in {Commit, LeaderNotFound, NotEnoughSupportForLeader}
      ensures outcome == Commit ==> subDags != [] && state.committedRound == leaderRound
      ensures outcome != Commit ==> !SupportedIn(cfg, state, leaderRound)
      ensures subDags != [] <==> SupportedIn(cfg, old(state), leaderRound)
      ensures subDags != [] ==> state.committedRound > old(state.committedRound)
      ensures subDags == [] ==>
                state == old(state) && (outcome == LeaderNotFound <==> !HasLeader(cfg, old(state), leaderRound))
    {
      subDags, outcome := [], ScheduleChanged;
      while outcome == ScheduleChanged
        invariant Committed(cfg, u, old(state), state, subDags, leaderRound)
        invariant outcome in {ScheduleChanged, Commit, LeaderNotFound, NotEnoughSupportForLeader}
        invariant outcome == ScheduleChanged ==> state.committedRound < leaderRound
        invariant outcome == Commit ==> subDags != [] && state.committedRound == leaderRound
        invariant outcome in {LeaderNotFound, NotEnoughSupportForLeader} ==> !SupportedIn(cfg, state, leaderRound)
        invariant subDags == [] ==> state == old(state)
        invariant subDags != [] ==>
                    SupportedIn(cfg, old(state), leaderRound) && state.committedRound > old(state.committedRound)
        invariant subDags == [] && outcome != ScheduleChanged ==>
                    outcome != Commit && (outcome == LeaderNotFound <==> !HasLeader(cfg, state, leaderRound))
        decreases if outcome == ScheduleChanged then leaderRound - state.committedRound else -1
      {
        ghost var before := state;
        var more;
        outcome, more := CommitLeader(u, leaderRound);
        CommittedJoin(cfg, u, old(state), before, state, subDags, more, leaderRound);
        subDags := subDags + more;
      }
    }

    /** `process_certificate`. For a certificate of the world the state stays valid, the history only grows, by
        sub-dags the commit rule allows, and when it ends nothing committable is left at the certificate's
        leader round. A rival of a certificate in the dag commits nothing; if its parents are there it
        takes the other's place and is reported. Each answer has its exact condition on the state before: in
        particular something is committed exactly when the certificate is new and of an odd round above the
        first, and the commit rule allows a commit at the round below it on the dag with the certificate. */
    method ProcessCertificate(ghost u: set<Cert>, x: Cert) returns (r: Result<(Outcome, seq<SubDag>), ConsensusError>)
      requires ValidState(cfg, u, state) && (x in u || Rivals(state.dag, x))
      modifies this
      ensures x in u ==> ValidState(cfg, u, state)
      ensures r.Err? ==> state.committed == old(state.committed)
                         && (r.error != CertificateEquivocation ==> state == old(state))
      ensures r == Err(CertificateEquivocation)
              <==> Rivals(old(state.dag), x) && !MissesParents(old(state.dag), old(state.gcRound), x)
      ensures r == Err(CertificateEquivocation) ==> state == WithCert(old(state), x)
      ensures r.Ok? ==> state.committed == old(state.committed) + r.value.1
      ensures r.Ok? <==> x.round <= old(state.gcRound) || Accepts(old(state), x)
      ensures r.Ok? ==> Answered(cfg, u, old(state), x, r.value.0)
      ensures r.Ok? && r.value.0 == Commit ==> r.value.1 != [] && state.committedRound > old(state.committedRound)
      ensures r.Ok? && r.value.0 !in {CertificateBelowCommitRound, NoLeaderElectedForOddRound} ==>
                x.round > 2 && (state.committedRound >= x.round - 1 || !SupportedIn(cfg, state, x.round - 1))
      ensures r.Ok? && r.value.0 != Commit ==>
                r.value.1 == [] && state == if Accepts(old(state), x) then WithCert(old(state), x) else old(state)
    {
      assert Rivals(state.dag, x) ==> x.round > state.gcRound;
      var inserted := TryInsert(u, x);
      if inserted.Err? { return Err(inserted.error); }
      if !inserted.value { return Ok((CertificateBelowCommitRound, [])); }
      var outcome, subDags := CommitBelow(u, x);
      r := Ok((outcome, subDags));
    }

    /** The rest of `process_certificate`, with the new certificate in the dag. */
    method CommitBelow(ghost u: set<Cert>, x: Cert) returns (outcome: Outcome, subDags: seq<SubDag>)
      requires ValidState(cfg, u, state) && Holds(state.dag, x)
      modifies this
      ensures ValidState(cfg, u, state) && state.committed == old(state.committed) + subDags
      ensures AnsweredBelow(cfg, u, old(state), x, outcome)
      ensures outcome == Commit ==> subDags != [] && state.committedRound > old(state.committedRound)
      ensures outcome != Commit ==> subDags == [] && state == old(state)
      ensures outcome != NoLeaderElectedForOddRound ==>
                x.round > 2 && (state.committedRound >= x.round - 1 || !SupportedIn(cfg, state, x.round - 1))
    {
      assert state.dag[SlotOf(x)] == x && x.round > 0;
      var leaderRound := x.round - 1;
      if leaderRound % 2 != 0 || leaderRound < 2 { return NoLeaderElectedForOddRound, []; }
      if leaderRound <= state.committedRound { return LeaderBelowCommitRound, []; }
      assert SlotOf(x) in state.dag && SlotOf(x).round == leaderRound + 1;
      SupportedIffCanCommit(cfg, u, state, leaderRound);
      outcome, subDags := CommitUntilSettled(u, leaderRound);
      if subDags != [] { outcome := Commit; }
    }
  }

  /** When each outcome is answered, on the dag with the certificate in it. */
  ghost predicate AnsweredBelow(cfg: Config, u: set<Cert>, s: State, x: Cert, outcome: Outcome) {
    var leads := x.round % 2 == 1 && x.round >= 3;
    var opens := leads && x.round - 1 > s.committedRound;
    && (outcome == NoLeaderElectedForOddRound <==> !leads)
    && (outcome == LeaderBelowCommitRound <==> leads && x.round - 1 <= s.committedRound)
    && (outcome == LeaderNotFound <==> opens && !HasLeader(cfg, s, x.round - 1))
    && (outcome == Commit <==> opens && CanCommitAt(cfg, u, s, x.round - 1))
    && outcome !in {ScheduleChanged, CertificateBelowCommitRound}
  }

  /** When each outcome is answered, on the state before the certificate came. */
  ghost predicate Answered(cfg: Config, u: set<Cert>, s: State, x: Cert, outcome: Outcome) {
    if Accepts(s, x) && !Done(s.lastCommitted, x) then AnsweredBelow(cfg, u, WithCert(s, x), x, outcome)
    else outcome == CertificateBelowCommitRound
  }

  function SupportersOf(dag: Dag, leader: Cert): set<AuthorityId> {
    set k | k in dag && k.round == leader.round + 1 && leader in dag[k].parents :: k.author
  }

  lemma InsertKeepsDag(u: set<Cert>, dag: Dag, gc: nat, x: Cert, c: Committee)
    requires World(c, u) && Stored(u, dag, gc) && Closed(dag, gc) && x in u && x.round > gc
    requires x.round > gc + 1 ==> HasParents(dag, x)
    ensures SlotOf(x) in dag ==> dag[SlotOf(x)] == x
    ensures Stored(u, dag[SlotOf(x) := x], gc) && Closed(dag[SlotOf(x) := x], gc)
  {
    if SlotOf(x) in dag { assert SameSlot(x, dag[SlotOf(x)]); }
    var dag' := dag[SlotOf(x) := x];
    forall k | k in dag' && k.round > gc + 1 ensures HasParents(dag', dag'[k]) {
      if k != SlotOf(x) { assert HasParents(dag, dag[k]); }
    }
  }

  lemma PurgeKeepsDag(c: Committee, u: set<Cert>, dag: Dag, gc: nat, gc': nat)
    requires World(c, u) && Stored(u, dag, gc) && Closed(dag, gc) && gc <= gc'
    ensures Stored(u, Purge(dag, gc'), gc') && Closed(Purge(dag, gc'), gc')
    ensures gc' == gc ==> Purge(dag, gc') == dag
  {
    var dag' := Purge(dag, gc');
    assert forall k :: k in dag ==> dag[k] in u && k == SlotOf(dag[k]) && k.round > gc;
    forall k | k in dag' && k.round > gc' + 1 ensures HasParents(dag', dag'[k]) {
      assert HasParents(dag, dag[k]) && SoundParents(c, u, dag[k]);
    }
  }

  lemma RoundKept(dag: Dag, r: nat, gc: nat)
    requires HasRound(dag, r) && r > gc
    ensures HasRound(Purge(dag, gc), r)
  {
    var k :| k in dag && k.round == r;
    assert k in Purge(dag, gc);
  }

  ghost function SupporterCerts(dag: Dag, leader: Cert): set<Cert> {
    set k | k in dag && k.round == leader.round + 1 && leader in dag[k].parents :: dag[k]
  }

  /** Support counted in the dag is support among the certificates that exist. */
  lemma SupportFromDag(cfg: Config, u: set<Cert>, dag: Dag, gc: nat, leader: Cert)
    requires Stored(u, dag, gc)
    requires cfg.committee.Weight(SupportersOf(dag, leader)) >= cfg.committee.Validity()
    ensures Supports(cfg.committee, u, leader, SupporterCerts(dag, leader))
  {
    var supporters := SupporterCerts(dag, leader);
    forall a ensures a in Authors(supporters) <==> a in SupportersOf(dag, leader) {
      if a in SupportersOf(dag, leader) {
        var k :| k in dag && k.round == leader.round + 1 && leader in dag[k].parents && k.author == a;
        assert dag[k] in supporters && dag[k].author == a;
      }
    }
    assert Authors(supporters) == SupportersOf(dag, leader);
  }

  /** The sub-dag's rounds end at its leader's. */
  lemma SubDagRounds(cfg: Config, u: set<Cert>, h: seq<SubDag>, leader: Cert)
    requires World(cfg.committee, u) && leader in u && cfg.gcDepth > 0
    ensures var s := SubDagOf(cfg, h, leader).certificates;
            leader in s && forall x :: x in s ==> x.round <= leader.round
  {
    var s := SubDagOf(cfg, h, leader).certificates;
    SubDagIsWhatHangs(cfg, u, h, leader, leader);
    assert multiset(s)[leader] == 1;
    forall x | x in s ensures x.round <= leader.round {
      InSubDag(cfg, u, h, leader, x);
    }
  }

  /** The first leader on the list is in the dag and committing it is a step of the commit rule. */
  lemma NextToCommit(cfg: Config, u: set<Cert>, dag: Dag, gc: nat, h: seq<SubDag>, top: Cert, supporters: set<Cert>)
    requires World(cfg.committee, u) && Stored(u, dag, gc) && Closed(dag, gc) && gc <= CommittedRound(h)
    requires Committable(cfg, u, h, top, supporters) && Holds(dag, top)
    ensures var l := NextLeader(cfg, h, top);
            && Holds(dag, l) && l.round % 2 == 0 && CommittedRound(h) < l.round <= top.round
            && CommitStep(cfg, u, h, SubDagOf(cfg, h, l))
  {
    var l := NextLeader(cfg, h, top);
    LeadersAreElected(cfg, u, ActiveTable(cfg, h), top, Below(top.round), CommittedRound(h), 0);
    ReachInWorld(cfg.committee, u, top, l);
    AncestorsHeld(cfg.committee, u, dag, gc, top, l);
  }

  /** The leaders still to commit are those from the committed round up to a supported one in the dag. */
  ghost predicate Pending(cfg: Config, u: set<Cert>, s: State, top: Cert, supporters: set<Cert>, leaders: seq<Cert>) {
    && Holds(s.dag, top) && Committable(cfg, u, s.committed, top, supporters) && HasRound(s.dag, top.round + 1)
    && leaders == Leaders(cfg, s.swapTable, top, Below(top.round), s.committedRound)
  }

  /** From one state to another the history grew by `subDags`, up to the leader round at most. */
  ghost predicate Committed(cfg: Config, u: set<Cert>, s: State, t: State, subDags: seq<SubDag>, leaderRound: nat) {
    && ValidState(cfg, u, t) && HasRound(t.dag, leaderRound + 1)
    && t.committed == s.committed + subDags && s.committedRound <= t.committedRound <= leaderRound
  }

  lemma CommittedJoin(cfg: Config, u: set<Cert>, s: State, t: State, v: State, xs: seq<SubDag>, ys: seq<SubDag>,
                      leaderRound: nat)
    requires Committed(cfg, u, s, t, xs, leaderRound) && Committed(cfg, u, t, v, ys, leaderRound)
    ensures Committed(cfg, u, s, v, xs + ys, leaderRound)
  {
    assert (s.committed + xs) + ys == s.committed + (xs + ys);
  }

  /** Committing a leader the rule allows keeps the state valid. */
  lemma CommitKeepsValid(cfg: Config, u: set<Cert>, s: State, leader: Cert)
    requires ValidState(cfg, u, s) && Holds(s.dag, leader) && leader.round > s.committedRound && leader.round % 2 == 0
    requires CommitStep(cfg, u, s.committed, SubDagOf(cfg, s.committed, leader))
    ensures ValidState(cfg, u, AfterSubDag(cfg, s, leader))
  {
    var subDag := SubDagOf(cfg, s.committed, leader);
    PurgeKeepsDag(cfg.committee, u, s.dag, s.gcRound, GcRound(leader.round, cfg.gcDepth));
    HistorySnoc(cfg, u, s.committed, subDag);
    assert (s.committed + [subDag])[..|s.committed|] == s.committed;
  }

  /** A commit keeps exactly the certificates of the dag less than `gcDepth` rounds below its leader. */
  lemma KeepsRecent(cfg: Config, s: State, leader: Cert, k: Slot)
    ensures k in AfterSubDag(cfg, s, leader).dag <==> k in s.dag && k.round > 0 && k.round + cfg.gcDepth > leader.round
    ensures k in AfterSubDag(cfg, s, leader).dag ==> AfterSubDag(cfg, s, leader).dag[k] == s.dag[k]
  {}

  lemma CommittedMore(cfg: Config, u: set<Cert>, s: State, t: State, subDags: seq<SubDag>, leaderRound: nat,
                      leader: Cert)
    requires Committed(cfg, u, s, t, subDags, leaderRound) && Holds(t.dag, leader)
    requires t.committedRound < leader.round <= leaderRound && leader.round % 2 == 0
    requires CommitStep(cfg, u, t.committed, SubDagOf(cfg, t.committed, leader))
    ensures Committed(cfg, u, s, AfterSubDag(cfg, t, leader), subDags + [SubDagOf(cfg, t.committed, leader)],
                      leaderRound)
  {
    CommitKeepsValid(cfg, u, t, leader);
    RoundKept(t.dag, leaderRound + 1, GcRound(leader.round, cfg.gcDepth));
    var subDag := SubDagOf(cfg, t.committed, leader);
    assert (s.committed + subDags) + [subDag] == s.committed + (subDags + [subDag]);
  }

  /** Committing the first leader leaves the rest of the list to commit from the new floor, unless the
      schedule changed; the last leader is the supported one. */
  lemma AfterCommit(cfg: Config, u: set<Cert>, h: seq<SubDag>, top: Cert, supporters: set<Cert>)
    requires World(cfg.committee, u) && Committable(cfg, u, h, top, supporters)
    ensures var ls := Leaders(cfg, ActiveTable(cfg, h), top, Below(top.round), CommittedRound(h));
            var s := SubDagOf(cfg, h, ls[0]);
            && (|ls| == 1 ==> ls[0] == top)
            && (|ls| > 1 ==> ls[0].round < top.round)
            && (|ls| > 1 && !FinalOfSchedule(cfg, s) ==>
                  && Committable(cfg, u, h + [s], top, supporters)
                  && Leaders(cfg, ActiveTable(cfg, h), top, Below(top.round), ls[0].round) == ls[1..])
  {
    var table, floor := ActiveTable(cfg, h), CommittedRound(h);
    var ls := Leaders(cfg, table, top, Below(top.round), floor);
    var s := SubDagOf(cfg, h, ls[0]);
    assert (h + [s])[..|h|] == h;
    if |ls| > 1 { LeadersTail(cfg, u, table, top, Below(top.round), floor); }
  }

  lemma CommitKeepsPending(cfg: Config, u: set<Cert>, s: State, top: Cert, supporters: set<Cert>, leaders: seq<Cert>)
    requires ValidState(cfg, u, s) && Pending(cfg, u, s, top, supporters, leaders)
    ensures var l := leaders[0];
            && Holds(s.dag, l) && l.round % 2 == 0 && s.committedRound < l.round <= top.round
            && CommitStep(cfg, u, s.committed, SubDagOf(cfg, s.committed, l))
            && (|leaders| == 1 ==> l == top) && (|leaders| > 1 ==> l.round < top.round)
            && (|leaders| > 1 && !FinalOfSchedule(cfg, SubDagOf(cfg, s.committed, l)) ==>
                  Pending(cfg, u, AfterSubDag(cfg, s, l), top, supporters, leaders[1..]))
  {
    NextToCommit(cfg, u, s.dag, s.gcRound, s.committed, top, supporters);
    AfterCommit(cfg, u, s.committed, top, supporters);
    RoundKept(s.dag, top.round + 1, GcRound(leaders[0].round, cfg.gcDepth));
  }

  lemma PurgeTwice(dag: Dag, gc: nat, gc': nat)
    requires gc <= gc'
    ensures Purge(Purge(dag, gc), gc') == Purge(dag, gc')
  {}

  /** As more certificates come to exist, what a node committed stays valid. */
  lemma ValidInLargerWorld(cfg: Config, u: set<Cert>, u': set<Cert>, s: State)
    requires ValidState(cfg, u, s) && u <= u' && World(cfg.committee, u')
    ensures ValidState(cfg, u', s)
  {
    forall i | 0 <= i < |s.committed| ensures StepAt(cfg, u', s.committed, i) {
      assert StepAt(cfg, u, s.committed, i);
      var h := s.committed[..i];
      var top, supporters :|
        Committable(cfg, u, h, top, supporters) && s.committed[i] == SubDagOf(cfg, h, NextLeader(cfg, h, top));
      assert Committable(cfg, u', h, top, supporters);
    }
  }

  /** Any two nodes that processed certificates of one world, in any order and from any point on, have
      committed sequences of which one is a prefix of the other. */
  lemma NodesAgree(cfg: Config, u: set<Cert>, s: State, t: State)
    requires ValidState(cfg, u, s) && ValidState(cfg, u, t)
    ensures s.committed <= t.committed || t.committed <= s.committed
  {
    if |s.committed| <= |t.committed| {
      Agreement(cfg, u, s.committed, t.committed);
    } else {
      Agreement(cfg, u, t.committed, s.committed);
    }
  }
}
