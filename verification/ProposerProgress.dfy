/** What moves the proposer on: how fast the queue is drained into headers, and when a round is ready.
    Source: crates/consensus/primary/src/proposer.rs */
module ProposerProgress {
  import opened Basics
  import opened Committees
  import opened ProposerModel

  // ---------- draining the queue ----------

  /** How many digests an event puts back at the front of the queue. */
  function Resent(s: State, e: Event): nat {
    if e.Select? && e.arm.Committed? && !s.halted
    then |ResendBelow(s.proposed - RoundsOf(e.arm.rounds), MaxRound(e.arm.rounds) + 1)|
    else 0
  }

  /** The event makes a header that is not the stored one. */
  predicate ProposesNew(cfg: Config, s: State, e: Event) {
    && e.Select? && !s.halted
    && var s1 := ApplyArm(cfg, s, e.arm, e.env);
    ShouldPropose(cfg, s1) && !Reproposes(s1)
  }

  function NewHeaders(cfg: Config, s: State, events: seq<Event>): nat
    decreases |events|
  {
    if events == [] then 0
    else (if ProposesNew(cfg, s, events[0]) then 1 else 0) + NewHeaders(cfg, Step(cfg, s, events[0]), events[1..])
  }

  function Requeued(cfg: Config, s: State, events: seq<Event>): nat
    decreases |events|
  {
    if events == [] then 0 else Resent(s, events[0]) + Requeued(cfg, Step(cfg, s, events[0]), events[1..])
  }

  /** The event makes a header that carries the digest. */
  ghost predicate PutsInHeader(cfg: Config, s: State, e: Event, d: Digest) {
    && ProposesNew(cfg, s, e)
    && var t := Step(cfg, s, e);
    t.pending.Some? && d in Keys(t.pending.value.header.payload)
  }

  /** The digest gets into a header made at some event of the run. */
  ghost predicate GetsInHeader(cfg: Config, s: State, events: seq<Event>, d: Digest)
    decreases |events|
  {
    && events != []
    && (PutsInHeader(cfg, s, events[0], d) || GetsInHeader(cfg, Step(cfg, s, events[0]), events[1..], d))
  }

  lemma ArmMoves(cfg: Config, s: State, arm: Arm, env: Env, p: nat)
    requires p < |s.queue| && !s.halted
    ensures var q, k := ApplyArm(cfg, s, arm, env).queue, p + Resent(s, Select(arm, env));
            k < |q| && q[k] == s.queue[p]
  {}

  /** Each new header moves the queue up by its maximum, unless it takes the digest in. */
  lemma StepMoves(cfg: Config, s: State, e: Event, p: nat)
    requires p < |s.queue| && !e.Restart?
    ensures var q, k := Step(cfg, s, e).queue, p + Resent(s, e);
            if !ProposesNew(cfg, s, e) then k < |q| && q[k] == s.queue[p]
            else PutsInHeader(cfg, s, e, s.queue[p].digest)
                 || (cfg.maxBatches <= k < |q| + cfg.maxBatches && q[k - cfg.maxBatches] == s.queue[p])
  {
    if e.Select? && !s.halted {
      ArmMoves(cfg, s, e.arm, e.env, p);
      var s1, k := ApplyArm(cfg, s, e.arm, e.env), p + Resent(s, e);
      if ProposesNew(cfg, s, e) {
        NewHeaderTakesFront(cfg, s1, e.env.meta);
        var n := |s1.queue| - |QueueAfter(cfg, s1)|;
        if k < n {
          KeyAt(s1.queue[..n], k);
        } else {
          assert QueueAfter(cfg, s1)[k - n] == s1.queue[k];
        }
      }
    }
  }

  /** The places in the new headers made. */
  function Room(cfg: Config, s: State, events: seq<Event>): nat
    decreases |events|
  {
    if events == [] then 0
    else (if ProposesNew(cfg, s, events[0]) then cfg.maxBatches else 0)
         + Room(cfg, Step(cfg, s, events[0]), events[1..])
  }

  lemma OneMoreTime(n: nat, m: nat)
    ensures (1 + n) * m == m + n * m
  {}

  lemma {:induction false} RoomIsHeaders(cfg: Config, s: State, events: seq<Event>)
    ensures Room(cfg, s, events) == NewHeaders(cfg, s, events) * cfg.maxBatches
    decreases |events|
  {
    if events != [] {
      RoomIsHeaders(cfg, Step(cfg, s, events[0]), events[1..]);
      OneMoreTime(NewHeaders(cfg, Step(cfg, s, events[0]), events[1..]), cfg.maxBatches);
    }
  }

  lemma {:induction false} TakenWithRoom(cfg: Config, s: State, events: seq<Event>, p: nat)
    requires p < |s.queue| && forall e :: e in events ==> !e.Restart?
    requires Room(cfg, s, events) > p + Requeued(cfg, s, events)
    ensures GetsInHeader(cfg, s, events, s.queue[p].digest)
    decreases |events|
  {
    assert events != [];
    var e, rest := events[0], events[1..];
    var s', k := Step(cfg, s, e), p + Resent(s, e);
    assert e in events;
    StepMoves(cfg, s, e, p);
    if !PutsInHeader(cfg, s, e, s.queue[p].digest) {
      TakenWithRoom(cfg, s', rest, if ProposesNew(cfg, s, e) then k - cfg.maxBatches else k);
    }
  }

  /** No digest waits for ever: one with `p` digests before it is in a header as soon as the new headers made have
      room for those, for the digests put back before it since, and for itself. */
  lemma TakenInTurn(cfg: Config, s: State, events: seq<Event>, p: nat)
    requires p < |s.queue| && forall e :: e in events ==> !e.Restart?
    requires NewHeaders(cfg, s, events) * cfg.maxBatches > p + Requeued(cfg, s, events)
    ensures GetsInHeader(cfg, s, events, s.queue[p].digest)
  {
    RoomIsHeaders(cfg, s, events);
    TakenWithRoom(cfg, s, events, p);
  }

  // ---------- when a round is ready ----------

  function Naming(certs: seq<Certificate>, leader: nat, yes: bool): seq<Certificate> {
    if certs == [] then []
    else
      var last := certs[|certs| - 1];
      Naming(certs[..|certs| - 1], leader, yes) + if (leader in last.parents) == yes then [last] else []
  }

  function Stake(c: Committee, certs: seq<Certificate>): nat {
    if certs == [] then 0 else Stake(c, certs[..|certs| - 1]) + c.PowerOf(certs[|certs| - 1].origin)
  }

  ghost predicate DistinctOrigins(certs: seq<Certificate>) {
    forall i, j :: 0 <= i < j < |certs| ==> certs[i].origin != certs[j].origin
  }

  function Origins(certs: seq<Certificate>): set<AuthorityId> { set x | x in certs :: x.origin }

  lemma {:induction false} VotesAreStake(c: Committee, certs: seq<Certificate>, leader: nat)
    ensures VotesFor(c, certs, leader) == Stake(c, Naming(certs, leader, true))
    ensures VotesAgainst(c, certs, leader) == Stake(c, Naming(certs, leader, false))
  {
    if certs != [] {
      var n := |certs| - 1;
      VotesAreStake(c, certs[..n], leader);
      var yes, no := Naming(certs[..n], leader, true), Naming(certs[..n], leader, false);
      assert (yes + [certs[n]])[..|yes|] == yes && (no + [certs[n]])[..|no|] == no;
      assert yes + [] == yes && no + [] == no;
    }
  }

  lemma {:induction false} InNaming(certs: seq<Certificate>, leader: nat, yes: bool, x: Certificate)
    ensures x in Naming(certs, leader, yes) <==> x in certs && (leader in x.parents) == yes
  {
    if certs != [] {
      var n := |certs| - 1;
      InNaming(certs[..n], leader, yes, x);
      assert certs == certs[..n] + [certs[n]];
    }
  }

  lemma {:induction false} NamingIsDistinct(certs: seq<Certificate>, leader: nat, yes: bool)
    requires DistinctOrigins(certs)
    ensures DistinctOrigins(Naming(certs, leader, yes))
  {
    if certs != [] {
      var n := |certs| - 1;
      NamingIsDistinct(certs[..n], leader, yes);
      var kept := Naming(certs[..n], leader, yes);
      forall i | 0 <= i < |kept| ensures kept[i].origin != certs[n].origin {
        InNaming(certs[..n], leader, yes, kept[i]);
        var j :| 0 <= j < n && certs[..n][j] == kept[i];
        assert certs[j] == kept[i];
      }
    }
  }

  lemma {:induction false} StakeIsWeight(c: Committee, certs: seq<Certificate>)
    requires DistinctIds(c.authorities) && DistinctOrigins(certs)
    ensures Stake(c, certs) == c.Weight(Origins(certs))
  {
    if certs == [] {
      assert Origins(certs) == {};
      WeightEmpty(c.authorities);
    } else {
      var n := |certs| - 1;
      StakeIsWeight(c, certs[..n]);
      assert certs == certs[..n] + [certs[n]];
      assert Origins(certs) == Origins(certs[..n]) + {certs[n].origin};
      AddAuthority(c, Origins(certs[..n]), certs[n].origin);
    }
  }

  /** The stake the committee can lose without a quorum being out of reach. */
  function Tolerated(c: Committee): nat { if c.Total() == 0 then 0 else (c.Total() - 1) / 3 }

  /** All the stake but that; of a committee without any, more than there is. */
  function AllButTolerated(c: Committee): nat { if c.Total() == 0 then 1 else c.Total() - Tolerated(c) }

  /** In an even round the leader's certificate is among the parents. In an odd one this node leads next, there is
      no leader to vote for, or of the parents' stake f + 1 names the leader or all but f does not. */
  ghost predicate ReadyFor(cfg: Config, s: State, leader: AuthorityId) {
    if s.round % 2 == 0 then exists i :: 0 <= i < |s.parents| && s.parents[i].origin == leader
    else
      || leader == cfg.self || s.pace.leader.None?
      || Stake(cfg.committee, Naming(s.parents, s.pace.leader.value.digest, true)) >= Tolerated(cfg.committee) + 1
      || Stake(cfg.committee, Naming(s.parents, s.pace.leader.value.digest, false))
         >= AllButTolerated(cfg.committee)
  }

  lemma {:induction false} FoundFirst(certs: seq<Certificate>, id: AuthorityId)
    ensures var f := FindByOrigin(certs, id);
            && (f.None? <==> forall i :: 0 <= i < |certs| ==> certs[i].origin != id)
            && (f.Some? ==> exists i ::
                  && 0 <= i < |certs| && certs[i] == f.value && certs[i].origin == id
                  && forall j :: 0 <= j < i ==> certs[j].origin != id)
  {
    if certs != [] && certs[0].origin != id {
      FoundFirst(certs[1..], id);
      var f := FindByOrigin(certs[1..], id);
      if f.Some? {
        var i :| 0 <= i < |certs[1..]| && certs[1..][i] == f.value && certs[1..][i].origin == id
                 && forall j :: 0 <= j < i ==> certs[1..][j].origin != id;
        assert certs[i + 1] == f.value;
        forall j | 0 <= j < i + 1 ensures certs[j].origin != id { if j > 0 { assert certs[j] == certs[1..][j - 1]; } }
      } else {
        forall j | 0 <= j < |certs| ensures certs[j].origin != id { if j > 0 { assert certs[j] == certs[1..][j - 1]; } }
      }
    }
  }

  lemma EnoughVotesIff(cfg: Config, certs: seq<Certificate>, leader: Option<Certificate>, next: AuthorityId)
    ensures EnoughVotes(cfg, certs, leader, next) <==>
              || next == cfg.self || leader.None?
              || Stake(cfg.committee, Naming(certs, leader.value.digest, true)) >= Tolerated(cfg.committee) + 1
              || Stake(cfg.committee, Naming(certs, leader.value.digest, false))
                 >= AllButTolerated(cfg.committee)
  {
    if cfg.committee.Total() > 0 { ThresholdsAreComplementary(cfg.committee); }
    if leader.Some? { VotesAreStake(cfg.committee, certs, leader.value.digest); }
  }

  /** Parents of a later round move the node there and replace those it had, of its own round are added, and of an
      earlier one are ignored; then the flag says exactly whether the round is ready. */
  lemma ParentsDecideReady(cfg: Config, s: State, certs: seq<Certificate>, round: nat, leader: AuthorityId)
    ensures var t := ProcessParents(cfg, s, certs, round, leader);
            && t.round == (if round > s.round then round else s.round)
            && t.parents == (if round > s.round then certs
                             else if round == s.round then s.parents + certs else s.parents)
            && (t.pace.advance <==> ReadyFor(cfg, t, leader))
            && (t.round % 2 == 0 ==> t.pace.leader == FindByOrigin(t.parents, leader))
            && (t.round % 2 == 1 ==> t.pace.leader == s.pace.leader)
  {
    var t := ProcessParents(cfg, s, certs, round, leader);
    FoundFirst(t.parents, leader);
    EnoughVotesIff(cfg, t.parents, t.pace.leader, leader);
  }

  ghost predicate Ready(cfg: Config, s: State) { exists leader :: ReadyFor(cfg, s, leader) }

  /** The flag is set only before the first proposal of a session or for a ready round, while none is pending. */
  ghost predicate FlagIsRight(cfg: Config, s: State) {
    s.pace.advance && s.pending.None? && !s.halted ==> s.past.untouched || Ready(cfg, s)
  }

  lemma ReadyFrame(cfg: Config, s: State, t: State)
    requires Ready(cfg, s) && t.round == s.round && t.parents == s.parents && t.pace.leader == s.pace.leader
    ensures Ready(cfg, t)
  {
    var leader :| ReadyFor(cfg, s, leader);
    assert ReadyFor(cfg, t, leader);
  }

  lemma ArmKeepsFlag(cfg: Config, s: State, arm: Arm, env: Env)
    requires FlagIsRight(cfg, s) && !s.halted
    ensures FlagIsRight(cfg, ApplyArm(cfg, s, arm, env))
  {
    var t := ApplyArm(cfg, s, arm, env);
    match arm {
      case NewParents(certs, round) =>
        ParentsDecideReady(cfg, s, certs, round, env.leader);
        assert t.pace.advance ==> ReadyFor(cfg, t, env.leader);
      case TaskDone =>
        if t == s && Ready(cfg, s) { ReadyFrame(cfg, s, t); }
      case _ =>
        if Ready(cfg, s) { ReadyFrame(cfg, s, t); }
    }
  }

  lemma StepKeepsFlag(cfg: Config, s: State, e: Event)
    requires FlagIsRight(cfg, s)
    ensures FlagIsRight(cfg, Step(cfg, s, e))
  {
    if e.Select? {
      if !s.halted { ArmKeepsFlag(cfg, s, e.arm, e.env); }
    } else if !e.Restart? && Ready(cfg, s) {
      ReadyFrame(cfg, s, Step(cfg, s, e));
    }
  }

  lemma {:induction false} FlagStaysRight(cfg: Config, s: State, events: seq<Event>)
    requires FlagIsRight(cfg, s)
    ensures FlagIsRight(cfg, Run(cfg, s, events))
    decreases |events|
  {
    if events != [] {
      StepKeepsFlag(cfg, s, events[0]);
      FlagStaysRight(cfg, Step(cfg, s, events[0]), events[1..]);
    }
  }

  /** In every run from a start, a proposal is made only with parents in hand, and only after the maximum delay, or
      for the first header of the session or a ready round once there are enough digests or the minimum delay
      is over. `t` is the state in which the turn that proposes decides. */
  lemma ProposesOnlyWhenReady(cfg: Config, s: State, events: seq<Event>, arm: Arm, env: Env)
    requires FlagIsRight(cfg, s)
    requires var now := Run(cfg, s, events);
             && !now.halted && ApplyArm(cfg, now, arm, env).pending.None?
             && Step(cfg, now, Select(arm, env)).pending.Some?
    ensures var t := ApplyArm(cfg, Run(cfg, s, events), arm, env);
            && t.parents != []
            && (|| t.pace.maxTimedOut
                || (&& (t.past.untouched || Ready(cfg, t))
                    && (|t.queue| >= cfg.batchThreshold || t.pace.minTimedOut)))
  {
    FlagStaysRight(cfg, s, events);
    ArmKeepsFlag(cfg, Run(cfg, s, events), arm, env);
  }

  /** And then it is made: at once when parents make the round ready and there are enough digests or the minimum
      delay is over, and with any parents when the maximum delay is. */
  lemma ReadyRoundProposes(cfg: Config, s: State, arm: Arm, env: Env)
    requires !s.halted && s.pending.None?
    requires var t := ApplyArm(cfg, s, arm, env);
             && t.parents != []
             && (|| (arm.MaxTick?)
                 || (&& arm.NewParents? && ReadyFor(cfg, t, env.leader)
                     && (|t.queue| >= cfg.batchThreshold || t.pace.minTimedOut)))
    ensures Step(cfg, s, Select(arm, env)).pending.Some?
  {
    if arm.NewParents? { ParentsDecideReady(cfg, s, arm.certs, arm.round, env.leader); }
  }

  /** The loop ends exactly when a header cannot be stored or sent, and then stays ended until a restart. */
  lemma HaltsIff(cfg: Config, s: State, e: Event)
    requires !e.Restart?
    ensures Step(cfg, s, e).halted <==>
              || s.halted
              || (e.Select? && e.arm.TaskFailed? && s.pending.Some? && !s.pending.value.phase.Sent?)
    ensures s.halted && e.Select? ==> Step(cfg, s, e) == s
  {}

  /** A session starts out ready: its first header is made as soon as there are enough digests or the minimum delay
      is over, on the genesis certificates. */
  lemma StartsReady(cfg: Config, found: Option<Header>, sent: seq<Header>, acknowledged: set<Digest>, bus: nat,
                    epoch: nat, genesis: seq<Certificate>, arm: Arm, env: Env)
    requires genesis != [] && (arm.MinTick? || (arm.NewDigest? && cfg.batchThreshold <= 1))
    ensures var s := Begin(found, sent, acknowledged, bus, epoch, genesis);
            Step(cfg, s, Select(arm, env)).pending.Some?
  {}

  /** The delays are measured from the last proposal: a tick sets its flag, and only a proposal, which also uses up
      the parents, clears the two. */
  lemma DelaysRestart(cfg: Config, s: State, arm: Arm, env: Env)
    requires !s.halted
    ensures var t, t1 := Step(cfg, s, Select(arm, env)), ApplyArm(cfg, s, arm, env);
            var proposed := t1.pending.None? && t.pending.Some?;
            && (t.pace.maxTimedOut <==> !proposed && (s.pace.maxTimedOut || arm.MaxTick?))
            && (t.pace.minTimedOut <==> !proposed && (s.pace.minTimedOut || arm.MinTick?))
            && (proposed ==> t.parents == [] && !t.past.untouched)
            && (!proposed ==> t == t1)
  {}

  /** With one parent per authority the stakes are the voting power of those that name the leader and of those that
      do not. */
  lemma StakesAreWeights(c: Committee, certs: seq<Certificate>, leader: nat, yes: bool)
    requires DistinctIds(c.authorities) && DistinctOrigins(certs)
    ensures Stake(c, Naming(certs, leader, yes))
            == c.Weight(set x | x in certs && (leader in x.parents) == yes :: x.origin)
  {
    NamingIsDistinct(certs, leader, yes);
    StakeIsWeight(c, Naming(certs, leader, yes));
    forall x ensures x in Naming(certs, leader, yes) <==> x in certs && (leader in x.parents) == yes {
      InNaming(certs, leader, yes, x);
    }
    assert Origins(Naming(certs, leader, yes)) == set x | x in certs && (leader in x.parents) == yes :: x.origin;
  }
}
