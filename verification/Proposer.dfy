/** The proposer task itself: the fields its select loop updates and the methods that update them.
    Source: crates/consensus/primary/src/proposer.rs */
module Proposers {
  import opened Basics
  import opened Committees
  import opened SortedSets
  import opened ProposerModel
  import opened ProposerSafety

  lemma PrefixUpTo(s: set<nat>, rounds: seq<nat>, i: nat, top: nat)
    requires Ascending(rounds, NatLess) && (forall r :: r in rounds <==> r in s) && i <= |rounds|
    requires forall j :: 0 <= j < i ==> rounds[j] <= top
    requires i < |rounds| ==> rounds[i] > top
    ensures forall r :: r in rounds[..i] <==> r in s && r <= top
    ensures Ascending(rounds[..i], NatLess)
  {
    forall r | r in s && r <= top ensures r in rounds[..i] {
      assert r in rounds;
      var j :| 0 <= j < |rounds| && rounds[j] == r;
      assert forall k :: i < k < |rounds| ==> NatLess(rounds[i], rounds[k]);
      assert j < i && rounds[..i][j] == r;
    }
  }

  lemma StaleHeaders(open: map<nat, Header>, rounds: seq<nat>, i: nat, top: nat)
    requires Ascending(rounds, NatLess) && (forall r :: r in rounds <==> r in open.Keys) && i <= |rounds|
    requires forall j :: 0 <= j < i ==> rounds[j] <= top
    requires i < |rounds| ==> rounds[i] > top
    ensures PayloadsOf(open, rounds[..i]) == ResendBelow(open, top + 1)
    ensures open - RoundsOf(rounds[..i]) == map r | r in open && r > top :: open[r]
  {
    PrefixUpTo(open.Keys, rounds, i, top);
    ResendIsAscending(open, rounds[..i], top + 1);
  }

  /** What a commit notice does, in terms of the sorted rounds still proposed and how many of them are stale. */
  lemma CommittedNow(s: State, committed: seq<nat>, rounds: seq<nat>, i: nat)
    requires var open := s.proposed - RoundsOf(committed);
             Ascending(rounds, NatLess) && (forall r :: r in rounds <==> r in open.Keys) && i <= |rounds|
    requires forall j :: 0 <= j < i ==> rounds[j] <= MaxRound(committed)
    requires i < |rounds| ==> rounds[i] > MaxRound(committed)
    ensures var open := s.proposed - RoundsOf(committed);
            ProcessCommitted(s, committed)
            == s.(queue := PayloadsOf(open, rounds[..i]) + s.queue, proposed := open - RoundsOf(rounds[..i]),
                  past := s.past.(committed := s.past.committed + CommittedKeys(s.proposed, committed)))
  {
    StaleHeaders(s.proposed - RoundsOf(committed), rounds, i, MaxRound(committed));
  }

  /** The header for a round: the stored one if it is for that round and epoch, else one over the queue's front. */
  ghost predicate Chosen(cfg: Config, epoch: nat, stored: Option<Header>, queue: seq<BatchRef>, rest: seq<BatchRef>,
                         h: Header) {
    && h.epoch == epoch
    && if stored.Some? && stored.value.round == h.round && stored.value.epoch == epoch
       then h == stored.value && rest == queue
       else TakesFront(cfg.maxBatches, queue, rest, h.payload)
  }

  class Proposer {
    const cfg: Config
    const epoch: nat
    var round: nat
    var busRound: nat
    var lastParents: seq<Certificate>
    var pace: Pace          // the last leader, the advance-round flag and the two timers
    var digests: seq<BatchRef>
    var proposedHeaders: map<nat, Header>
    var pendingHeader: Option<Task>
    var lastProposed: Option<Header>
    var stopped: bool
    ghost var past: History

    ghost function Now(): State reads this {
      State(round, busRound, epoch, lastParents, pace,
            digests, proposedHeaders, pendingHeader, lastProposed, stopped, past)
    }

    constructor (cfg: Config, epoch: nat, bus: nat, genesis: seq<Certificate>, stored: Option<Header>,
                 ghost sent: seq<Header>, ghost acknowledged: set<Digest>)
      ensures this.cfg == cfg && Now() == Begin(stored, sent, acknowledged, bus, epoch, genesis)
    {
      this.cfg, this.epoch := cfg, epoch;
      round, busRound, lastParents, pace := 0, bus, genesis, Pace(None, true, false, false);
      digests, proposedHeaders, pendingHeader, lastProposed, stopped := [], map[], None, stored, false;
      past := NewSession(stored, sent, acknowledged);
    }

    method EnoughVotesNow(nextLeader: AuthorityId) returns (enough: bool)
      ensures enough == EnoughVotes(cfg, lastParents, pace.leader, nextLeader)
    {
      if nextLeader == cfg.self { return true; }
      if pace.leader.None? { return true; }
      var leader := pace.leader.value.digest;
      var votesForLeader, noVotes := 0, 0;
      for i := 0 to |lastParents|
        invariant votesForLeader == VotesFor(cfg.committee, lastParents[..i], leader)
        invariant noVotes == VotesAgainst(cfg.committee, lastParents[..i], leader)
      {
        assert lastParents[..i + 1][..i] == lastParents[..i];
        var stake := cfg.committee.PowerOf(lastParents[i].origin);
        if leader in lastParents[i].parents {
          votesForLeader := votesForLeader + stake;
        } else {
          noVotes := noVotes + stake;
        }
      }
      assert lastParents[..|lastParents|] == lastParents;
      enough := votesForLeader >= cfg.committee.Validity() || noVotes >= cfg.committee.Quorum();
    }

    method UpdateLeader(leader: AuthorityId) returns (found: bool)
      modifies `pace
      ensures pace == old(pace).(leader := FindByOrigin(lastParents, leader)) && found == pace.leader.Some?
    {
      var i := 0;
      var lastLeader := None;
      while i < |lastParents| && lastLeader.None?
        invariant 0 <= i <= |lastParents|
        invariant lastLeader.None? ==> FindByOrigin(lastParents, leader) == FindByOrigin(lastParents[i..], leader)
        invariant lastLeader.Some? ==> FindByOrigin(lastParents, leader) == lastLeader
        decreases |lastParents| - i
      {
        if lastParents[i].origin == leader { lastLeader := Some(lastParents[i]); }
        i := i + 1;
      }
      pace := pace.(leader := lastLeader);
      found := lastLeader.Some?;
    }

    method ProcessParentCerts(certs: seq<Certificate>, r: nat, leader: AuthorityId)
      modifies this
      ensures Now() == ProcessParents(cfg, old(Now()), certs, r, leader)
    {
      if r > round {
        round, busRound, lastParents, pace := r, r, certs, pace.(advance := false);
      } else if r == round {
        lastParents := lastParents + certs;
      }
      var ready;
      if round % 2 == 0 { ready := UpdateLeader(leader); } else { ready := EnoughVotesNow(leader); }
      pace := pace.(advance := ready);
    }

    /** Drops the committed headers and reports the highest committed round. */
    method RemoveCommitted(committedHeaders: seq<nat>) returns (maxCommittedRound: nat)
      modifies `proposedHeaders
      ensures maxCommittedRound == MaxRound(committedHeaders)
      ensures proposedHeaders == old(proposedHeaders) - RoundsOf(committedHeaders)
    {
      maxCommittedRound := 0;
      for i := 0 to |committedHeaders|
        invariant maxCommittedRound == MaxRound(committedHeaders[..i])
        invariant proposedHeaders == old(proposedHeaders) - RoundsOf(committedHeaders[..i])
      {
        assert committedHeaders[..i + 1][..i] == committedHeaders[..i];
        assert RoundsOf(committedHeaders[..i + 1]) == RoundsOf(committedHeaders[..i]) + {committedHeaders[i]};
        if committedHeaders[i] > maxCommittedRound { maxCommittedRound := committedHeaders[i]; }
        proposedHeaders := proposedHeaders - {committedHeaders[i]};
      }
      assert committedHeaders[..|committedHeaders|] == committedHeaders;
    }

    /** Walks the proposed headers in round order, stopping past the committed round. */
    method CollectStale(rounds: seq<nat>, maxCommittedRound: nat) returns (resend: seq<BatchRef>, i: nat)
      ensures i <= |rounds| && resend == PayloadsOf(proposedHeaders, rounds[..i])
      ensures forall j :: 0 <= j < i ==> rounds[j] <= maxCommittedRound
      ensures i < |rounds| ==> rounds[i] > maxCommittedRound
    {
      i, resend := 0, [];
      while i < |rounds|
        invariant 0 <= i <= |rounds|
        invariant resend == PayloadsOf(proposedHeaders, rounds[..i])
        invariant forall j :: 0 <= j < i ==> rounds[j] <= maxCommittedRound
      {
        if rounds[i] > maxCommittedRound { break; }
        assert rounds[..i + 1][..i] == rounds[..i];
        if rounds[i] in proposedHeaders { resend := resend + proposedHeaders[rounds[i]].payload; }
        i := i + 1;
      }
    }

    method ProcessCommittedHeaders(committedHeaders: seq<nat>)
      modifies this
      ensures Now() == ProcessCommitted(old(Now()), committedHeaders)
    {
      ghost var s := Now();
      var maxCommittedRound := RemoveCommitted(committedHeaders);
      ghost var open := proposedHeaders;
      var rounds: seq<nat> := SortedNats(proposedHeaders.Keys);
      var resend, n := CollectStale(rounds, maxCommittedRound);
      CommittedNow(s, committedHeaders, rounds, n);
      digests, proposedHeaders := resend + digests, proposedHeaders - RoundsOf(rounds[..n]);
      past := past.(committed := past.committed + CommittedKeys(s.proposed, committedHeaders));
      assert digests == PayloadsOf(open, rounds[..n]) + s.queue && proposedHeaders == open - RoundsOf(rounds[..n]);
    }

    method ChooseHeader(current: nat, meta: nat) returns (header: Header, rest: seq<BatchRef>)
      requires current == NextRound(Now())
      ensures header == NextHeader(cfg, Now(), meta) && rest == QueueAfter(cfg, Now())
      ensures header.round == current && Chosen(cfg, epoch, lastProposed, digests, rest, header)
    {
      if lastProposed.Some? && lastProposed.value.round == current && lastProposed.value.epoch == epoch {
        return lastProposed.value, digests;
      }
      var n := if |digests| < cfg.maxBatches then |digests| else cfg.maxBatches;
      header, rest := Header(current, epoch, Collect(digests[..n]), meta), digests[n..];
      NewHeaderTakesFront(cfg, Now(), meta);
    }

    method ProposeNextHeader(meta: nat)
      requires pendingHeader.None?
      modifies this
      ensures Now() == Propose(cfg, old(Now()), meta)
      ensures round > old(round) && round > old(busRound) && (round == old(round) + 1 || round == old(busRound) + 1)
      ensures pendingHeader.Some? && pendingHeader.value.header.round == round
      ensures Chosen(cfg, epoch, old(lastProposed), old(digests), digests, pendingHeader.value.header)
    {
      var current := round + 1;
      var updated := busRound + 1;
      if updated > current { current := updated; }
      var header, rest := ChooseHeader(current, meta);
      round, busRound, lastParents, digests, pendingHeader := current, current, [], rest, Some(Task(header, Building));
      pace := pace.(maxTimedOut := false, minTimedOut := false);
      past := past.(untouched := false, reproposed := past.reproposed || Reproposes(old(Now())));
    }

    method HandleProposalResult(header: Header)
      modifies this
      ensures Now() == HandleResult(old(Now()), header)
    {
      pendingHeader, pace, proposedHeaders := None, pace.(advance := false), proposedHeaders[header.round := header];
    }

    method HandleArm(arm: Arm, env: Env)
      modifies this
      ensures Now() == ApplyArm(cfg, old(Now()), arm, env)
    {
      match arm
      case NewDigest(b) =>
        digests := digests + [b];
        past := past.(received := past.received + {b.digest}, acknowledged := past.acknowledged + {b.digest});
      case NewParents(certs, r) => ProcessParentCerts(certs, r, env.leader);
      case Committed(rounds) => ProcessCommittedHeaders(rounds);
      case TaskDone =>
        if pendingHeader.Some? && pendingHeader.value.phase.Sent? { HandleProposalResult(pendingHeader.value.header); }
      case TaskFailed =>
        if pendingHeader.Some? && !pendingHeader.value.phase.Sent? { pendingHeader := None; stopped := true; }
      case MaxTick => pace := pace.(maxTimedOut := true);
      case MinTick => pace := pace.(minTimedOut := true);
    }

    /** One turn of the select loop. */
    method RunTurn(arm: Arm, env: Env)
      modifies this
      ensures Now() == Step(cfg, old(Now()), Select(arm, env))
    {
      if stopped { return; }
      HandleArm(arm, env);
      if stopped || pendingHeader.Some? { return; }
      var enoughParents := lastParents != [];
      var enoughDigests := |digests| >= cfg.batchThreshold;
      if enoughParents && (pace.maxTimedOut || (pace.advance && (enoughDigests || pace.minTimedOut))) {
        ProposeNextHeader(env.meta);
      }
    }

    /** `store_and_send_header`, its two effects in order. */
    method StoreAndSend()
      requires pendingHeader.Some? && pendingHeader.value.phase.Building?
      modifies `pendingHeader, `lastProposed, `past
      ensures Now() == Step(cfg, Step(cfg, old(Now()), TaskStore), TaskSend)
    {
      lastProposed := Some(pendingHeader.value.header);
      past := past.(sent := past.sent + [pendingHeader.value.header]);
      pendingHeader := Some(Task(pendingHeader.value.header, Sent));
    }
  }
}
