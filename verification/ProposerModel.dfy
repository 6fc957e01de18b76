/** The header proposer as a state machine: one step per turn of its select loop, plus the steps of the
    task that builds, stores and sends a header, of the shared round watch, and of a node restart.
    Source: crates/consensus/primary/src/proposer.rs */
module ProposerModel {
  import opened Basics
  import opened Committees

  type Digest = nat

  /** A batch digest with what the header records about it (`ProposerDigest`). */
  datatype BatchRef = BatchRef(digest: Digest, worker: nat, timestamp: nat)

  datatype Certificate = Certificate(digest: nat, origin: AuthorityId, parents: set<nat>)

  /** `meta` stands for the header fields the environment decides: creation time, parents and the
      latest execution block. */
  datatype Header = Header(round: nat, epoch: nat, payload: seq<BatchRef>, meta: nat)

  datatype Phase = Building | Stored | Sent

  /** The task spawned for one proposal. */
  datatype Task = Task(header: Header, phase: Phase)

  datatype Config = Config(committee: Committee, self: AuthorityId, batchThreshold: nat, maxBatches: nat)

  /** When to propose: the leader to wait for and what has timed out. */
  datatype Pace = Pace(leader: Option<Certificate>, advance: bool, maxTimedOut: bool, minTimedOut: bool)

  /** The record of the run: every header handed to the certifier and every digest acknowledged by any
      session; and of this session where its headers begin, whether it has yet to propose, the digests it
      acknowledged, those reported committed, the payload it found in the store, and whether it proposed
      the header it found. */
  datatype History = History(sent: seq<Header>, acknowledged: set<Digest>, sessionStart: nat, untouched: bool,
                             received: set<Digest>, committed: set<Digest>, inherited: set<Digest>, reproposed: bool)

  datatype State = State(
    round: nat, bus: nat, epoch: nat, parents: seq<Certificate>, pace: Pace,
    queue: seq<BatchRef>, proposed: map<nat, Header>, pending: Option<Task>,
    stored: Option<Header>, halted: bool, past: History)

  // ---------- payloads ----------

  function Keys(p: seq<BatchRef>): set<Digest> { set b | b in p :: b.digest }

  /** Inserting into the insertion-ordered payload map. */
  function Put(p: seq<BatchRef>, b: BatchRef): seq<BatchRef> {
    if p == [] then [b]
    else if p[0].digest == b.digest then [b] + p[1..]
    else [p[0]] + Put(p[1..], b)
  }

  function Collect(q: seq<BatchRef>): seq<BatchRef> {
    if q == [] then [] else Put(Collect(q[..|q| - 1]), q[|q| - 1])
  }

  ghost predicate Distinct(p: seq<BatchRef>) {
    forall i, j :: 0 <= i < j < |p| ==> p[i].digest != p[j].digest
  }

  lemma KeysConcat(a: seq<BatchRef>, b: seq<BatchRef>)
    ensures Keys(a + b) == Keys(a) + Keys(b)
  {}

  lemma {:induction false} PutKeys(p: seq<BatchRef>, b: BatchRef)
    ensures Keys(Put(p, b)) == Keys(p) + {b.digest}
  {
    if p == [] {
      assert Put(p, b) == [b];
    } else {
      var tail := if p[0].digest == b.digest then p[1..] else Put(p[1..], b);
      var head := if p[0].digest == b.digest then b else p[0];
      assert p == [p[0]] + p[1..] && Put(p, b) == [head] + tail;
      PutKeys(p[1..], b);
      KeysConcat([p[0]], p[1..]);
      KeysConcat([head], tail);
    }
  }

  lemma KeyAt(p: seq<BatchRef>, i: nat)
    requires i < |p|
    ensures p[i].digest in Keys(p)
  {}

  lemma {:induction false} PutNew(p: seq<BatchRef>, b: BatchRef)
    requires b.digest !in Keys(p)
    ensures Put(p, b) == p + [b]
  {
    if p != [] {
      KeyAt(p, 0);
      assert p == [p[0]] + p[1..];
      KeysConcat([p[0]], p[1..]);
      PutNew(p[1..], b);
    }
  }

  lemma {:induction false} PutDistinct(p: seq<BatchRef>, b: BatchRef)
    requires Distinct(p)
    ensures Distinct(Put(p, b))
  {
    if p != [] && p[0].digest != b.digest {
      PutDistinct(p[1..], b);
      PutKeys(p[1..], b);
      var tail := Put(p[1..], b);
      forall i | 0 <= i < |tail| ensures tail[i].digest != p[0].digest {
        KeyAt(tail, i);
        if tail[i].digest != b.digest {
          var c :| c in p[1..] && c.digest == tail[i].digest;
        }
      }
    }
  }

  lemma {:induction false} CollectDistinct(q: seq<BatchRef>)
    ensures Distinct(Collect(q))
  {
    if q != [] {
      var n := |q| - 1;
      CollectDistinct(q[..n]);
      PutDistinct(Collect(q[..n]), q[n]);
    }
  }

  lemma LastIsNew(q: seq<BatchRef>)
    requires q != [] && Distinct(q)
    ensures Distinct(q[..|q| - 1]) && q[|q| - 1].digest !in Keys(q[..|q| - 1])
  {}

  /** The payload has the digests of the queue segment it was built from, each once, and is that
      segment when nothing repeats. */
  lemma {:induction false} CollectKeys(q: seq<BatchRef>)
    ensures Keys(Collect(q)) == Keys(q) && Distinct(Collect(q))
    ensures Distinct(q) ==> Collect(q) == q
  {
    CollectDistinct(q);
    if q != [] {
      var n := |q| - 1;
      CollectKeys(q[..n]);
      PutKeys(Collect(q[..n]), q[n]);
      assert q == q[..n] + [q[n]];
      KeysConcat(q[..n], [q[n]]);
      if Distinct(q) {
        LastIsNew(q);
        PutNew(q[..n], q[n]);
      }
    }
  }

  function ProposedKeys(m: map<nat, Header>): set<Digest> {
    set r, b | r in m && b in m[r].payload :: b.digest
  }

  function PendingKeys(p: Option<Task>): set<Digest> {
    if p.Some? then Keys(p.value.header.payload) else {}
  }

  /** Payloads of the headers proposed for rounds below `n`, oldest round first. */
  function ResendBelow(m: map<nat, Header>, n: nat): seq<BatchRef> {
    if n == 0 then []
    else ResendBelow(m, n - 1) + if n - 1 in m then m[n - 1].payload else []
  }

  lemma {:induction false} ResendKeys(m: map<nat, Header>, n: nat)
    ensures Keys(ResendBelow(m, n)) == set r, b | r in m && r < n && b in m[r].payload :: b.digest
  {
    if n > 0 {
      ResendKeys(m, n - 1);
      KeysConcat(ResendBelow(m, n - 1), if n - 1 in m then m[n - 1].payload else []);
    }
  }

  // ---------- the vote test ----------

  function VotesFor(c: Committee, certs: seq<Certificate>, leader: nat): nat {
    if certs == [] then 0
    else VotesFor(c, certs[..|certs| - 1], leader)
         + if leader in certs[|certs| - 1].parents then c.PowerOf(certs[|certs| - 1].origin) else 0
  }

  function VotesAgainst(c: Committee, certs: seq<Certificate>, leader: nat): nat {
    if certs == [] then 0
    else VotesAgainst(c, certs[..|certs| - 1], leader)
         + if leader in certs[|certs| - 1].parents then 0 else c.PowerOf(certs[|certs| - 1].origin)
  }

  predicate EnoughVotes(cfg: Config, certs: seq<Certificate>, leader: Option<Certificate>, nextLeader: AuthorityId) {
    || nextLeader == cfg.self
    || leader.None?
    || VotesFor(cfg.committee, certs, leader.value.digest) >= cfg.committee.Validity()
    || VotesAgainst(cfg.committee, certs, leader.value.digest) >= cfg.committee.Quorum()
  }

  function FindByOrigin(certs: seq<Certificate>, id: AuthorityId): Option<Certificate> {
    if certs == [] then None
    else if certs[0].origin == id then Some(certs[0])
    else FindByOrigin(certs[1..], id)
  }

  // ---------- one turn of the loop ----------

  datatype Arm =
    | NewDigest(batch: BatchRef)
    | NewParents(certs: seq<Certificate>, round: nat)
    | Committed(rounds: seq<nat>)
    | TaskDone
    | TaskFailed
    | MaxTick
    | MinTick

  /** What the environment contributes to a turn: the leader the schedule names when asked, and the
      header fields of a proposal made in it. */
  datatype Env = Env(leader: AuthorityId, meta: nat)

  datatype Event =
    | Select(arm: Arm, env: Env)
    | TaskStore
    | TaskSend
    | BusUpdate(round: nat)
    | Restart(found: Option<Header>, bus: nat, epoch: nat, genesis: seq<Certificate>)

  function ProcessParents(cfg: Config, s: State, certs: seq<Certificate>, round: nat, leader: AuthorityId): State {
    var s1 :=
      if round > s.round then s.(round := round, bus := round, parents := certs, pace := s.pace.(advance := false))
      else if round < s.round then s
      else s.(parents := s.parents + certs);
    if s1.round % 2 == 0 then
      var found := FindByOrigin(s1.parents, leader);
      s1.(pace := s1.pace.(leader := found, advance := found.Some?))
    else
      s1.(pace := s1.pace.(advance := EnoughVotes(cfg, s1.parents, s1.pace.leader, leader)))
  }

  function MaxRound(rounds: seq<nat>): nat {
    if rounds == [] then 0
    else
      var m := MaxRound(rounds[..|rounds| - 1]);
      if rounds[|rounds| - 1] > m then rounds[|rounds| - 1] else m
  }

  function RoundsOf(rounds: seq<nat>): set<nat> { set r | r in rounds }

  function CommittedKeys(m: map<nat, Header>, rounds: seq<nat>): set<Digest> {
    set r, b | r in rounds && r in m && b in m[r].payload :: b.digest
  }

  function ProcessCommitted(s: State, rounds: seq<nat>): State {
    var top := MaxRound(rounds);
    var open := s.proposed - RoundsOf(rounds);
    s.(queue := ResendBelow(open, top + 1) + s.queue,
       proposed := map r | r in open && r > top :: open[r],
       past := s.past.(committed := s.past.committed + CommittedKeys(s.proposed, rounds)))
  }

  function HandleResult(s: State, h: Header): State {
    s.(pending := None, pace := s.pace.(advance := false), proposed := s.proposed[h.round := h])
  }

  function AddDigest(s: State, b: BatchRef): State {
    s.(queue := s.queue + [b],
       past := s.past.(received := s.past.received + {b.digest}, acknowledged := s.past.acknowledged + {b.digest}))
  }

  function ApplyArm(cfg: Config, s: State, arm: Arm, env: Env): State {
    match arm
    case NewDigest(b) => AddDigest(s, b)
    case NewParents(certs, round) => ProcessParents(cfg, s, certs, round, env.leader)
    case Committed(rounds) => ProcessCommitted(s, rounds)
    case TaskDone =>
      if s.pending.Some? && s.pending.value.phase.Sent? then HandleResult(s, s.pending.value.header) else s
    case TaskFailed =>
      if s.pending.Some? && !s.pending.value.phase.Sent? then s.(pending := None, halted := true) else s
    case MaxTick => s.(pace := s.pace.(maxTimedOut := true))
    case MinTick => s.(pace := s.pace.(minTimedOut := true))
  }

  predicate ShouldPropose(cfg: Config, s: State) {
    && !s.halted && s.pending.None? && s.parents != []
    && (s.pace.maxTimedOut || (s.pace.advance && (|s.queue| >= cfg.batchThreshold || s.pace.minTimedOut)))
  }

  function NextRound(s: State): nat { if s.bus + 1 > s.round + 1 then s.bus + 1 else s.round + 1 }

  predicate Reproposes(s: State) {
    s.stored.Some? && s.stored.value.round == NextRound(s) && s.stored.value.epoch == s.epoch
  }

  function Take(cfg: Config, s: State): nat { if |s.queue| < cfg.maxBatches then |s.queue| else cfg.maxBatches }

  /** What a new header takes of the queue: its front, all of it or else `max` entries, each digest once. */
  ghost predicate TakesFront(max: nat, queue: seq<BatchRef>, rest: seq<BatchRef>, payload: seq<BatchRef>) {
    && |rest| <= |queue|
    && var n := |queue| - |rest|;
    && rest == queue[n..] && n <= max && (rest == [] || n == max)
    && Keys(payload) == Keys(queue[..n]) && Distinct(payload)
    && (Distinct(queue[..n]) ==> payload == queue[..n])
  }

  lemma NewHeaderTakesFront(cfg: Config, s: State, meta: nat)
    requires !Reproposes(s)
    ensures TakesFront(cfg.maxBatches, s.queue, QueueAfter(cfg, s), NextHeader(cfg, s, meta).payload)
  {
    CollectKeys(s.queue[..Take(cfg, s)]);
  }

  /** The stored header if it is for the very round about to be proposed, else a new one over the front
      of the queue. */
  function NextHeader(cfg: Config, s: State, meta: nat): Header {
    if Reproposes(s) then s.stored.value
    else Header(NextRound(s), s.epoch, Collect(s.queue[..Take(cfg, s)]), meta)
  }

  function QueueAfter(cfg: Config, s: State): seq<BatchRef> {
    if Reproposes(s) then s.queue else s.queue[Take(cfg, s)..]
  }

  function Propose(cfg: Config, s: State, meta: nat): State {
    s.(round := NextRound(s), bus := NextRound(s), parents := [],
       pace := s.pace.(maxTimedOut := false, minTimedOut := false),
       past := s.past.(untouched := false, reproposed := s.past.reproposed || Reproposes(s)),
       queue := QueueAfter(cfg, s), pending := Some(Task(NextHeader(cfg, s, meta), Building)))
  }

  function Turn(cfg: Config, s: State, arm: Arm, env: Env): State {
    if s.halted then s
    else
      var s1 := ApplyArm(cfg, s, arm, env);
      if ShouldPropose(cfg, s1) then Propose(cfg, s1, env.meta) else s1
  }

  /** The history a session starts with, given the header it finds in the store. */
  function NewSession(found: Option<Header>, sent: seq<Header>, acknowledged: set<Digest>): History {
    History(sent, acknowledged, |sent|, true, {}, {}, if found.Some? then Keys(found.value.payload) else {}, false)
  }

  function Begin(found: Option<Header>, sent: seq<Header>, acknowledged: set<Digest>, bus: nat, epoch: nat,
                 genesis: seq<Certificate>): State {
    State(0, bus, epoch, genesis, Pace(None, true, false, false), [], map[], None, found, false,
          NewSession(found, sent, acknowledged))
  }

  function Step(cfg: Config, s: State, e: Event): State {
    match e
    case Select(arm, env) => Turn(cfg, s, arm, env)
    case TaskStore =>
      if s.pending.Some? && s.pending.value.phase.Building?
      then s.(pending := Some(s.pending.value.(phase := Stored)), stored := Some(s.pending.value.header)) else s
    case TaskSend =>
      if s.pending.Some? && s.pending.value.phase.Stored?
      then s.(pending := Some(s.pending.value.(phase := Sent)),
              past := s.past.(sent := s.past.sent + [s.pending.value.header]))
      else s
    case BusUpdate(r) => s.(bus := r)
    case Restart(found, bus, epoch, genesis) =>
      Begin(found, s.past.sent, s.past.acknowledged, bus, epoch, genesis)
  }

  function Run(cfg: Config, s: State, events: seq<Event>): State
    decreases |events|
  {
    if events == [] then s else Run(cfg, Step(cfg, s, events[0]), events[1..])
  }

  function Boot(bus: nat, epoch: nat, genesis: seq<Certificate>): State { Begin(None, [], {}, bus, epoch, genesis) }

  // ---------- no digest acknowledged in a session is lost in it ----------

  function Carried(s: State): set<Digest> { Keys(s.queue) + PendingKeys(s.pending) + ProposedKeys(s.proposed) }

  /** Proposed headers are filed by round, below the pending one. */
  ghost predicate Filed(s: State) {
    && (forall r :: r in s.proposed ==> s.proposed[r].round == r <= s.round)
    && (s.pending.Some? ==> s.pending.value.header.round <= s.round
                            && forall r :: r in s.proposed ==> r < s.pending.value.header.round)
  }

  /** While the loop runs, what is carried or was reported committed is exactly what the session acknowledged,
      and the payload it found in the store if it proposed that header. */
  ghost predicate Conserved(s: State) {
    !s.halted ==>
      Carried(s) + s.past.committed == s.past.received + if s.past.reproposed then s.past.inherited else {}
  }

  /** The stored header is the one found at the start until the session stores its own. */
  ghost predicate StoreInherited(s: State) {
    s.stored.Some? ==> Keys(s.stored.value.payload) == s.past.inherited || s.stored.value.round <= s.round
  }

  ghost predicate Tracked(s: State) {
    Filed(s) && Conserved(s) && StoreInherited(s) && s.past.received <= s.past.acknowledged
  }

  lemma CommittedKeepsTracked(s: State, rounds: seq<nat>)
    requires Tracked(s) && !s.halted
    ensures Tracked(ProcessCommitted(s, rounds))
  {
    var s' := ProcessCommitted(s, rounds);
    var open := s.proposed - RoundsOf(rounds);
    ResendKeys(open, MaxRound(rounds) + 1);
    KeysConcat(ResendBelow(open, MaxRound(rounds) + 1), s.queue);
    forall d ensures d in ProposedKeys(s.proposed) <==>
        d in Keys(ResendBelow(open, MaxRound(rounds) + 1)) + ProposedKeys(s'.proposed)
             + CommittedKeys(s.proposed, rounds)
    {
      ProposedSplit(s, rounds, d);
    }
  }

  lemma ProposedSplit(s: State, rounds: seq<nat>, d: Digest)
    ensures var open := s.proposed - RoundsOf(rounds);
            var later := ProcessCommitted(s, rounds).proposed;
            d in ProposedKeys(s.proposed) <==>
            d in Keys(ResendBelow(open, MaxRound(rounds) + 1)) + ProposedKeys(later) + CommittedKeys(s.proposed, rounds)
  {
    var open := s.proposed - RoundsOf(rounds);
    var later := ProcessCommitted(s, rounds).proposed;
    ResendKeys(open, MaxRound(rounds) + 1);
    if d in ProposedKeys(s.proposed) {
      var r, b :| r in s.proposed && b in s.proposed[r].payload && b.digest == d;
      if r !in rounds {
        assert r in open && b in open[r].payload;
        if r > MaxRound(rounds) { assert r in later && b in later[r].payload; }
      }
    }
    if d in Keys(ResendBelow(open, MaxRound(rounds) + 1)) {
      var r, b :| r in open && r < MaxRound(rounds) + 1 && b in open[r].payload && b.digest == d;
      assert s.proposed[r] == open[r];
    }
    if d in ProposedKeys(later) {
      var r, b :| r in later && b in later[r].payload && b.digest == d;
      assert s.proposed[r] == later[r];
    }
  }

  /** Recording the finished proposal never overwrites an older one. */
  lemma ResultKeepsTracked(s: State)
    requires Tracked(s) && s.pending.Some?
    ensures s.pending.value.header.round !in s.proposed
    ensures Tracked(HandleResult(s, s.pending.value.header))
  {
    var h := s.pending.value.header;
    var s' := HandleResult(s, h);
    forall d ensures d in ProposedKeys(s'.proposed) <==> d in ProposedKeys(s.proposed) + Keys(h.payload) {
      if d in ProposedKeys(s.proposed) {
        var r, b :| r in s.proposed && b in s.proposed[r].payload && b.digest == d;
        assert s'.proposed[r] == s.proposed[r];
      }
      if d in Keys(h.payload) {
        var b :| b in h.payload && b.digest == d;
        assert s'.proposed[h.round] == h;
      }
      if d in ProposedKeys(s'.proposed) {
        var r, b :| r in s'.proposed && b in s'.proposed[r].payload && b.digest == d;
      }
    }
    assert ProposedKeys(s'.proposed) == ProposedKeys(s.proposed) + Keys(h.payload);
  }

  /** A new header takes its payload off the queue; the stored one brings its own. */
  lemma ProposeCarries(cfg: Config, s: State, meta: nat)
    requires s.pending.None?
    ensures Carried(Propose(cfg, s, meta)) == Carried(s) + if Reproposes(s) then Keys(s.stored.value.payload) else {}
  {
    if !Reproposes(s) {
      var n := Take(cfg, s);
      CollectKeys(s.queue[..n]);
      KeysConcat(s.queue[..n], s.queue[n..]);
      assert s.queue == s.queue[..n] + s.queue[n..];
    }
  }

  lemma ProposeKeepsTracked(cfg: Config, s: State, meta: nat)
    requires Tracked(s) && ShouldPropose(cfg, s)
    ensures Tracked(Propose(cfg, s, meta))
  {
    ProposeCarries(cfg, s, meta);
    assert Reproposes(s) ==> Keys(s.stored.value.payload) == s.past.inherited;
    assert Filed(Propose(cfg, s, meta));
  }

  /** Tracking reads only the digest-bearing fields and lets the round grow. */
  lemma TrackedFrame(s: State, s': State)
    requires Tracked(s) && s'.round >= s.round
    requires s'.queue == s.queue && s'.proposed == s.proposed && s'.pending == s.pending && s'.halted == s.halted
    requires s'.past == s.past && s'.stored == s.stored
    ensures Tracked(s')
  {}

  lemma DigestKeepsTracked(s: State, b: BatchRef)
    requires Tracked(s)
    ensures Tracked(AddDigest(s, b))
  {
    KeysConcat(s.queue, [b]);
    assert Keys([b]) == {b.digest} by { KeyAt([b], 0); }
  }

  lemma ArmKeepsTracked(cfg: Config, s: State, arm: Arm, env: Env)
    requires Tracked(s) && !s.halted
    ensures Tracked(ApplyArm(cfg, s, arm, env))
  {
    match arm
    case NewDigest(b) => DigestKeepsTracked(s, b);
    case Committed(rounds) => CommittedKeepsTracked(s, rounds);
    case TaskDone =>
      if s.pending.Some? { ResultKeepsTracked(s); }
    case TaskFailed =>
    case _ => TrackedFrame(s, ApplyArm(cfg, s, arm, env));
  }

  lemma StepKeepsTracked(cfg: Config, s: State, e: Event)
    requires Tracked(s)
    ensures Tracked(Step(cfg, s, e))
  {
    if e.Select? && !s.halted {
      ArmKeepsTracked(cfg, s, e.arm, e.env);
      var s1 := ApplyArm(cfg, s, e.arm, e.env);
      if ShouldPropose(cfg, s1) { ProposeKeepsTracked(cfg, s1, e.env.meta); }
    }
  }

  /** Conservation over every interleaving: in each session, while its loop runs, the digests queued, in the
      pending header, in a proposed header or reported committed are exactly those the session
      acknowledged, with the payload found in the store once that header is proposed again. */
  lemma {:induction false} NoDigestLost(cfg: Config, s: State, events: seq<Event>)
    requires Tracked(s)
    ensures Tracked(Run(cfg, s, events))
    decreases |events|
  {
    if events != [] {
      StepKeepsTracked(cfg, s, events[0]);
      NoDigestLost(cfg, Step(cfg, s, events[0]), events[1..]);
    }
  }

  // ---------- what a restart loses ----------

  /** Neither a restart nor another arrival of `d`. */
  predicate Quiet(e: Event, d: Digest) {
    !e.Restart? && !(e.Select? && e.arm.NewDigest? && e.arm.batch.digest == d)
  }

  lemma {:induction false} SessionFrame(cfg: Config, s: State, events: seq<Event>, d: Digest)
    requires d !in s.past.received && forall i :: 0 <= i < |events| ==> Quiet(events[i], d)
    ensures var t := Run(cfg, s, events);
            d !in t.past.received && t.past.inherited == s.past.inherited && s.past.acknowledged <= t.past.acknowledged
    decreases |events|
  {
    if events != [] {
      assert Quiet(events[0], d);
      SessionFrame(cfg, Step(cfg, s, events[0]), events[1..], d);
    }
  }

  /** A digest of an earlier session is carried in a later one, as long as it does not arrive again, exactly
      when it is in the header found in the store and that header was proposed again. */
  lemma EarlierDigestCarriedIff(cfg: Config, s: State, e: Event, events: seq<Event>, d: Digest)
    requires Tracked(s) && d in s.past.acknowledged && e.Restart?
    requires forall i :: 0 <= i < |events| ==> Quiet(events[i], d)
    ensures var t := Run(cfg, Step(cfg, s, e), events);
            && d in t.past.acknowledged
            && (!t.halted ==>
                  (d in Carried(t) + t.past.committed
                   <==> e.found.Some? && d in Keys(e.found.value.payload) && t.past.reproposed))
  {
    StepKeepsTracked(cfg, s, e);
    SessionFrame(cfg, Step(cfg, s, e), events, d);
    NoDigestLost(cfg, Step(cfg, s, e), events);
  }

  /** So one that was acknowledged but not yet in a stored header is gone after a restart. */
  lemma RestartLosesAcknowledged(cfg: Config, s: State, b: BatchRef, env: Env, bus: nat, epoch: nat,
                                 genesis: seq<Certificate>, events: seq<Event>)
    requires Tracked(s) && !s.halted
    requires s.stored.Some? ==> b.digest !in Keys(s.stored.value.payload)
    requires forall i :: 0 <= i < |events| ==> Quiet(events[i], b.digest)
    ensures var s1 := Step(cfg, s, Select(NewDigest(b), env));
            var t := Run(cfg, Step(cfg, s1, Restart(s1.stored, bus, epoch, genesis)), events);
            b.digest in t.past.acknowledged && (!t.halted ==> b.digest !in Carried(t) + t.past.committed)
  {
    var s1 := Step(cfg, s, Select(NewDigest(b), env));
    StepKeepsTracked(cfg, s, Select(NewDigest(b), env));
    EarlierDigestCarriedIff(cfg, s1, Restart(s1.stored, bus, epoch, genesis), events, b.digest);
  }
}
