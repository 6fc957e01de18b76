/** What every run of the proposer keeps: one header per round, exact retransmission, disjoint
    payloads, and a vote test that cannot block once all parents are in.
    Source: crates/consensus/primary/src/proposer.rs */
module ProposerSafety {
  import opened Basics
  import opened Committees
  import opened SortedSets
  import opened ProposerModel

  // ---------- one header per round and epoch ----------

  ghost predicate Unique(sent: seq<Header>) {
    forall g, h :: g in sent && h in sent && g.epoch == h.epoch && g.round == h.round ==> g == h
  }

  /** Sending `g` gives no header sent before a rival: it is newer than all of its epoch, or one of them. */
  predicate Clear(sent: seq<Header>, g: Header) {
    forall h :: h in sent && h.epoch == g.epoch ==> h.round < g.round || h == g
  }

  ghost predicate PendingOrdered(s: State) {
    s.pending.Some? ==>
      var t := s.pending.value;
      && !s.past.untouched
      && t.header.epoch == s.epoch && t.header.round <= s.round
      && (!t.phase.Sent? ==> Clear(s.past.sent, t.header))
      && (!t.phase.Sent? ==>
            forall i :: s.past.sessionStart <= i < |s.past.sent| ==> s.past.sent[i].round < t.header.round)
  }

  /** The headers of the current session come in strictly increasing rounds. */
  ghost predicate SessionOrdered(s: State) {
    && s.past.sessionStart <= |s.past.sent|
    && (s.past.untouched ==> s.past.sessionStart == |s.past.sent|)
    && (forall i :: s.past.sessionStart <= i < |s.past.sent| ==>
          s.past.sent[i].epoch == s.epoch && s.past.sent[i].round <= s.round)
    && (forall i, j :: s.past.sessionStart <= i < j < |s.past.sent| ==> s.past.sent[i].round < s.past.sent[j].round)
  }

  ghost predicate OneHeader(s: State) {
    && Unique(s.past.sent)
    && SessionOrdered(s)
    && PendingOrdered(s)
    && (forall h :: h in s.past.sent ==>
          h.epoch <= s.epoch && (!s.past.untouched && h.epoch == s.epoch ==> h.round <= s.round))
  }

  /** The first header a session proposes must give none of those sent before a rival, and a restart never
      goes back an epoch. What the session finds in the store may be anything. */
  predicate SafeStep(cfg: Config, s: State, e: Event) {
    match e
    case Restart(_, _, epoch, _) => epoch >= s.epoch
    case Select(arm, env) =>
      var a := ApplyArm(cfg, s, arm, env);
      s.past.untouched && !s.halted && ShouldPropose(cfg, a) ==> Clear(s.past.sent, NextHeader(cfg, a, env.meta))
    case _ => true
  }

  predicate AllSafe(cfg: Config, s: State, events: seq<Event>)
    decreases |events|
  {
    events == [] || (SafeStep(cfg, s, events[0]) && AllSafe(cfg, Step(cfg, s, events[0]), events[1..]))
  }

  lemma ParentsFrame(cfg: Config, s: State, certs: seq<Certificate>, round: nat, leader: AuthorityId)
    ensures var s' := ProcessParents(cfg, s, certs, round, leader);
            && s' == s.(round := s'.round, bus := s'.bus, parents := s'.parents, pace := s'.pace)
            && s'.pace.maxTimedOut == s.pace.maxTimedOut
            && s'.round == (if round > s.round then round else s.round)
            && s'.bus == (if round > s.round then round else s.bus)
            && s'.parents == (if round > s.round then certs
                              else if round < s.round then s.parents else s.parents + certs)
  {}

  /** The arms of the loop only let the round grow and never touch store or channel. */
  lemma ArmFrame(cfg: Config, s: State, arm: Arm, env: Env)
    ensures var s' := ApplyArm(cfg, s, arm, env);
            && s'.round >= s.round && s'.epoch == s.epoch && s'.stored == s.stored && s'.past.sent == s.past.sent
            && s'.past.sessionStart == s.past.sessionStart && s'.past.untouched == s.past.untouched
            && (s'.pending == s.pending || s'.pending == None)
  {
    match arm
    case NewParents(certs, round) => ParentsFrame(cfg, s, certs, round, env.leader);
    case _ =>
  }

  lemma ArmKeepsOneHeader(cfg: Config, s: State, arm: Arm, env: Env)
    requires OneHeader(s)
    ensures OneHeader(ApplyArm(cfg, s, arm, env))
  {
    ArmFrame(cfg, s, arm, env);
  }

  lemma ProposeKeepsOneHeader(cfg: Config, s: State, meta: nat)
    requires OneHeader(s) && s.pending.None?
    requires s.past.untouched ==> Clear(s.past.sent, NextHeader(cfg, s, meta))
    ensures OneHeader(Propose(cfg, s, meta))
  {}

  lemma SendKeepsOneHeader(s: State)
    requires OneHeader(s) && s.pending.Some? && s.pending.value.phase.Stored?
    ensures OneHeader(s.(pending := Some(s.pending.value.(phase := Sent)),
                         past := s.past.(sent := s.past.sent + [s.pending.value.header])))
  {
    var h := s.pending.value.header;
    var sent := s.past.sent + [h];
    forall g | g in sent && g.epoch == h.epoch && g.round == h.round ensures g == h {}
  }

  lemma StepKeepsOneHeader(cfg: Config, s: State, e: Event)
    requires OneHeader(s) && SafeStep(cfg, s, e)
    ensures OneHeader(Step(cfg, s, e))
  {
    match e
    case Select(arm, env) =>
      if !s.halted {
        ArmKeepsOneHeader(cfg, s, arm, env);
        ArmFrame(cfg, s, arm, env);
        var s1 := ApplyArm(cfg, s, arm, env);
        if ShouldPropose(cfg, s1) { ProposeKeepsOneHeader(cfg, s1, env.meta); }
      }
    case TaskStore =>
    case TaskSend => if s.pending.Some? && s.pending.value.phase.Stored? { SendKeepsOneHeader(s); }
    case BusUpdate(_) =>
    case Restart(_, _, _, _) =>
  }

  /** Over any run with any number of restarts and crashes, if each session's first header is clear of those
      sent before, no two different headers are ever sent for one round of one epoch. */
  lemma {:induction false} OneHeaderPerRound(cfg: Config, s: State, events: seq<Event>)
    requires OneHeader(s) && AllSafe(cfg, s, events)
    ensures OneHeader(Run(cfg, s, events))
    decreases |events|
  {
    if events != [] {
      StepKeepsOneHeader(cfg, s, events[0]);
      OneHeaderPerRound(cfg, Step(cfg, s, events[0]), events[1..]);
    }
  }

  lemma BootIsOneHeader(bus: nat, epoch: nat, genesis: seq<Certificate>)
    ensures var s := Boot(bus, epoch, genesis); OneHeader(s) && StoreKnows(s) && Tracked(s) && Disjoint(s)
  {
    assert Keys([]) == {} && ProposedKeys(map[]) == {};
  }

  // ---------- when the stored header survives every restart ----------

  /** `g` is older than `h`, or is `h`. */
  predicate NotAfter(g: Header, h: Header) {
    g == h || g.epoch < h.epoch || (g.epoch == h.epoch && g.round < h.round)
  }

  /** The store is never behind what was sent. */
  ghost predicate StoreKnows(s: State) {
    && (forall h :: h in s.past.sent ==> s.stored.Some? && NotAfter(h, s.stored.value))
    && (s.stored.Some? ==>
          && s.stored.value.epoch <= s.epoch
          && (!s.past.untouched && s.stored.value.epoch == s.epoch ==> s.stored.value.round <= s.round))
    && (s.pending.Some? ==>
          && (s.stored.Some? ==> NotAfter(s.stored.value, s.pending.value.header))
          && (!s.pending.value.phase.Building? ==> s.stored == Some(s.pending.value.header)))
  }

  /** A restart finds what was stored, and no session first proposes below that. */
  predicate NotBelowStored(cfg: Config, s: State, e: Event) {
    match e
    case Restart(found, _, epoch, _) => found == s.stored && epoch >= s.epoch
    case Select(arm, env) =>
      var a := ApplyArm(cfg, s, arm, env);
      s.past.untouched && !s.halted && ShouldPropose(cfg, a) && s.stored.Some? && s.stored.value.epoch == s.epoch
      ==> s.stored.value.round <= NextRound(a)
    case _ => true
  }

  predicate NeverBelowStored(cfg: Config, s: State, events: seq<Event>)
    decreases |events|
  {
    events == [] || (NotBelowStored(cfg, s, events[0]) && NeverBelowStored(cfg, Step(cfg, s, events[0]), events[1..]))
  }

  lemma ProposeKeepsStoreKnows(cfg: Config, s: State, meta: nat)
    requires StoreKnows(s) && OneHeader(s) && s.pending.None?
    requires s.past.untouched && s.stored.Some? && s.stored.value.epoch == s.epoch ==>
               s.stored.value.round <= NextRound(s)
    ensures Clear(s.past.sent, NextHeader(cfg, s, meta)) && StoreKnows(Propose(cfg, s, meta))
  {}

  lemma NotBelowStoredIsSafe(cfg: Config, s: State, e: Event)
    requires StoreKnows(s) && OneHeader(s) && NotBelowStored(cfg, s, e)
    ensures SafeStep(cfg, s, e) && StoreKnows(Step(cfg, s, e))
  {
    match e
    case Select(arm, env) =>
      ArmFrame(cfg, s, arm, env);
      ArmKeepsOneHeader(cfg, s, arm, env);
      var a := ApplyArm(cfg, s, arm, env);
      if !s.halted && ShouldPropose(cfg, a) { ProposeKeepsStoreKnows(cfg, a, env.meta); }
    case TaskStore =>
      if s.pending.Some? && s.pending.value.phase.Building? {
        forall h | h in s.past.sent ensures NotAfter(h, s.pending.value.header) { assert NotAfter(h, s.stored.value); }
      }
    case _ =>
  }

  /** Then the store alone decides: with every session starting at or above its stored round, one header is
      sent per round and epoch over any number of restarts. */
  lemma {:induction false} OneHeaderOverRestarts(cfg: Config, s: State, events: seq<Event>)
    requires OneHeader(s) && StoreKnows(s) && NeverBelowStored(cfg, s, events)
    ensures OneHeader(Run(cfg, s, events)) && StoreKnows(Run(cfg, s, events)) && AllSafe(cfg, s, events)
    decreases |events|
  {
    if events != [] {
      NotBelowStoredIsSafe(cfg, s, events[0]);
      StepKeepsOneHeader(cfg, s, events[0]);
      OneHeaderOverRestarts(cfg, Step(cfg, s, events[0]), events[1..]);
    }
  }

  // ---------- and the condition is exact ----------

  /** From a first proposal below the round of a header sent before, a schedule that sends a second,
      different header for that round. */
  lemma UnsafeFirstProposalEquivocates(cfg: Config, s: State, h: Header, c: Certificate)
    returns (more: seq<Event>, g: Header)
    requires !s.past.untouched && !s.halted && s.parents == [] && !s.pace.maxTimedOut && s.bus == s.round
    requires s.pending.Some? && s.pending.value.phase.Building?
    requires s.pending.value.header.round == s.round && s.pending.value.header.epoch == s.epoch == h.epoch
    requires h in s.past.sent && s.round < h.round
    ensures AllSafe(cfg, s, more)
    ensures var t := Run(cfg, s, more).past.sent;
            h in t && g in t && g.epoch == h.epoch && g.round == h.round && g != h
  {
    var env := Env(0, h.meta + 1);
    var s1 := Step(cfg, s, TaskStore);
    var s2 := Step(cfg, s1, TaskSend);
    var s3 := Step(cfg, s2, Select(TaskDone, env));
    assert s3.parents == [] && s3.pending == None && s3.round == s.round && s3.bus == s.round && !s3.pace.maxTimedOut;
    var s4 := Step(cfg, s3, Select(NewParents([c], h.round - 1), env));
    ParentsReachRound(cfg, s3, c, h, env);
    var s5 := Step(cfg, s4, Select(MaxTick, env));
    var s6 := Step(cfg, s5, TaskStore);
    var s7 := Step(cfg, s6, TaskSend);
    g := s5.pending.value.header;
    var m6 := [TaskSend];
    var m5 := [TaskStore] + m6;
    var m4 := [Select(MaxTick, env)] + m5;
    var m3 := [Select(NewParents([c], h.round - 1), env)] + m4;
    var m2 := [Select(TaskDone, env)] + m3;
    var m1 := [TaskSend] + m2;
    more := [TaskStore] + m1;
    RunCons(cfg, s, TaskStore, m1);
    RunCons(cfg, s1, TaskSend, m2);
    RunCons(cfg, s2, Select(TaskDone, env), m3);
    RunCons(cfg, s3, Select(NewParents([c], h.round - 1), env), m4);
    RunCons(cfg, s4, Select(MaxTick, env), m5);
    RunCons(cfg, s5, TaskStore, m6);
    RunCons(cfg, s6, TaskSend, []);
    assert [TaskSend] + [] == m6;
    TouchedRunIsSafe(cfg, s, more);
    assert s7.past.sent == s.past.sent + [s.pending.value.header] + [g];
  }

  /** With parents for the round below `h` in hand, the next proposal, now or at the next timeout, is a
      new header for `h`'s round. */
  lemma ParentsReachRound(cfg: Config, s: State, c: Certificate, h: Header, env: Env)
    requires !s.past.untouched && !s.halted && s.pending.None? && s.parents == [] && !s.pace.maxTimedOut
    requires s.bus == s.round < h.round
    requires s.stored.Some? && s.stored.value.round == s.round
    requires env.meta == h.meta + 1
    ensures var s4 := Step(cfg, s, Select(NewParents([c], h.round - 1), env));
            var s5 := Step(cfg, s4, Select(MaxTick, env));
            && s4.past.sent == s5.past.sent == s.past.sent && !s4.past.untouched && !s5.past.untouched
            && s5.pending.Some? && s5.pending.value.phase.Building?
            && s5.pending.value.header.round == h.round && s5.pending.value.header.epoch == s.epoch
            && s5.pending.value.header.meta == h.meta + 1
  {
    var arm := NewParents([c], h.round - 1);
    var a := ApplyArm(cfg, s, arm, env);
    ParentsFrame(cfg, s, [c], h.round - 1, env.leader);
    assert s.parents + [c] == [c];
    if ShouldPropose(cfg, a) {
      ProposesAt(cfg, a, h, env);
      TickKeepsPending(cfg, Propose(cfg, a, env.meta), env);
    } else {
      TickProposes(cfg, a, env);
      ProposesAt(cfg, a.(pace := a.pace.(maxTimedOut := true)), h, env);
    }
  }

  lemma TickKeepsPending(cfg: Config, s: State, env: Env)
    requires s.pending.Some? && !s.halted
    ensures Step(cfg, s, Select(MaxTick, env)) == s.(pace := s.pace.(maxTimedOut := true))
  {}

  lemma TickProposes(cfg: Config, s: State, env: Env)
    requires s.pending.None? && !s.halted && s.parents != []
    ensures Step(cfg, s, Select(MaxTick, env)) == Propose(cfg, s.(pace := s.pace.(maxTimedOut := true)), env.meta)
  {}

  lemma ProposesAt(cfg: Config, a: State, h: Header, env: Env)
    requires a.round == a.bus == h.round - 1 && a.stored.Some? && a.stored.value.round < h.round
    requires env.meta == h.meta + 1
    ensures var p := Propose(cfg, a, env.meta);
            && p.past.sent == a.past.sent && !p.past.untouched && p.halted == a.halted
            && p.pending.Some? && p.pending.value.phase.Building?
            && p.pending.value.header.round == h.round && p.pending.value.header.epoch == a.epoch
            && p.pending.value.header.meta == h.meta + 1
  {}

  lemma RunCons(cfg: Config, s: State, e: Event, rest: seq<Event>)
    ensures Run(cfg, s, [e] + rest) == Run(cfg, Step(cfg, s, e), rest)
  {
    assert ([e] + rest)[1..] == rest;
  }

  lemma {:induction false} TouchedRunIsSafe(cfg: Config, s: State, events: seq<Event>)
    requires !s.past.untouched && forall i :: 0 <= i < |events| ==> !events[i].Restart?
    ensures AllSafe(cfg, s, events)
    decreases |events|
  {
    if events != [] {
      var e := events[0];
      if e.Select? { ArmFrame(cfg, s, e.arm, e.env); }
      TouchedRunIsSafe(cfg, Step(cfg, s, e), events[1..]);
    }
  }

  /** Sending the pending header at once shows a rival it has. */
  lemma RivalIsSent(cfg: Config, s: State, h: Header) returns (more: seq<Event>)
    requires !s.past.untouched && s.pending.Some? && s.pending.value.phase.Building?
    requires var g := s.pending.value.header; h in s.past.sent && h.epoch == g.epoch && h.round == g.round && h != g
    ensures AllSafe(cfg, s, more) && !Unique(Run(cfg, s, more).past.sent)
  {
    var g := s.pending.value.header;
    more := [TaskStore] + ([TaskSend] + []);
    RunCons(cfg, s, TaskStore, [TaskSend] + []);
    RunCons(cfg, Step(cfg, s, TaskStore), TaskSend, []);
    TouchedRunIsSafe(cfg, s, more);
    assert Run(cfg, s, more).past.sent == s.past.sent + [g];
  }

  /** Every way the run may go on sends one header per round. */
  ghost predicate SendsOnce(cfg: Config, s: State) {
    forall more :: AllSafe(cfg, s, more) ==> Unique(Run(cfg, s, more).past.sent)
  }

  /** The exact condition, known before the proposal is made: whatever a session found in its store, every
      way its run may go on sends one header per round if and only if the first header it is about to
      propose is clear of those sent before. */
  lemma FirstProposalSafeIffClear(cfg: Config, s: State, arm: Arm, env: Env, c: Certificate)
    requires OneHeader(s) && s.past.untouched && !s.halted && ShouldPropose(cfg, ApplyArm(cfg, s, arm, env))
    ensures SendsOnce(cfg, Turn(cfg, s, arm, env))
            <==> Clear(s.past.sent, NextHeader(cfg, ApplyArm(cfg, s, arm, env), env.meta))
  {
    var s', a := Turn(cfg, s, arm, env), ApplyArm(cfg, s, arm, env);
    var g := NextHeader(cfg, a, env.meta);
    ArmFrame(cfg, s, arm, env);
    assert s' == Propose(cfg, a, env.meta) && g.round == NextRound(a) && g.epoch == s.epoch;
    if Clear(s.past.sent, g) {
      StepKeepsOneHeader(cfg, s, Select(arm, env));
      forall more | AllSafe(cfg, s', more) ensures Unique(Run(cfg, s', more).past.sent) {
        OneHeaderPerRound(cfg, s', more);
      }
    } else {
      var h :| h in s.past.sent && h.epoch == g.epoch && h.round >= g.round && h != g;
      var more;
      if h.round == g.round {
        more := RivalIsSent(cfg, s', h);
      } else {
        ghost var rival;
        more, rival := UnsafeFirstProposalEquivocates(cfg, s', h, c);
      }
      assert !Unique(Run(cfg, s', more).past.sent);
    }
  }

  /** `h` is the newest header sent in this epoch. */
  ghost predicate Newest(s: State, h: Header) {
    h in s.past.sent && h.epoch == s.epoch && forall g :: g in s.past.sent && g.epoch == s.epoch ==> g.round <= h.round
  }

  /** With the newest header sent still in the store, the session is safe exactly when the round it is about
      to propose for is not below that header's. */
  lemma RestartSafeIffNotBelowStored(cfg: Config, s: State, arm: Arm, env: Env, c: Certificate)
    requires OneHeader(s) && s.past.untouched && !s.halted && ShouldPropose(cfg, ApplyArm(cfg, s, arm, env))
    requires s.stored.Some? && Newest(s, s.stored.value)
    ensures SendsOnce(cfg, Turn(cfg, s, arm, env))
            <==> s.stored.value.round <= NextRound(ApplyArm(cfg, s, arm, env))
  {
    ArmFrame(cfg, s, arm, env);
    FirstProposalSafeIffClear(cfg, s, arm, env, c);
  }

  /** After a crash the store may hold an older header or none. For the round of the newest header sent, and
      with header contents of its own, the session is safe exactly when that header had become durable;
      above it, always; below it, never. */
  lemma CrashSafeIffDurable(cfg: Config, s: State, arm: Arm, env: Env, c: Certificate, h: Header)
    requires OneHeader(s) && s.past.untouched && !s.halted && ShouldPropose(cfg, ApplyArm(cfg, s, arm, env))
    requires Newest(s, h) && env.meta != h.meta
    ensures var round := NextRound(ApplyArm(cfg, s, arm, env));
            SendsOnce(cfg, Turn(cfg, s, arm, env))
            <==> round > h.round || (round == h.round && s.stored == Some(h))
  {
    var g := NextHeader(cfg, ApplyArm(cfg, s, arm, env), env.meta);
    ArmFrame(cfg, s, arm, env);
    FirstProposalSafeIffClear(cfg, s, arm, env, c);
    assert g.epoch == s.epoch && g.round == NextRound(ApplyArm(cfg, s, arm, env));
    assert Clear(s.past.sent, g) <==> h.round < g.round || h == g;
  }

  /** The same of a node just restarted, about to propose for the round of the newest header it sent. */
  lemma RestartSafeIffFound(cfg: Config, before: State, found: Option<Header>, bus: nat, genesis: seq<Certificate>,
                            arm: Arm, env: Env, c: Certificate, h: Header)
    requires OneHeader(before) && Newest(before, h) && env.meta != h.meta
    ensures var s := Step(cfg, before, Restart(found, bus, before.epoch, genesis));
            var a := ApplyArm(cfg, s, arm, env);
            ShouldPropose(cfg, a) && NextRound(a) == h.round ==>
              (SendsOnce(cfg, Turn(cfg, s, arm, env)) <==> found == Some(h))
  {
    var e := Restart(found, bus, before.epoch, genesis);
    var s := Step(cfg, before, e);
    StepKeepsOneHeader(cfg, before, e);
    assert s.past.sent == before.past.sent && s.epoch == before.epoch && s.stored == found;
    if ShouldPropose(cfg, ApplyArm(cfg, s, arm, env)) { CrashSafeIffDurable(cfg, s, arm, env, c, h); }
  }

  // ---------- retransmission ----------

  /** The payloads proposed for the listed rounds, in that order. */
  function PayloadsOf(m: map<nat, Header>, rounds: seq<nat>): seq<BatchRef> {
    if rounds == [] then []
    else
      var r := rounds[|rounds| - 1];
      PayloadsOf(m, rounds[..|rounds| - 1]) + if r in m then m[r].payload else []
  }

  lemma {:induction false} ResendGap(m: map<nat, Header>, lo: nat, hi: nat)
    requires lo <= hi && forall r :: lo <= r < hi ==> r !in m
    ensures ResendBelow(m, hi) == ResendBelow(m, lo)
  {
    if lo < hi { ResendGap(m, lo, hi - 1); }
  }

  /** Below its last round, an ascending list has all but that round. */
  lemma AllButLast(rounds: seq<nat>, r: nat)
    requires Ascending(rounds, NatLess) && rounds != []
    ensures var k := |rounds| - 1; r in rounds[..k] <==> r in rounds && r < rounds[k]
  {
    var k := |rounds| - 1;
    if r in rounds[..k] {
      var i :| 0 <= i < k && rounds[i] == r;
      assert NatLess(rounds[i], rounds[k]);
    }
    if r in rounds && r < rounds[k] {
      var i :| 0 <= i < |rounds| && rounds[i] == r;
      assert rounds[..k][i] == r;
    }
  }

  lemma LastIsTop(rounds: seq<nat>, r: nat)
    requires Ascending(rounds, NatLess) && r in rounds
    ensures r <= rounds[|rounds| - 1]
  {
    var i :| 0 <= i < |rounds| && rounds[i] == r;
    if i < |rounds| - 1 { assert NatLess(rounds[i], rounds[|rounds| - 1]); }
  }

  /** The resent digests are the payloads along the ascending list of the affected rounds. */
  lemma {:induction false} ResendIsAscending(m: map<nat, Header>, rounds: seq<nat>, n: nat)
    requires Ascending(rounds, NatLess)
    requires forall r :: r in rounds <==> r in m && r < n
    ensures ResendBelow(m, n) == PayloadsOf(m, rounds)
    decreases |rounds|
  {
    if rounds == [] {
      forall r | 0 <= r < n ensures r !in m { assert r !in rounds; }
      ResendGap(m, 0, n);
    } else {
      var k := |rounds| - 1;
      var top := rounds[k];
      assert top in rounds;
      forall r | top + 1 <= r < n ensures r !in m {
        if r in m { LastIsTop(rounds, r); }
      }
      ResendGap(m, top + 1, n);
      forall r: nat ensures r in rounds[..k] <==> r in m && r < top { AllButLast(rounds, r); }
      ResendIsAscending(m, rounds[..k], top);
    }
  }

  /** After a commit notice the queue is the payloads of the uncommitted headers up to the highest
      committed round, oldest first, then the old queue; later headers, and only those, stay proposed. */
  lemma RetransmissionIsExact(s: State, rounds: seq<nat>)
    ensures var s' := ProcessCommitted(s, rounds);
            var stale := set r | r in s.proposed && r !in rounds && r <= MaxRound(rounds);
            && s'.queue == PayloadsOf(s.proposed, SortedNats(stale)) + s.queue
            && s'.proposed == map r | r in s.proposed && r !in rounds && r > MaxRound(rounds) :: s.proposed[r]
  {
    var open := s.proposed - RoundsOf(rounds);
    var stale := set r | r in s.proposed && r !in rounds && r <= MaxRound(rounds);
    var sorted := SortedNats(stale);
    forall r ensures r in sorted <==> r in open && r < MaxRound(rounds) + 1 {}
    ResendIsAscending(open, sorted, MaxRound(rounds) + 1);
    SamePayloads(open, s.proposed, sorted);
    var s' := ProcessCommitted(s, rounds);
    assert s'.proposed == map r | r in s.proposed && r !in rounds && r > MaxRound(rounds) :: s.proposed[r];
  }

  lemma {:induction false} SamePayloads(m: map<nat, Header>, n: map<nat, Header>, rounds: seq<nat>)
    requires forall r :: r in rounds ==> r in m && r in n && m[r] == n[r]
    ensures PayloadsOf(m, rounds) == PayloadsOf(n, rounds)
  {
    if rounds != [] { assert rounds[|rounds| - 1] in rounds; SamePayloads(m, n, rounds[..|rounds| - 1]); }
  }

  // ---------- nothing is carried twice ----------

  ghost predicate PayloadsDisjoint(m: map<nat, Header>) {
    && (forall r :: r in m ==> Distinct(m[r].payload))
    && (forall r, t :: r in m && t in m && r != t ==> Keys(m[r].payload) !! Keys(m[t].payload))
  }

  ghost predicate Disjoint(s: State) {
    && Distinct(s.queue) && PayloadsDisjoint(s.proposed)
    && (s.pending.Some? ==> Distinct(s.pending.value.header.payload))
    && Keys(s.queue) !! PendingKeys(s.pending) !! ProposedKeys(s.proposed)
    && Keys(s.queue) + PendingKeys(s.pending) + ProposedKeys(s.proposed) <= s.past.received + s.past.inherited
    && s.past.received !! s.past.inherited
    && (s.stored.Some? ==> Distinct(s.stored.value.payload))
    && (s.past.untouched ==>
          && s.pending == None && s.proposed == map[] && Keys(s.queue) <= s.past.received
          && (s.stored.Some? ==> Keys(s.stored.value.payload) == s.past.inherited))
    && StoreBehind(s)
  }

  /** Once the session's own header is in the store, the stored round is not ahead of the current one. */
  ghost predicate StoreBehind(s: State) {
    !s.past.untouched && !s.halted && !(s.pending.Some? && s.pending.value.phase.Building?) ==>
      s.stored.Some? ==> s.stored.value.round <= s.round
  }

  /** Workers hand in each digest once, and not one that the store already carried over a restart; a header
      found in the store has a payload without repeats, as every payload map has. */
  ghost predicate NewArrival(s: State, e: Event) {
    && (e.Select? && e.arm.NewDigest? ==> e.arm.batch.digest !in s.past.received + s.past.inherited)
    && (e.Restart? && e.found.Some? ==> Distinct(e.found.value.payload))
  }

  ghost predicate AllNewArrivals(cfg: Config, s: State, events: seq<Event>)
    decreases |events|
  {
    events == [] || (NewArrival(s, events[0]) && AllNewArrivals(cfg, Step(cfg, s, events[0]), events[1..]))
  }

  lemma DistinctConcat(a: seq<BatchRef>, b: seq<BatchRef>)
    ensures Distinct(a + b) <==> Distinct(a) && Distinct(b) && Keys(a) !! Keys(b)
  {
    if Distinct(a + b) {
      forall i, j | 0 <= i < j < |a| ensures a[i].digest != a[j].digest {
        assert (a + b)[i] == a[i] && (a + b)[j] == a[j];
      }
      forall i, j | 0 <= i < j < |b| ensures b[i].digest != b[j].digest {
        assert (a + b)[|a| + i] == b[i] && (a + b)[|a| + j] == b[j];
      }
      forall d | d in Keys(a) ensures d !in Keys(b) {
        var i :| 0 <= i < |a| && a[i].digest == d;
        assert (a + b)[i] == a[i];
        forall j | 0 <= j < |b| ensures b[j].digest != d { assert (a + b)[|a| + j] == b[j]; }
      }
    } else if Distinct(a) && Distinct(b) && Keys(a) !! Keys(b) {
      forall i, j | 0 <= i < |a| && 0 <= j < |b| ensures a[i].digest != b[j].digest { KeyAt(a, i); KeyAt(b, j); }
    }
  }

  lemma ProposedKeysAt(m: map<nat, Header>, r: nat)
    requires r in m
    ensures Keys(m[r].payload) <= ProposedKeys(m)
  {}

  lemma {:induction false} ResendDistinct(m: map<nat, Header>, n: nat)
    requires PayloadsDisjoint(m)
    ensures Distinct(ResendBelow(m, n))
  {
    if n > 0 {
      ResendDistinct(m, n - 1);
      if n - 1 in m {
        ResendKeys(m, n - 1);
        var resent := Keys(ResendBelow(m, n - 1));
        forall d | d in resent ensures d !in Keys(m[n - 1].payload) {
          var r, b :| r in m && r < n - 1 && b in m[r].payload && b.digest == d;
          assert d in Keys(m[r].payload);
        }
        DistinctConcat(ResendBelow(m, n - 1), m[n - 1].payload);
      } else {
        assert ResendBelow(m, n) == ResendBelow(m, n - 1);
      }
    }
  }

  lemma CommittedKeepsDisjoint(s: State, rounds: seq<nat>)
    requires Disjoint(s)
    ensures Disjoint(ProcessCommitted(s, rounds))
  {
    var s' := ProcessCommitted(s, rounds);
    var open := s.proposed - RoundsOf(rounds);
    var n := MaxRound(rounds) + 1;
    var resent := ResendBelow(open, n);
    ResendDistinct(open, n);
    ResendKeys(open, n);
    assert Keys(resent) <= ProposedKeys(s.proposed);
    DistinctConcat(resent, s.queue);
    KeysConcat(resent, s.queue);
    assert ProposedKeys(s'.proposed) <= ProposedKeys(s.proposed);
    forall d | d in Keys(resent) ensures d !in ProposedKeys(s'.proposed) {
      var r, b :| r in open && r < n && b in open[r].payload && b.digest == d;
      assert d in Keys(s.proposed[r].payload);
      forall t, c | t in s'.proposed && c in s'.proposed[t].payload ensures c.digest != d {
        assert t in s.proposed && t != r && c.digest in Keys(s.proposed[t].payload);
      }
    }
    if s.past.untouched { assert open == map[] && s'.proposed == map[] && Keys(resent) == {}; }
  }

  lemma ResultKeepsDisjoint(s: State)
    requires Disjoint(s) && Tracked(s) && s.pending.Some? && s.pending.value.phase.Sent?
    ensures Disjoint(HandleResult(s, s.pending.value.header))
  {
    var h := s.pending.value.header;
    var s' := HandleResult(s, h);
    assert ProposedKeys(s'.proposed) == ProposedKeys(s.proposed) + Keys(h.payload) by {
      forall d | d in ProposedKeys(s.proposed) + Keys(h.payload) ensures d in ProposedKeys(s'.proposed) {
        if d in Keys(h.payload) {
          ProposedKeysAt(s'.proposed, h.round);
        } else {
          var r, b :| r in s.proposed && b in s.proposed[r].payload && b.digest == d;
          assert s'.proposed[r] == s.proposed[r];
        }
      }
    }
    forall r | r in s.proposed ensures Keys(s.proposed[r].payload) !! Keys(h.payload) { ProposedKeysAt(s.proposed, r); }
  }

  lemma ProposeKeepsDisjoint(cfg: Config, s: State, meta: nat)
    requires Disjoint(s) && s.pending.None? && !s.halted
    ensures Disjoint(Propose(cfg, s, meta))
  {
    var n := Take(cfg, s);
    assert s.queue == s.queue[..n] + s.queue[n..];
    DistinctConcat(s.queue[..n], s.queue[n..]);
    KeysConcat(s.queue[..n], s.queue[n..]);
    CollectKeys(s.queue[..n]);
    if Reproposes(s) { assert s.past.untouched; }
  }

  lemma DigestKeepsDisjoint(s: State, b: BatchRef)
    requires Disjoint(s) && b.digest !in s.past.received + s.past.inherited
    ensures Disjoint(AddDigest(s, b))
  {
    assert Keys([b]) == {b.digest} by { KeyAt([b], 0); }
    KeysConcat(s.queue, [b]);
    DistinctConcat(s.queue, [b]);
  }

  lemma DisjointFrame(s: State, s': State)
    requires Disjoint(s) && s'.round >= s.round
    requires s'.queue == s.queue && s'.proposed == s.proposed && s'.pending == s.pending && s'.stored == s.stored
    requires s'.past.received == s.past.received && s'.past.inherited == s.past.inherited
    requires s'.past.untouched == s.past.untouched
    requires s'.halted == s.halted
    ensures Disjoint(s')
  {}

  lemma ArmKeepsDisjoint(cfg: Config, s: State, arm: Arm, env: Env)
    requires Disjoint(s) && Tracked(s) && NewArrival(s, Select(arm, env))
    ensures Disjoint(ApplyArm(cfg, s, arm, env))
  {
    match arm
    case NewDigest(b) => DigestKeepsDisjoint(s, b);
    case NewParents(certs, round) =>
      ParentsFrame(cfg, s, certs, round, env.leader);
      DisjointFrame(s, ApplyArm(cfg, s, arm, env));
    case Committed(rounds) => CommittedKeepsDisjoint(s, rounds);
    case TaskDone =>
      if s.pending.Some? && s.pending.value.phase.Sent? { ResultKeepsDisjoint(s); }
    case TaskFailed =>
    case _ => DisjointFrame(s, ApplyArm(cfg, s, arm, env));
  }

  lemma TaskKeepsDisjoint(cfg: Config, s: State, e: Event)
    requires Disjoint(s) && Tracked(s) && (e.TaskStore? || e.TaskSend?)
    ensures Disjoint(Step(cfg, s, e))
  {}

  lemma RestartKeepsDisjoint(cfg: Config, s: State, e: Event)
    requires NewArrival(s, e) && e.Restart?
    ensures Disjoint(Step(cfg, s, e))
  {
    assert Keys([]) == {} && ProposedKeys(map[]) == {};
  }

  lemma StepKeepsDisjoint(cfg: Config, s: State, e: Event)
    requires Disjoint(s) && Tracked(s) && NewArrival(s, e)
    ensures Disjoint(Step(cfg, s, e))
  {
    match e
    case Select(arm, env) =>
      if !s.halted {
        ArmKeepsDisjoint(cfg, s, arm, env);
        var s1 := ApplyArm(cfg, s, arm, env);
        if ShouldPropose(cfg, s1) { ProposeKeepsDisjoint(cfg, s1, env.meta); }
      }
    case BusUpdate(_) => DisjointFrame(s, Step(cfg, s, e));
    case Restart(_, _, _, _) => RestartKeepsDisjoint(cfg, s, e);
    case _ => TaskKeepsDisjoint(cfg, s, e);
  }

  /** With distinct arrivals, in every run the queue, the pending header and the proposed headers carry
      pairwise disjoint digests and none of them repeats one. */
  lemma {:induction false} NothingCarriedTwice(cfg: Config, s: State, events: seq<Event>)
    requires Disjoint(s) && Tracked(s) && AllNewArrivals(cfg, s, events)
    ensures Disjoint(Run(cfg, s, events))
    decreases |events|
  {
    if events != [] {
      StepKeepsDisjoint(cfg, s, events[0]);
      StepKeepsTracked(cfg, s, events[0]);
      NothingCarriedTwice(cfg, Step(cfg, s, events[0]), events[1..]);
    }
  }

  // ---------- the vote test ----------

  function Origins(certs: seq<Certificate>): set<AuthorityId> { set c | c in certs :: c.origin }

  ghost predicate DistinctOrigins(certs: seq<Certificate>) {
    forall i, j :: 0 <= i < j < |certs| ==> certs[i].origin != certs[j].origin
  }

  /** Every parent counts for one side or the other, and repeats only add. */
  lemma {:induction false} VotesCoverOrigins(c: Committee, certs: seq<Certificate>, leader: nat)
    requires DistinctIds(c.authorities)
    ensures VotesFor(c, certs, leader) + VotesAgainst(c, certs, leader) >= c.Weight(Origins(certs))
    ensures DistinctOrigins(certs) ==>
              VotesFor(c, certs, leader) + VotesAgainst(c, certs, leader) == c.Weight(Origins(certs))
  {
    if certs == [] {
      WeightEmpty(c.authorities);
      assert Origins(certs) == {};
    } else {
      var n := |certs| - 1;
      var last := certs[n];
      VotesCoverOrigins(c, certs[..n], leader);
      assert certs == certs[..n] + [last];
      assert Origins(certs) == Origins(certs[..n]) + {last.origin};
      if last.origin in Origins(certs[..n]) {
        assert Origins(certs) == Origins(certs[..n]);
      } else {
        AddAuthority(c, Origins(certs[..n]), last.origin);
      }
    }
  }

  /** Once a parent from every authority is present the test passes whatever they voted, in any
      committee that has voting power at all. */
  lemma FullInformationIsEnough(cfg: Config, certs: seq<Certificate>, leader: Option<Certificate>,
                                nextLeader: AuthorityId)
    requires cfg.committee.Valid() && cfg.committee.Ids() <= Origins(certs)
    requires cfg.committee.Total() > 0
    ensures EnoughVotes(cfg, certs, leader, nextLeader)
  {
    var c := cfg.committee;
    if leader.Some? {
      VotesCoverOrigins(c, certs, leader.value.digest);
      forall a | a in c.authorities ensures a.id in Origins(certs) { assert a.id in c.Ids(); }
      WeightOfAll(c.authorities, Origins(certs));
      ThresholdsAreComplementary(c);
    }
  }

  /** With one parent per authority, "f + 1 for" and "2f + 1 against" cannot both hold. */
  lemma VoteOutcomesExclude(c: Committee, certs: seq<Certificate>, leader: nat)
    requires c.Valid() && DistinctOrigins(certs)
    ensures !(VotesFor(c, certs, leader) >= c.Validity() && VotesAgainst(c, certs, leader) >= c.Quorum())
  {
    VotesCoverOrigins(c, certs, leader);
    WeightMonotone(c.authorities, Origins(certs), Origins(certs));
    if c.Total() > 0 { ThresholdsAreComplementary(c); }
  }
}
