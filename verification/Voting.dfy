/** The voter: every vote request is a task of its own that reads the last vote for the author, decides,
    and later writes the new one, with other requests' steps in between.
    Source: crates/consensus/primary/src/network/handler.rs and
    crates/storage/src/stores/vote_digest_store.rs */
module Voting {
  import opened Basics
  import opened Committees
  import P = ProposerModel
  import PS = ProposerSafety

  /** A header is identified with its digest: equal digests, equal headers. */
  datatype Header = Header(author: AuthorityId, body: P.Header) {
    function Round(): nat { body.round }
    function Epoch(): nat { body.epoch }
  }

  predicate SameSlot(g: Header, h: Header) {
    g.author == h.author && g.Round() == h.Round() && g.Epoch() == h.Epoch()
  }

  /** No two different headers of one author, round and epoch. */
  ghost predicate OnePerSlot(headers: set<Header>) {
    forall g, h :: g in headers && h in headers && SameSlot(g, h) ==> g == h
  }

  /** Another header for the same slot. */
  function Rival(h: Header): (g: Header)
    ensures SameSlot(g, h) && g != h
  {
    h.(body := h.body.(meta := h.body.meta + 1))
  }

  // ---------- the machine ----------

  /** `VoteInfo`: the last vote this node wrote for an author's headers. */
  datatype VoteInfo = VoteInfo(epoch: nat, round: nat, header: Header)

  function InfoOf(h: Header): VoteInfo { VoteInfo(h.Epoch(), h.Round(), h) }

  type Votes = map<AuthorityId, VoteInfo>

  /** `voted` are the headers of this epoch the node has voted for; `reading` are the requests that have read
      the table and passed, and are yet to write. */
  datatype Voter = Voter(epoch: nat, store: Votes, voted: set<Header>, reading: map<nat, Header>)

  datatype Verdict = Refuse | Again | Fresh

  /** The tests of a request against the vote it read. */
  function Check(store: Votes, h: Header): Verdict {
    if h.author !in store then Fresh
    else
      var last := store[h.author];
      if h.Epoch() != last.epoch then Refuse            // InvalidEpoch
      else if h.Round() < last.round then Refuse        // AlreadyVotedForLaterRound
      else if h.Round() > last.round then Fresh
      else if h == last.header then Again               // the same vote is sent again
      else Refuse                                       // AlreadyVoted
  }

  /** `admissible` are the checks before the table is read; the epoch is the committee's. A task that is
      cancelled between its two steps writes nothing. */
  datatype Event = Read(task: nat, header: Header, admissible: bool) | Write(task: nat) | Cancel(task: nat)

  function Written(v: Voter, h: Header): Voter {
    v.(store := v.store[h.author := InfoOf(h)], voted := v.voted + {h})
  }

  function Step(v: Voter, e: Event): Voter {
    match e
    case Read(t, h, admissible) =>
      if !admissible || h.Epoch() != v.epoch || t in v.reading then v
      else (
        match Check(v.store, h)
        case Refuse => v
        case Again => v.(voted := v.voted + {h})
        case Fresh => v.(reading := v.reading[t := h]))
    case Write(t) =>
      if t in v.reading then Written(v, v.reading[t]).(reading := v.reading - {t}) else v
    case Cancel(t) => v.(reading := v.reading - {t})
  }

  function Run(v: Voter, events: seq<Event>): Voter {
    if events == [] then v else Step(Run(v, events[..|events| - 1]), events[|events| - 1])
  }

  /** A request whose two steps have nothing in between. */
  function Alone(v: Voter, h: Header): Voter {
    if h.Epoch() != v.epoch then v
    else
      match Check(v.store, h)
      case Refuse => v
      case Again => v.(voted := v.voted + {h})
      case Fresh => Written(v, h)
  }

  lemma AloneIsReadThenWrite(v: Voter, h: Header, t: nat)
    requires t !in v.reading
    ensures Step(Step(v, Read(t, h, true)), Write(t)) == Alone(v, h)
  {
    if h.Epoch() == v.epoch && Check(v.store, h) == Fresh { assert v.reading[t := h] - {t} == v.reading; }
  }

  // ---------- the invariant ----------

  /** The table keeps a rival of `h` from getting a vote. */
  predicate Covers(store: Votes, h: Header) {
    && h.author in store
    && var last := store[h.author];
       last.epoch != h.Epoch() || h.Round() < last.round || h == last.header
  }

  ghost predicate Covered(v: Voter) {
    forall h :: h in v.voted ==> Covers(v.store, h)
  }

  /** Rows are under their author and of votes cast; everything in flight is of this epoch. */
  ghost predicate WellFormed(v: Voter) {
    && (forall h :: h in v.voted ==> h.Epoch() == v.epoch)
    && (forall a :: a in v.store ==> v.store[a].header.author == a && v.store[a] == InfoOf(v.store[a].header))
    && (forall a :: a in v.store && v.store[a].epoch == v.epoch ==> v.store[a].header in v.voted)
    && (forall t :: t in v.reading ==>
          var h := v.reading[t];
          h.Epoch() == v.epoch && (h.author in v.store ==> v.store[h.author].epoch == v.epoch))
  }

  ghost predicate Sound(v: Voter) {
    WellFormed(v) && Covered(v) && OnePerSlot(v.voted)
  }

  /** Writing what the table would still allow keeps the voter sound. */
  lemma WriteKeepsSound(v: Voter, h: Header)
    requires Sound(v) && h.Epoch() == v.epoch && Check(v.store, h) != Refuse
    ensures Sound(Written(v, h))
  {
    var v' := Written(v, h);
    forall g | g in v.voted && SameSlot(g, h) ensures g == h { assert Covers(v.store, g); }
    forall g | g in v'.voted ensures Covers(v'.store, g) {
      if g in v.voted { assert Covers(v.store, g); }
    }
  }

  lemma AgainIsVoted(v: Voter, h: Header)
    requires Sound(v) && h.Epoch() == v.epoch && Check(v.store, h) == Again
    ensures h in v.voted
  {}

  /** The task is about to write a vote the table no longer allows. */
  predicate Stale(v: Voter, t: nat) { t in v.reading && Check(v.store, v.reading[t]) == Refuse }

  predicate StaleWrite(v: Voter, e: Event) { e.Write? && Stale(v, e.task) }

  lemma StepKeepsSound(v: Voter, e: Event)
    requires Sound(v) && !StaleWrite(v, e)
    ensures Sound(Step(v, e))
  {
    match e
    case Read(t, h, admissible) =>
      if admissible && h.Epoch() == v.epoch && Check(v.store, h) == Again {
        AgainIsVoted(v, h);
        assert v.voted + {h} == v.voted;
      }
    case Write(t) => if t in v.reading { WriteKeepsSound(v, v.reading[t]); }
    case Cancel(_) =>
  }

  lemma AloneKeepsSound(v: Voter, h: Header)
    requires Sound(v)
    ensures Sound(Alone(v, h))
  {
    if h.Epoch() == v.epoch && Check(v.store, h) != Refuse {
      WriteKeepsSound(v, h);
      if Check(v.store, h) == Again {
        AgainIsVoted(v, h);
        assert v.voted + {h} == v.voted;
      }
    }
  }

  /** At no write does the table refuse what was read to be allowed. */
  predicate NoStaleWrite(v: Voter, events: seq<Event>) {
    events == []
    || (NoStaleWrite(v, events[..|events| - 1]) && !StaleWrite(Run(v, events[..|events| - 1]), events[|events| - 1]))
  }

  lemma {:induction false} RunKeepsSound(v: Voter, events: seq<Event>)
    requires Sound(v) && NoStaleWrite(v, events)
    ensures Sound(Run(v, events))
  {
    if events != [] {
      var n := |events| - 1;
      RunKeepsSound(v, events[..n]);
      StepKeepsSound(Run(v, events[..n]), events[n]);
    }
  }

  lemma {:induction false} EpochKept(v: Voter, events: seq<Event>)
    ensures Run(v, events).epoch == v.epoch
  {
    if events != [] { EpochKept(v, events[..|events| - 1]); }
  }

  lemma {:induction false} NoStaleWritePrefix(v: Voter, events: seq<Event>, k: nat)
    requires NoStaleWrite(v, events) && k <= |events|
    ensures NoStaleWrite(v, events[..k])
  {
    if k == |events| {
      assert events[..k] == events;
    } else {
      var n := |events| - 1;
      NoStaleWritePrefix(v, events[..n], k);
      assert events[..n][..k] == events[..k];
    }
  }

  lemma {:induction false} FirstStaleWrite(v: Voter, events: seq<Event>) returns (k: nat)
    requires !NoStaleWrite(v, events)
    ensures k < |events| && NoStaleWrite(v, events[..k]) && StaleWrite(Run(v, events[..k]), events[k])
  {
    var n := |events| - 1;
    if NoStaleWrite(v, events[..n]) {
      k := n;
    } else {
      k := FirstStaleWrite(v, events[..n]);
      assert events[..n][..k] == events[..k];
    }
  }

  // ---------- one vote per slot ----------

  /** Whatever single request comes next, no slot has two votes. */
  ghost predicate SafeNow(v: Voter) { forall h :: OnePerSlot(Alone(v, h).voted) }

  /** The same at every point of a schedule. */
  ghost predicate SafeThroughout(v: Voter, events: seq<Event>) {
    forall k :: 0 <= k <= |events| ==> SafeNow(Run(v, events[..k]))
  }

  lemma StaleWriteIsUnsafe(v: Voter, t: nat)
    requires Sound(v) && Stale(v, t)
    ensures !SafeNow(Step(v, Write(t)))
  {
    var h := v.reading[t];
    var q := v.store[h.author].header;
    var v' := Step(v, Write(t));
    if h.Round() == q.Round() {
      assert h in Alone(v', h).voted && q in Alone(v', h).voted && SameSlot(h, q);
      assert !OnePerSlot(Alone(v', h).voted);
    } else {
      var x := Rival(q);
      assert Check(v'.store, x) == Fresh;
      assert x in Alone(v', x).voted && q in Alone(v', x).voted;
      assert !OnePerSlot(Alone(v', x).voted);
    }
  }

  /** The exact condition: at every point of a schedule, and whatever request comes next, the node votes for
      one header per slot if and only if no task writes a vote that the table, read again, would refuse. */
  lemma VotesOnceIffNoStaleWrite(v: Voter, events: seq<Event>)
    requires Sound(v)
    ensures SafeThroughout(v, events) <==> NoStaleWrite(v, events)
  {
    if NoStaleWrite(v, events) {
      forall k | 0 <= k <= |events| ensures SafeNow(Run(v, events[..k])) {
        NoStaleWritePrefix(v, events, k);
        RunKeepsSound(v, events[..k]);
        forall h ensures OnePerSlot(Alone(Run(v, events[..k]), h).voted) { AloneKeepsSound(Run(v, events[..k]), h); }
      }
    } else {
      var k := FirstStaleWrite(v, events);
      RunKeepsSound(v, events[..k]);
      StaleWriteIsUnsafe(Run(v, events[..k]), events[k].task);
      assert events[..k + 1][..k] == events[..k];
      assert !SafeNow(Run(v, events[..k + 1]));
    }
  }

  /** No two requests in flight are for one author. */
  ghost predicate Exclusive(v: Voter) {
    forall t, u :: t in v.reading && u in v.reading && t != u ==> v.reading[t].author != v.reading[u].author
  }

  /** No two requests for one author overlap between their read and their write. */
  ghost predicate NoOverlap(v: Voter, events: seq<Event>) {
    Exclusive(Run(v, events))
    && (events == [] || NoOverlap(v, events[..|events| - 1]))
  }

  /** Nothing that was read has changed since. */
  ghost predicate Current(v: Voter) {
    forall t :: t in v.reading ==> Check(v.store, v.reading[t]) == Fresh
  }

  /** Requests that do not overlap never write stale votes, so a node that handles the requests for one
      author one at a time votes once per slot. */
  lemma {:induction false} NoOverlapNoStaleWrite(v: Voter, events: seq<Event>)
    requires Current(v) && NoOverlap(v, events)
    ensures NoStaleWrite(v, events) && Current(Run(v, events))
  {
    if events != [] {
      var n := |events| - 1;
      NoOverlapNoStaleWrite(v, events[..n]);
      var now, e := Run(v, events[..n]), events[n];
      if e.Write? && e.task in now.reading {
        forall u | u in now.reading && u != e.task ensures now.reading[u].author != now.reading[e.task].author {}
      }
    }
  }

  /** But nothing keeps requests apart: two that both read before either writes give two votes for one slot. */
  lemma TwoReadsTwoVotes(v: Voter, h: Header)
    requires v.reading == map[] && h.Epoch() == v.epoch && h.author !in v.store
    ensures var events := [Read(0, h, true), Read(1, Rival(h), true), Write(0), Write(1)];
            h in Run(v, events).voted && Rival(h) in Run(v, events).voted && !OnePerSlot(Run(v, events).voted)
  {
    var events := [Read(0, h, true), Read(1, Rival(h), true), Write(0), Write(1)];
    var v1 := Step(v, events[0]);
    var v2 := Step(v1, events[1]);
    var v3 := Step(v2, events[2]);
    assert events[..0] == [] && events[..1][..0] == [] && events[..2][..1] == events[..1];
    assert events[..3][..2] == events[..2] && events[..4] == events && events[..3] == events[..|events| - 1];
    assert Run(v, events[..1]) == v1;
    assert Run(v, events[..2]) == v2;
    assert Run(v, events[..3]) == v3;
  }

  /** A header not voted for before gets a vote exactly when the node has not yet voted for its author, or
      voted in the same epoch for an earlier round. */
  lemma FreshVoteIff(v: Voter, h: Header)
    requires WellFormed(v) && h !in v.voted && h.Epoch() == v.epoch
    ensures h in Alone(v, h).voted
            <==> (h.author in v.store ==> v.store[h.author].epoch == h.Epoch() && v.store[h.author].round < h.Round())
  {
    if h.author in v.store && v.store[h.author].epoch == v.epoch { assert v.store[h.author].header in v.voted; }
  }

  /** The header last voted for is never refused: a repeated request for it is answered with the same vote, and
      only that one is. */
  lemma RepeatedIff(v: Voter, h: Header)
    requires WellFormed(v)
    ensures Check(v.store, h) == Again <==> h.author in v.store && v.store[h.author].header == h
  {}

  ghost predicate Admitted(events: seq<Event>, h: Header) {
    exists i :: 0 <= i < |events| && events[i].Read? && events[i].header == h && events[i].admissible
  }

  lemma AdmittedMore(events: seq<Event>, e: Event, h: Header)
    ensures Admitted(events + [e], h) <==> Admitted(events, h) || (e.Read? && e.header == h && e.admissible)
  {
    var all := events + [e];
    if Admitted(events, h) {
      var i :| 0 <= i < |events| && events[i].Read? && events[i].header == h && events[i].admissible;
      assert all[i] == events[i];
    }
    if e.Read? && e.header == h && e.admissible { assert all[|events|] == e; }
    if Admitted(all, h) {
      var i :| 0 <= i < |all| && all[i].Read? && all[i].header == h && all[i].admissible;
      if i < |events| { assert events[i] == all[i]; }
    }
  }

  /** A vote is cast only on a request for that header of this epoch that passed the checks before the read. */
  lemma {:induction false} VotesAreAdmitted(v: Voter, events: seq<Event>, h: Header)
    requires v.reading == map[]
    ensures h in Run(v, events).voted ==> h in v.voted || (Admitted(events, h) && h.Epoch() == v.epoch)
    ensures h in Run(v, events).reading.Values ==> Admitted(events, h) && h.Epoch() == v.epoch
  {
    if events != [] {
      var n := |events| - 1;
      var before, e := events[..n], events[n];
      assert before + [e] == events;
      VotesAreAdmitted(v, before, h);
      EpochKept(v, before);
      AdmittedMore(before, e, h);
      StepVotes(Run(v, before), e, h);
    }
  }

  lemma StepVotes(v: Voter, e: Event, h: Header)
    ensures h in Step(v, e).voted ==>
              || h in v.voted || h in v.reading.Values
              || (e.Read? && e.header == h && e.admissible && h.Epoch() == v.epoch)
    ensures h in Step(v, e).reading.Values ==>
              h in v.reading.Values || (e.Read? && e.header == h && e.admissible && h.Epoch() == v.epoch)
  {}

  // ---------- what an honest node signs ----------

  /** Everything an honest node `a` signs: votes for its peers' headers, and its own headers. */
  function HonestVotes(a: AuthorityId, v: Voter, events: seq<Event>, sent: seq<P.Header>): set<Header> {
    (set h | h in Run(v, events).voted && h.author != a) + (set b | b in sent :: Header(a, b))
  }

  /** With no stale write among its votes and one header per round of its own, it signs one header per slot. */
  lemma HonestSignsOncePerSlot(a: AuthorityId, v: Voter, events: seq<Event>, sent: seq<P.Header>)
    requires Sound(v) && NoStaleWrite(v, events) && PS.Unique(sent)
    ensures OnePerSlot(HonestVotes(a, v, events, sent))
  {
    RunKeepsSound(v, events);
  }

  // ---------- after a crash ----------

  /** The exact state condition: no single request can produce a second vote for a slot if and only if the
      table covers every vote cast. */
  lemma SafeNowIffCovered(v: Voter)
    requires WellFormed(v.(store := map[])) && OnePerSlot(v.voted)
    requires forall a :: a in v.store ==> v.store[a].header.author == a && v.store[a] == InfoOf(v.store[a].header)
    ensures SafeNow(v) <==> Covered(v)
  {
    if Covered(v) {
      forall h ensures OnePerSlot(Alone(v, h).voted) {
        forall g | g in v.voted && SameSlot(g, h) && h in Alone(v, h).voted ensures g == h {
          assert Covers(v.store, g);
        }
      }
    } else {
      var g :| g in v.voted && !Covers(v.store, g);
      var x :=
        if g.author in v.store && v.store[g.author].round == g.Round() then v.store[g.author].header else Rival(g);
      assert x in Alone(v, x).voted && g in Alone(v, x).voted && SameSlot(x, g) && x != g;
      assert !OnePerSlot(Alone(v, x).voted);
    }
  }

  /** What a restarted node finds: an earlier version of the table. */
  ghost predicate Older(d: Votes, store: Votes, epoch: nat) {
    && (forall a :: a in d ==>
          && a in store
          && (d[a] == store[a] || (d[a].epoch == store[a].epoch && d[a].round < store[a].round)))
    && (forall a :: a in store && store[a].epoch != epoch ==> a in d && d[a] == store[a])
    && (forall a :: a in d ==> d[a].header.author == a && d[a] == InfoOf(d[a].header))
  }

  function Crashed(v: Voter, d: Votes): Voter { Voter(v.epoch, d, v.voted, map[]) }

  /** After a crash the node can vote a second time for some slot exactly when a vote it wrote had not become
      durable. */
  lemma CrashSafeIffDurable(v: Voter, d: Votes)
    requires Sound(v) && Older(d, v.store, v.epoch)
    ensures SafeNow(Crashed(v, d)) <==> d == v.store
  {
    SafeNowIffCovered(Crashed(v, d));
    if d == v.store {
      forall h | h in v.voted ensures Covers(d, h) { assert Covers(v.store, h); }
    }
    if Covered(Crashed(v, d)) {
      forall a | a in v.store ensures a in d && d[a] == v.store[a] {
        if v.store[a].epoch == v.epoch { assert Covers(d, v.store[a].header); }
      }
      assert d == v.store;
    }
  }
}
