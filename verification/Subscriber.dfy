/** The subscriber of an active node: commits are numbered and linked as they arrive, their batches are
    fetched concurrently, and the outputs are saved and handed to execution in order, except those whose
    fetch failed.
    Source: crates/consensus/executor/src/subscriber.rs */
module Subscribers {
  import opened Basics
  import opened Execution
  import BF = BatchFetchers
  import BM = BullsharkModel
  import CC = ConsensusChain

  const MAX_PENDING_PAYLOADS: nat := 1000

  /** What every node computes alike from certificates: the batch digests of a payload in order, what a
      sub-dag's digest covers, a leader's nonce, and a consensus header digest as 256 bits. */
  datatype Naming = Naming(payload: BM.Cert -> seq<Hash>, content: BM.SubDag -> nat, nonce: BM.Cert -> nat,
                           hash: CC.Digest -> Hash)

  // ---------- numbering and linking ----------

  /** The header of the next commit after `prev`. */
  function NextHeader(nm: Naming, prev: CC.ConsensusHeader, s: BM.SubDag): CC.ConsensusHeader {
    CC.ConsensusHeader(CC.DigestOf(prev), CC.SubDag(nm.content(s), 0), prev.number + 1, 0)
  }

  /** The header of the last of a list of commits that follows `start`. */
  function HeaderOf(nm: Naming, start: CC.ConsensusHeader, h: seq<BM.SubDag>): CC.ConsensusHeader {
    if h == [] then start else NextHeader(nm, HeaderOf(nm, start, h[..|h| - 1]), h[|h| - 1])
  }

  function HeadersOf(nm: Naming, start: CC.ConsensusHeader, h: seq<BM.SubDag>): seq<CC.ConsensusHeader> {
    seq(|h|, i requires 0 <= i < |h| => HeaderOf(nm, start, h[..i + 1]))
  }

  lemma {:induction false} HeaderNumber(nm: Naming, start: CC.ConsensusHeader, h: seq<BM.SubDag>)
    ensures HeaderOf(nm, start, h).number == start.number + |h|
  {
    if h != [] { HeaderNumber(nm, start, h[..|h| - 1]); }
  }

  lemma HeaderFollows(nm: Naming, start: CC.ConsensusHeader, h: seq<BM.SubDag>, i: nat)
    requires i < |h|
    ensures CC.Follows(HeaderOf(nm, start, h[..i]), HeaderOf(nm, start, h[..i + 1]))
  {
    assert h[..i + 1][..i] == h[..i];
  }

  /** The headers of the commits are one hash chain from the start. */
  lemma HeadersAreLinked(nm: Naming, start: CC.ConsensusHeader, h: seq<BM.SubDag>)
    ensures CC.Linked(start, HeadersOf(nm, start, h))
  {
    var hs := HeadersOf(nm, start, h);
    forall i | 0 <= i < |hs| ensures CC.LinkedAt(start, hs, i) {
      HeaderFollows(nm, start, h, i);
      assert h[..0] == [];
    }
  }

  // ---------- outputs ----------

  function Payloads(nm: Naming, certs: seq<BM.Cert>): seq<seq<Hash>> {
    seq(|certs|, i requires 0 <= i < |certs| => nm.payload(certs[i]))
  }

  function BatchesFor(payload: seq<Hash>, fetched: BF.Batches): seq<Batch>
    requires forall d :: d in payload ==> d in fetched
  {
    seq(|payload|, i requires 0 <= i < |payload| => fetched[payload[i]])
  }

  function AllBatches(payloads: seq<seq<Hash>>, fetched: BF.Batches): seq<seq<Batch>>
    requires forall d :: d in Flatten(payloads) ==> d in fetched
  {
    if payloads == [] then []
    else
      var n := |payloads| - 1;
      AllBatches(payloads[..n], fetched) + [BatchesFor(payloads[n], fetched)]
  }

  /** A commit whose batches are being fetched. */
  datatype Pending = Pending(parent: CC.Digest, number: nat, subDag: BM.SubDag)

  function Header(nm: Naming, w: Pending): CC.ConsensusHeader {
    CC.ConsensusHeader(w.parent, CC.SubDag(nm.content(w.subDag), 0), w.number, 0)
  }

  /** How a fetch ends: whether the committee knows the leader, and the worker's answer if it came. */
  datatype Answer = Answer(leaderKnown: bool, batches: Option<BF.Batches>)

  /** The output of a fetch, or none when it failed. */
  function Built(nm: Naming, w: Pending, a: Answer): Option<ConsensusOutput> {
    var payloads := Payloads(nm, w.subDag.certificates);
    var digest, nonce := nm.hash(CC.DigestOf(Header(nm, w))), nm.nonce(w.subDag.leader);
    if !a.leaderKnown then None
    else if Flatten(payloads) == [] then Some(ConsensusOutput([], [], digest, nonce))
    else if a.batches.None? || exists d :: d in Flatten(payloads) && d !in a.batches.value then None
    else Some(ConsensusOutput(AllBatches(payloads, a.batches.value), Flatten(payloads), digest, nonce))
  }

  lemma {:induction false} MatchesIsAllBatches(payloads: seq<seq<Hash>>, batches: seq<seq<Batch>>, fetched: BF.Batches)
    requires Matches(payloads, batches, fetched) && forall d :: d in Flatten(payloads) ==> d in fetched
    ensures batches == AllBatches(payloads, fetched)
  {
    if payloads != [] {
      var n := |payloads| - 1;
      assert RowMatches(payloads[n], batches[n], fetched);
      assert forall i :: 0 <= i < n ==> RowMatches(payloads[i], batches[i], fetched);
      MatchesIsAllBatches(payloads[..n], batches[..n], fetched);
      assert batches[n] == BatchesFor(payloads[n], fetched);
      assert batches == batches[..n] + [batches[n]];
    }
  }

  /** How many digests the first `i` certificates carry. */
  function Offset(nm: Naming, certs: seq<BM.Cert>, i: nat): nat
    requires i <= |certs|
  {
    if i == 0 then 0 else Offset(nm, certs, i - 1) + |nm.payload(certs[i - 1])|
  }

  /** Digest `k` of certificate `i` comes after all those of the certificates before it. */
  ghost predicate PlacedAt(nm: Naming, certs: seq<BM.Cert>, digests: seq<Hash>, i: nat, k: nat) {
    && i < |certs| && k < |nm.payload(certs[i])|
    && Offset(nm, certs, i) + k < |digests| && digests[Offset(nm, certs, i) + k] == nm.payload(certs[i])[k]
  }

  /** An output has the digests of its commit's certificates in commit order and nothing else, and the hash of its
      header and the leader's nonce. */
  ghost predicate InCommitOrder(nm: Naming, w: Pending, o: ConsensusOutput) {
    var certs := w.subDag.certificates;
    && |o.batchDigests| == Offset(nm, certs, |certs|)
    && (forall i, k {:trigger PlacedAt(nm, certs, o.batchDigests, i, k)} ::
          0 <= i < |certs| && 0 <= k < |nm.payload(certs[i])| ==> PlacedAt(nm, certs, o.batchDigests, i, k))
    && o.digest == nm.hash(CC.DigestOf(Header(nm, w))) && o.nonce == nm.nonce(w.subDag.leader)
  }

  lemma {:induction false} FlattenInOrder(nm: Naming, certs: seq<BM.Cert>, n: nat)
    requires n <= |certs|
    ensures |Flatten(Payloads(nm, certs[..n]))| == Offset(nm, certs, n)
    ensures forall i, k {:trigger PlacedAt(nm, certs, Flatten(Payloads(nm, certs[..n])), i, k)} ::
              0 <= i < n && 0 <= k < |nm.payload(certs[i])| ==>
                PlacedAt(nm, certs, Flatten(Payloads(nm, certs[..n])), i, k)
  {
    if n > 0 {
      var before, last := Payloads(nm, certs[..n - 1]), nm.payload(certs[n - 1]);
      FlattenInOrder(nm, certs, n - 1);
      FlattenSnoc(before, last);
      assert Payloads(nm, certs[..n]) == before + [last];
      var shorter, all := Flatten(before), Flatten(Payloads(nm, certs[..n]));
      assert all == shorter + last;
      forall i, k | 0 <= i < n && 0 <= k < |nm.payload(certs[i])| ensures PlacedAt(nm, certs, all, i, k) {
        if i < n - 1 { assert PlacedAt(nm, certs, shorter, i, k); }
      }
    }
  }

  lemma BuiltInCommitOrder(nm: Naming, w: Pending, a: Answer)
    requires Built(nm, w, a).Some?
    ensures InCommitOrder(nm, w, Built(nm, w, a).value)
  {
    var certs := w.subDag.certificates;
    FlattenInOrder(nm, certs, |certs|);
    assert certs[..|certs|] == certs;
    assert Built(nm, w, a).value.batchDigests == Flatten(Payloads(nm, certs));
  }

  /** `fetch_batches` for one pending commit. */
  method Fetch(nm: Naming, w: Pending, a: Answer) returns (r: Result<ConsensusOutput, SubscriberError>)
    ensures r.Ok? <==> Built(nm, w, a).Some?
    ensures r.Ok? ==> r.value == Built(nm, w, a).value && InCommitOrder(nm, w, r.value)
  {
    if Built(nm, w, a).Some? { BuiltInCommitOrder(nm, w, a); }
    var payloads := Payloads(nm, w.subDag.certificates);
    var answer := if a.batches.Some? then Ok(a.batches.value) else Err(ClientRequestsFailed);
    var digest := nm.hash(CC.DigestOf(Header(nm, w)));
    r := FetchBatches(a.leaderKnown, payloads, _ => answer, digest, nm.nonce(w.subDag.leader));
    if r.Ok? && Flatten(payloads) != [] { MatchesIsAllBatches(payloads, r.value.batches, a.batches.value); }
  }

  // ---------- the machine ----------

  /** `sent` went to execution, `table` is the table of saved headers. The record: the commits that arrived,
      and for each whose fetch has ended whether its output was sent. */
  datatype State = State(lastParent: CC.Digest, lastNumber: nat, waiting: seq<Pending>,
                         sent: seq<ConsensusOutput>, table: CC.Table, stopped: bool,
                         arrived: seq<BM.SubDag>, outcomes: seq<bool>)

  /** A sub-dag is received; the oldest fetch ends, and saving and sending its output succeed or not; the
      node is shut down. */
  datatype Event =
    | Arrive(subDag: BM.SubDag)
    | Fetched(answer: Answer, saved: bool, delivered: bool)
    | Shutdown

  function Begin(start: CC.ConsensusHeader, table: CC.Table): State {
    State(CC.DigestOf(start), start.number, [], [], table, false, [], [])
  }

  function Arrived(nm: Naming, s: State, subDag: BM.SubDag): State {
    var w := Pending(s.lastParent, s.lastNumber + 1, subDag);
    s.(lastParent := CC.DigestOf(Header(nm, w)), lastNumber := s.lastNumber + 1,
       waiting := s.waiting + [w], arrived := s.arrived + [subDag])
  }

  /** A failed fetch is only logged; an output that cannot be saved or sent ends the task. */
  function Ended(nm: Naming, s: State, a: Answer, saved: bool, delivered: bool): State
    requires s.waiting != []
  {
    var w := s.waiting[0];
    var rest := s.(waiting := s.waiting[1..]);
    var output := Built(nm, w, a);
    if output.None? then rest.(outcomes := s.outcomes + [false])
    else if !saved then rest.(outcomes := s.outcomes + [false], stopped := true)
    else
      var kept := rest.(table := s.table[w.number := Header(nm, w)]);
      if !delivered then kept.(outcomes := s.outcomes + [false], stopped := true)
      else kept.(outcomes := s.outcomes + [true], sent := s.sent + [output.value])
  }

  function Step(nm: Naming, s: State, e: Event): State {
    if s.stopped then s
    else
      match e
      case Arrive(subDag) => if |s.waiting| < MAX_PENDING_PAYLOADS then Arrived(nm, s, subDag) else s
      case Fetched(a, saved, delivered) => if s.waiting != [] then Ended(nm, s, a, saved, delivered) else s
      case Shutdown => s.(stopped := true)
  }

  function Run(nm: Naming, s: State, events: seq<Event>): State {
    if events == [] then s else Step(nm, Run(nm, s, events[..|events| - 1]), events[|events| - 1])
  }

  class Subscriber {
    const nm: Naming
    var lastParent: CC.Digest
    var lastNumber: nat
    var waiting: seq<Pending>
    var sent: seq<ConsensusOutput>
    var table: CC.Table
    var stopped: bool
    ghost var arrived: seq<BM.SubDag>
    ghost var outcomes: seq<bool>

    ghost function Now(): State reads this {
      State(lastParent, lastNumber, waiting, sent, table, stopped, arrived, outcomes)
    }

    constructor (nm: Naming, start: CC.ConsensusHeader, table: CC.Table)
      ensures this.nm == nm && Now() == Begin(start, table)
    {
      this.nm, this.table := nm, table;
      lastParent, lastNumber, waiting, sent, stopped := CC.DigestOf(start), start.number, [], [], false;
      arrived, outcomes := [], [];
    }

    /** The arm that receives a sub-dag. */
    method OnSubDag(subDag: BM.SubDag)
      requires !stopped && |waiting| < MAX_PENDING_PAYLOADS
      modifies this
      ensures Now() == Arrived(nm, old(Now()), subDag)
    {
      var parentHash, number := lastParent, lastNumber + 1;
      lastParent := CC.DigestFromParts(parentHash, CC.SubDag(nm.content(subDag), 0), number);
      lastNumber := lastNumber + 1;
      waiting := waiting + [Pending(parentHash, number, subDag)];
      arrived := arrived + [subDag];
    }

    /** The arm that takes the next finished fetch, in the order the sub-dags came. */
    method OnFetched(a: Answer, saved: bool, delivered: bool)
      requires !stopped && waiting != []
      modifies this
      ensures Now() == Ended(nm, old(Now()), a, saved, delivered)
    {
      var w := waiting[0];
      var output := Fetch(nm, w, a);
      waiting := waiting[1..];
      if output.Err? {
        outcomes := outcomes + [false];
        return;
      }
      if !saved {
        stopped, outcomes := true, outcomes + [false];
        return;
      }
      table := table[w.number := Header(nm, w)];
      if !delivered {
        stopped, outcomes := true, outcomes + [false];
        return;
      }
      sent, outcomes := sent + [output.value], outcomes + [true];
    }

    /** `run`, over the events its select loop meets. */
    method RunLoop(events: seq<Event>)
      modifies this
      ensures Now() == Run(nm, old(Now()), events)
    {
      var i := 0;
      while i < |events|
        invariant 0 <= i <= |events| && Now() == Run(nm, old(Now()), events[..i])
      {
        assert events[..i + 1][..i] == events[..i];
        if !stopped {
          match events[i] {
            case Arrive(subDag) => if |waiting| < MAX_PENDING_PAYLOADS { OnSubDag(subDag); }
            case Fetched(a, saved, delivered) => if waiting != [] { OnFetched(a, saved, delivered); }
            case Shutdown => stopped := true;
          }
        }
        i := i + 1;
      }
      assert events[..i] == events;
    }
  }

  // ---------- every run ----------

  /** The positions of the outputs that were sent. */
  function Kept(outcomes: seq<bool>): seq<nat> {
    if outcomes == [] then []
    else
      var n := |outcomes| - 1;
      Kept(outcomes[..n]) + if outcomes[n] then [n] else []
  }

  /** The commit that arrived as number `k`, numbered and linked by arrival. */
  function PendingAt(nm: Naming, start: CC.ConsensusHeader, h: seq<BM.SubDag>, k: nat): Pending
    requires k < |h|
  {
    Pending(CC.DigestOf(HeaderOf(nm, start, h[..k])), start.number + k + 1, h[k])
  }

  /** An output is that of commit `k` if a fetch of it that ended well gives it. */
  ghost predicate IsOutput(nm: Naming, start: CC.ConsensusHeader, h: seq<BM.SubDag>, k: nat, o: ConsensusOutput) {
    k < |h| && exists a :: KeyedAnswer(a) && Built(nm, PendingAt(nm, start, h, k), a) == Some(o)
  }

  /** The worker answers with batches under their own digests. */
  ghost predicate KeyedAnswer(a: Answer) { a.batches.Some? ==> BF.KeyedByDigest(a.batches.value) }

  ghost predicate Keyed(e: Event) { e.Fetched? ==> KeyedAnswer(e.answer) }

  /** Numbers and parents are given by arrival; the fetches outstanding are those of the last arrivals; what was
      sent is the commits in order, less those whose fetch failed. */
  ghost predicate InOrder(nm: Naming, start: CC.ConsensusHeader, s: State) {
    && s.lastParent == CC.DigestOf(HeaderOf(nm, start, s.arrived)) && s.lastNumber == start.number + |s.arrived|
    && |s.outcomes| + |s.waiting| == |s.arrived|
    && (forall i :: 0 <= i < |s.waiting| ==> s.waiting[i] == PendingAt(nm, start, s.arrived, |s.outcomes| + i))
    && SentFor(nm, start, s.arrived, s.outcomes, s.sent)
  }

  ghost predicate SentFor(nm: Naming, start: CC.ConsensusHeader, h: seq<BM.SubDag>, outcomes: seq<bool>,
                          sent: seq<ConsensusOutput>) {
    && |sent| == |Kept(outcomes)|
    && forall j :: 0 <= j < |sent| ==> IsOutput(nm, start, h, Kept(outcomes)[j], sent[j])
  }

  lemma {:induction false} KeptFacts(outcomes: seq<bool>, j: nat)
    ensures j < |Kept(outcomes)| ==>
              Kept(outcomes)[j] < |outcomes| && outcomes[Kept(outcomes)[j]] && Kept(outcomes)[j] >= j
    ensures forall i :: 0 <= i < j < |Kept(outcomes)| ==> Kept(outcomes)[i] < Kept(outcomes)[j]
    ensures j < |outcomes| && outcomes[j] ==> j in Kept(outcomes)
  {
    if outcomes != [] {
      var n := |outcomes| - 1;
      KeptFacts(outcomes[..n], j);
      forall i | 0 <= i < j < |Kept(outcomes)| ensures Kept(outcomes)[i] < Kept(outcomes)[j] {
        if j == |Kept(outcomes[..n])| { KeptFacts(outcomes[..n], i); }
      }
      if j == |Kept(outcomes[..n])| && j > 0 { KeptFacts(outcomes[..n], j - 1); }
    }
  }

  lemma KeptSnoc(outcomes: seq<bool>, b: bool)
    ensures Kept(outcomes + [b]) == Kept(outcomes) + if b then [|outcomes|] else []
  {
    assert (outcomes + [b])[..|outcomes|] == outcomes;
  }

  /** Later arrivals do not change which commit an earlier number names. */
  lemma PendingStays(nm: Naming, start: CC.ConsensusHeader, h: seq<BM.SubDag>, s: BM.SubDag, k: nat)
    requires k < |h|
    ensures PendingAt(nm, start, h + [s], k) == PendingAt(nm, start, h, k)
  {
    assert (h + [s])[..k] == h[..k];
  }

  lemma ArriveKeepsInOrder(nm: Naming, start: CC.ConsensusHeader, s: State, subDag: BM.SubDag)
    requires InOrder(nm, start, s)
    ensures InOrder(nm, start, Arrived(nm, s, subDag))
  {
    var s' := Arrived(nm, s, subDag);
    var n := |s.arrived|;
    HeaderNumber(nm, start, s.arrived);
    assert s'.arrived[..n] == s.arrived && s'.arrived[n] == subDag;
    forall i | 0 <= i < |s'.waiting| ensures s'.waiting[i] == PendingAt(nm, start, s'.arrived, |s'.outcomes| + i) {
      if i < |s.waiting| { PendingStays(nm, start, s.arrived, subDag, |s.outcomes| + i); }
    }
    SentStays(nm, start, s.arrived, subDag, s.outcomes, s.sent);
  }

  lemma SentStays(nm: Naming, start: CC.ConsensusHeader, h: seq<BM.SubDag>, s: BM.SubDag, outcomes: seq<bool>,
                  sent: seq<ConsensusOutput>)
    requires SentFor(nm, start, h, outcomes, sent)
    ensures SentFor(nm, start, h + [s], outcomes, sent)
  {
    forall j | 0 <= j < |sent| ensures IsOutput(nm, start, h + [s], Kept(outcomes)[j], sent[j]) {
      assert IsOutput(nm, start, h, Kept(outcomes)[j], sent[j]);
      PendingStays(nm, start, h, s, Kept(outcomes)[j]);
    }
  }

  lemma SentMore(nm: Naming, start: CC.ConsensusHeader, h: seq<BM.SubDag>, outcomes: seq<bool>,
                 sent: seq<ConsensusOutput>, o: ConsensusOutput)
    requires SentFor(nm, start, h, outcomes, sent)
    ensures SentFor(nm, start, h, outcomes + [false], sent)
    ensures IsOutput(nm, start, h, |outcomes|, o) ==> SentFor(nm, start, h, outcomes + [true], sent + [o])
  {
    KeptSnoc(outcomes, false);
    KeptSnoc(outcomes, true);
  }

  lemma EndKeepsInOrder(nm: Naming, start: CC.ConsensusHeader, s: State, a: Answer, saved: bool, delivered: bool)
    requires InOrder(nm, start, s) && s.waiting != [] && KeyedAnswer(a)
    ensures InOrder(nm, start, Ended(nm, s, a, saved, delivered))
  {
    var w := PendingAt(nm, start, s.arrived, |s.outcomes|);
    assert s.waiting[0] == w;
    var output := Built(nm, w, a);
    var o := if output.Some? then output.value else ConsensusOutput([], [], ZERO, 0);
    SentMore(nm, start, s.arrived, s.outcomes, s.sent, o);
  }

  lemma StepKeepsInOrder(nm: Naming, start: CC.ConsensusHeader, s: State, e: Event)
    requires InOrder(nm, start, s) && Keyed(e)
    ensures InOrder(nm, start, Step(nm, s, e))
  {
    match e
    case Arrive(subDag) => ArriveKeepsInOrder(nm, start, s, subDag);
    case Fetched(a, saved, delivered) => if s.waiting != [] { EndKeepsInOrder(nm, start, s, a, saved, delivered); }
    case Shutdown =>
  }

  /** For every interleaving of arrivals and fetches: what is sent is the commits in the order they came, each
      numbered and hash-linked by arrival, less those whose fetch failed. */
  lemma {:induction false} SentInOrder(nm: Naming, start: CC.ConsensusHeader, table: CC.Table, events: seq<Event>)
    requires forall e :: e in events ==> Keyed(e)
    ensures InOrder(nm, start, Run(nm, Begin(start, table), events))
  {
    if events != [] {
      var n := |events| - 1;
      SentInOrder(nm, start, table, events[..n]);
      assert Keyed(events[n]);
      StepKeepsInOrder(nm, start, Run(nm, Begin(start, table), events[..n]), events[n]);
    }
  }

  // ---------- nothing is skipped that need not be ----------

  /** The worker's answer suffices: the leader is known and every digest of the commit's certificates is there. */
  ghost predicate Suffices(nm: Naming, w: Pending, a: Answer) {
    a.leaderKnown && forall c :: c in w.subDag.certificates ==> Brings(nm, c, a)
  }

  ghost predicate Brings(nm: Naming, c: BM.Cert, a: Answer) {
    forall d :: d in nm.payload(c) ==> a.batches.Some? && d in a.batches.value
  }

  lemma {:induction false} InFlatten(nm: Naming, certs: seq<BM.Cert>, d: Hash)
    ensures d in Flatten(Payloads(nm, certs)) <==> exists c :: c in certs && d in nm.payload(c)
  {
    if certs != [] {
      var n := |certs| - 1;
      InFlatten(nm, certs[..n], d);
      FlattenSnoc(Payloads(nm, certs[..n]), nm.payload(certs[n]));
      assert Payloads(nm, certs) == Payloads(nm, certs[..n]) + [nm.payload(certs[n])];
      assert certs == certs[..n] + [certs[n]];
    }
  }

  lemma BuiltIffSuffices(nm: Naming, w: Pending, a: Answer)
    ensures Built(nm, w, a).Some? <==> Suffices(nm, w, a)
  {
    var certs := w.subDag.certificates;
    var all := Flatten(Payloads(nm, certs));
    forall d ensures d in all <==> exists c :: c in certs && d in nm.payload(c) { InFlatten(nm, certs, d); }
    if Built(nm, w, a).Some? {
      forall c | c in certs ensures Brings(nm, c, a) {
        forall d | d in nm.payload(c) ensures a.batches.Some? && d in a.batches.value { assert d in all; }
      }
    }
    if Suffices(nm, w, a) {
      forall d | d in all ensures a.batches.Some? && d in a.batches.value {
        var c :| c in certs && d in nm.payload(c);
        assert Brings(nm, c, a);
      }
      if all != [] { assert all[0] in all; }
    }
  }

  /** The commits taken off the channel, and the fetches whose end was met, in the order of the events. */
  function ArrivalsTaken(nm: Naming, s: State, events: seq<Event>): seq<BM.SubDag> {
    if events == [] then []
    else
      var n := |events| - 1;
      var now, e := Run(nm, s, events[..n]), events[n];
      ArrivalsTaken(nm, s, events[..n])
      + if e.Arrive? && !now.stopped && |now.waiting| < MAX_PENDING_PAYLOADS then [e.subDag] else []
  }

  function EndsTaken(nm: Naming, s: State, events: seq<Event>): seq<Event> {
    if events == [] then []
    else
      var n := |events| - 1;
      var now, e := Run(nm, s, events[..n]), events[n];
      EndsTaken(nm, s, events[..n]) + if e.Fetched? && !now.stopped && now.waiting != [] then [e] else []
  }

  /** An end that came to nothing although the fetch succeeded: its output could not be saved or sent on. */
  ghost predicate BreaksOff(nm: Naming, w: Pending, e: Event) {
    e.Fetched? && Suffices(nm, w, e.answer) && !(e.saved && e.delivered)
  }

  ghost predicate EndedAs(nm: Naming, w: Pending, e: Event, sent: bool) {
    e.Fetched? && (sent <==> Suffices(nm, w, e.answer) && e.saved && e.delivered)
  }

  /** The record of a run is that of its events: every commit taken is counted, and its output is sent exactly when
      its fetch brought what it needs and saving and sending worked. */
  ghost predicate Accounted(nm: Naming, start: CC.ConsensusHeader, s: State, arrivals: seq<BM.SubDag>,
                            ends: seq<Event>) {
    && s.arrived == arrivals && |s.outcomes| == |ends| <= |s.arrived|
    && forall k {:trigger PendingAt(nm, start, s.arrived, k)} ::
         0 <= k < |ends| ==> EndedAs(nm, PendingAt(nm, start, s.arrived, k), ends[k], s.outcomes[k])
  }

  lemma ArriveAccounted(nm: Naming, start: CC.ConsensusHeader, s: State, arrivals: seq<BM.SubDag>, ends: seq<Event>,
                        subDag: BM.SubDag)
    requires Accounted(nm, start, s, arrivals, ends)
    ensures Accounted(nm, start, Arrived(nm, s, subDag), arrivals + [subDag], ends)
  {
    var s' := Arrived(nm, s, subDag);
    forall k | 0 <= k < |ends| ensures EndedAs(nm, PendingAt(nm, start, s'.arrived, k), ends[k], s'.outcomes[k]) {
      PendingStays(nm, start, s.arrived, subDag, k);
      assert EndedAs(nm, PendingAt(nm, start, s.arrived, k), ends[k], s.outcomes[k]);
    }
  }

  lemma EndAccounted(nm: Naming, start: CC.ConsensusHeader, s: State, arrivals: seq<BM.SubDag>, ends: seq<Event>,
                     e: Event)
    requires Accounted(nm, start, s, arrivals, ends) && InOrder(nm, start, s) && s.waiting != [] && e.Fetched?
    ensures var s' := Ended(nm, s, e.answer, e.saved, e.delivered);
            && Accounted(nm, start, s', arrivals, ends + [e])
            && (s'.stopped <==> s.stopped || BreaksOff(nm, PendingAt(nm, start, s.arrived, |ends|), e))
  {
    var w := s.waiting[0];
    var s' := Ended(nm, s, e.answer, e.saved, e.delivered);
    assert w == PendingAt(nm, start, s.arrived, |ends|);
    BuiltIffSuffices(nm, w, e.answer);
    forall k | 0 <= k < |ends + [e]|
      ensures EndedAs(nm, PendingAt(nm, start, s'.arrived, k), (ends + [e])[k], s'.outcomes[k])
    {
      if k < |ends| { assert EndedAs(nm, PendingAt(nm, start, s.arrived, k), ends[k], s.outcomes[k]); }
    }
  }

  lemma {:induction false} EveryCommitAccounted(nm: Naming, start: CC.ConsensusHeader, table: CC.Table,
                                                events: seq<Event>)
    requires forall e :: e in events ==> Keyed(e)
    ensures var s := Run(nm, Begin(start, table), events);
            Accounted(nm, start, s, ArrivalsTaken(nm, Begin(start, table), events),
                      EndsTaken(nm, Begin(start, table), events))
  {
    if events != [] {
      var n, first := |events| - 1, Begin(start, table);
      var e, now := events[n], Run(nm, first, events[..n]);
      EveryCommitAccounted(nm, start, table, events[..n]);
      SentInOrder(nm, start, table, events[..n]);
      var arrivals, ends := ArrivalsTaken(nm, first, events[..n]), EndsTaken(nm, first, events[..n]);
      if e.Arrive? && !now.stopped && |now.waiting| < MAX_PENDING_PAYLOADS {
        ArriveAccounted(nm, start, now, arrivals, ends, e.subDag);
      } else if e.Fetched? && !now.stopped && now.waiting != [] {
        EndAccounted(nm, start, now, arrivals, ends, e);
      }
      assert arrivals + [] == arrivals && ends + [] == ends;
    }
  }

  /** The loop ends exactly on shutdown, or when an output cannot be saved or sent on. */
  lemma StopsIff(nm: Naming, start: CC.ConsensusHeader, s: State, e: Event)
    requires InOrder(nm, start, s) && !s.stopped
    ensures Step(nm, s, e).stopped <==>
              || e.Shutdown?
              || (e.Fetched? && s.waiting != [] && BreaksOff(nm, PendingAt(nm, start, s.arrived, |s.outcomes|), e))
  {
    if e.Fetched? && s.waiting != [] {
      assert s.waiting[0] == PendingAt(nm, start, s.arrived, |s.outcomes|);
      BuiltIffSuffices(nm, s.waiting[0], e.answer);
    }
  }

  // ---------- the saved headers ----------

  /** The table with the headers of the commits whose outputs were sent. */
  function Saved(nm: Naming, start: CC.ConsensusHeader, table: CC.Table, h: seq<BM.SubDag>,
                 outcomes: seq<bool>): CC.Table
    requires |outcomes| <= |h|
  {
    if outcomes == [] then table
    else
      var n := |outcomes| - 1;
      var t := Saved(nm, start, table, h, outcomes[..n]);
      if outcomes[n] then t[start.number + n + 1 := HeaderOf(nm, start, h[..n + 1])] else t
  }

  lemma {:induction false} SavedRow(nm: Naming, start: CC.ConsensusHeader, table: CC.Table, h: seq<BM.SubDag>,
                                    outcomes: seq<bool>, n: nat)
    requires |outcomes| <= |h| && forall m :: m in table ==> m <= start.number
    ensures var t := Saved(nm, start, table, h, outcomes);
            var k := n - start.number - 1;
            && (n <= start.number ==> (n in t <==> n in table) && (n in t ==> t[n] == table[n]))
            && (n > start.number ==> (n in t <==> k < |outcomes| && outcomes[k]))
            && (n > start.number && n in t ==> t[n] == HeaderOf(nm, start, h[..k + 1]))
  {
    if outcomes != [] { SavedRow(nm, start, table, h, outcomes[..|outcomes| - 1], n); }
  }

  lemma {:induction false} SavedStays(nm: Naming, start: CC.ConsensusHeader, table: CC.Table, h: seq<BM.SubDag>,
                                      s: BM.SubDag, outcomes: seq<bool>)
    requires |outcomes| <= |h|
    ensures Saved(nm, start, table, h + [s], outcomes) == Saved(nm, start, table, h, outcomes)
  {
    if outcomes != [] {
      var n := |outcomes| - 1;
      SavedStays(nm, start, table, h, s, outcomes[..n]);
      assert (h + [s])[..n + 1] == h[..n + 1];
    }
  }

  lemma HeaderOfPending(nm: Naming, start: CC.ConsensusHeader, h: seq<BM.SubDag>, k: nat)
    requires k < |h|
    ensures Header(nm, PendingAt(nm, start, h, k)) == HeaderOf(nm, start, h[..k + 1])
  {
    HeaderNumber(nm, start, h[..k]);
    assert h[..k + 1][..k] == h[..k];
  }

  lemma EndSaves(nm: Naming, start: CC.ConsensusHeader, table: CC.Table, s: State, a: Answer)
    requires InOrder(nm, start, s) && s.waiting != [] && s.table == Saved(nm, start, table, s.arrived, s.outcomes)
    ensures var s' := Ended(nm, s, a, true, true);
            |s'.outcomes| <= |s'.arrived| && s'.table == Saved(nm, start, table, s'.arrived, s'.outcomes)
  {
    var s', n := Ended(nm, s, a, true, true), |s.outcomes|;
    assert s.waiting[0] == PendingAt(nm, start, s.arrived, n);
    HeaderOfPending(nm, start, s.arrived, n);
    assert s'.outcomes[..n] == s.outcomes;
  }

  /** The saved headers are those of the commits sent, at the numbers of their arrival. */
  lemma {:induction false} RunSaves(nm: Naming, start: CC.ConsensusHeader, table: CC.Table, events: seq<Event>)
    requires forall e :: e in events ==> Keyed(e) && (e.Fetched? ==> e.saved && e.delivered)
    ensures var s := Run(nm, Begin(start, table), events);
            |s.outcomes| <= |s.arrived| && s.table == Saved(nm, start, table, s.arrived, s.outcomes)
  {
    if events != [] {
      var n := |events| - 1;
      RunSaves(nm, start, table, events[..n]);
      SentInOrder(nm, start, table, events[..n]);
      var s := Run(nm, Begin(start, table), events[..n]);
      match events[n]
      case Arrive(subDag) => SavedStays(nm, start, table, s.arrived, subDag, s.outcomes);
      case Fetched(a, _, _) => if s.waiting != [] { EndSaves(nm, start, table, s, a); }
      case Shutdown =>
    }
  }

  /** No output was dropped before one that was sent. */
  predicate NoneDropped(outcomes: seq<bool>) {
    forall i, j :: 0 <= i < j < |outcomes| && outcomes[j] ==> outcomes[i]
  }

  lemma InKept(outcomes: seq<bool>, k: nat)
    ensures k in Kept(outcomes) <==> k < |outcomes| && outcomes[k]
  {
    KeptFacts(outcomes, k);
    if k in Kept(outcomes) {
      var j :| 0 <= j < |Kept(outcomes)| && Kept(outcomes)[j] == k;
      KeptFacts(outcomes, j);
    }
  }

  lemma NoneDroppedIsChain(nm: Naming, start: CC.ConsensusHeader, table: CC.Table, h: seq<BM.SubDag>,
                           outcomes: seq<bool>)
    requires |outcomes| <= |h| && NoneDropped(outcomes)
    requires CC.IsChain(table) && CC.IsTop(table, start.number) && CC.Row(table, start.number) == start
    ensures CC.IsChain(Saved(nm, start, table, h, outcomes))
  {
    var t := Saved(nm, start, table, h, outcomes);
    forall n | n in t ensures CC.RowFollows(t, n) {
      SavedRow(nm, start, table, h, outcomes, n);
      if n > 0 { SavedRow(nm, start, table, h, outcomes, n - 1); }
      if n <= start.number {
        assert CC.RowFollows(table, n);
      } else {
        HeaderFollows(nm, start, h, n - start.number - 1);
        assert h[..0] == [];
      }
    }
  }

  lemma ChainIsNoneDropped(nm: Naming, start: CC.ConsensusHeader, table: CC.Table, h: seq<BM.SubDag>,
                           outcomes: seq<bool>)
    requires |outcomes| <= |h| && (forall m :: m in table ==> m <= start.number)
    requires CC.IsChain(Saved(nm, start, table, h, outcomes))
    ensures NoneDropped(outcomes)
  {
    forall i, j | 0 <= i < j < |outcomes| && outcomes[j] ensures outcomes[i] {
      SavedRow(nm, start, table, h, outcomes, start.number + j + 1);
      CC.ChainReaches(Saved(nm, start, table, h, outcomes), start.number + j + 1, start.number + i + 1);
      SavedRow(nm, start, table, h, outcomes, start.number + i + 1);
    }
  }

  /** What a dropped output does to the saved chain: the table stays gap-free and linked exactly when nothing
      was dropped before something that was saved. */
  lemma ChainIffNoneDropped(nm: Naming, start: CC.ConsensusHeader, table: CC.Table, events: seq<Event>)
    requires forall e :: e in events ==> Keyed(e) && (e.Fetched? ==> e.saved && e.delivered)
    requires CC.IsChain(table) && CC.IsTop(table, start.number) && CC.Row(table, start.number) == start
    ensures var s := Run(nm, Begin(start, table), events);
            CC.IsChain(s.table) <==> NoneDropped(s.outcomes)
  {
    var s := Run(nm, Begin(start, table), events);
    RunSaves(nm, start, table, events);
    if NoneDropped(s.outcomes) { NoneDroppedIsChain(nm, start, table, s.arrived, s.outcomes); }
    if CC.IsChain(s.table) { ChainIsNoneDropped(nm, start, table, s.arrived, s.outcomes); }
  }

  // ---------- a fetch that fails ----------

  /** Three commits whose second fetch fails: the first and the third are sent, and the table has a gap. */
  lemma DroppedOutput(nm: Naming, a: BM.SubDag, b: BM.SubDag, c: BM.SubDag, ok: Answer, ok': Answer)
    requires KeyedAnswer(ok) && Built(nm, PendingAt(nm, CC.GENESIS, [a, b, c], 0), ok).Some?
    requires KeyedAnswer(ok') && Built(nm, PendingAt(nm, CC.GENESIS, [a, b, c], 2), ok').Some?
    ensures var s := Run(nm, Begin(CC.GENESIS, map[]), FailingRun(a, b, c, ok, ok'));
            s.arrived == [a, b, c] && s.outcomes == [true, false, true] && !CC.IsChain(s.table)
  {
    var s := Run(nm, Begin(CC.GENESIS, map[]), FailingRun(a, b, c, ok, ok'));
    FailingOutcomes(nm, a, b, c, ok, ok');
    assert s.outcomes[2] && !s.outcomes[1];
    ChainIffNoneDropped(nm, CC.GENESIS, map[], FailingRun(a, b, c, ok, ok'));
  }

  function FailingRun(a: BM.SubDag, b: BM.SubDag, c: BM.SubDag, ok: Answer, ok': Answer): seq<Event> {
    [Arrive(a), Arrive(b), Arrive(c)]
    + [Fetched(ok, true, true)] + [Fetched(Answer(false, None), true, true)] + [Fetched(ok', true, true)]
  }

  lemma FailingOutcomes(nm: Naming, a: BM.SubDag, b: BM.SubDag, c: BM.SubDag, ok: Answer, ok': Answer)
    requires Built(nm, PendingAt(nm, CC.GENESIS, [a, b, c], 0), ok).Some?
    requires Built(nm, PendingAt(nm, CC.GENESIS, [a, b, c], 2), ok').Some?
    ensures var s := Run(nm, Begin(CC.GENESIS, map[]), FailingRun(a, b, c, ok, ok'));
            s.arrived == [a, b, c] && s.outcomes == [true, false, true]
  {
    var s0, arrive := Begin(CC.GENESIS, map[]), [Arrive(a), Arrive(b), Arrive(c)];
    ThreeArrive(nm, a, b, c);
    RunThree(nm, s0, arrive, Fetched(ok, true, true), Fetched(Answer(false, None), true, true),
             Fetched(ok', true, true));
    ThreeEnd(nm, Run(nm, s0, arrive), ok, Answer(false, None), ok');
  }

  lemma ThreeEnd(nm: Naming, s: State, x: Answer, y: Answer, z: Answer)
    requires !s.stopped && s.outcomes == [] && |s.waiting| == 3
    requires Built(nm, s.waiting[0], x).Some? && Built(nm, s.waiting[1], y).None? && Built(nm, s.waiting[2], z).Some?
    ensures var two := Step(nm, Step(nm, s, Fetched(x, true, true)), Fetched(y, true, true));
            var t := Step(nm, two, Fetched(z, true, true));
            t.arrived == s.arrived && t.outcomes == [true, false, true]
  {}

  lemma RunThree(nm: Naming, s: State, es: seq<Event>, x: Event, y: Event, z: Event)
    ensures Run(nm, s, es + [x] + [y] + [z]) == Step(nm, Step(nm, Step(nm, Run(nm, s, es), x), y), z)
  {
    RunSnoc(nm, s, es, x);
    RunSnoc(nm, s, es + [x], y);
    RunSnoc(nm, s, es + [x] + [y], z);
  }

  lemma RunSnoc(nm: Naming, s: State, es: seq<Event>, e: Event)
    ensures Run(nm, s, es + [e]) == Step(nm, Run(nm, s, es), e)
  {
    assert (es + [e])[..|es|] == es;
  }

  lemma ThreeArrive(nm: Naming, a: BM.SubDag, b: BM.SubDag, c: BM.SubDag)
    ensures var s, h := Run(nm, Begin(CC.GENESIS, map[]), [Arrive(a), Arrive(b), Arrive(c)]), [a, b, c];
            && s.arrived == h && s.outcomes == [] && !s.stopped && |s.waiting| == 3
            && (forall i :: 0 <= i < 3 ==> s.waiting[i] == PendingAt(nm, CC.GENESIS, h, i))
  {
    var s0, e := Begin(CC.GENESIS, map[]), [Arrive(a), Arrive(b), Arrive(c)];
    RunThree(nm, s0, [], Arrive(a), Arrive(b), Arrive(c));
    assert [] + [Arrive(a)] + [Arrive(b)] + [Arrive(c)] == e;
    SentInOrder(nm, CC.GENESIS, map[], e);
  }
}
