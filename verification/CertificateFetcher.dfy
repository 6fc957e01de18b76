/** Fetching missing certificates: the rounds to catch up to, at most one fetch task at a time, and the
    request a task sends.
    Source: crates/consensus/primary/src/certificate_fetcher.rs and crates/network-types/src/request.rs */
module CertificateFetchers {
  import opened Basics
  import opened Committees
  import opened SortedSets
  import Store = CertificateStores

  // ---------- the request ----------

  const WORD: nat := 0x1_0000_0000

  type Round = r: nat | r < WORD

  /** The bytes of a bitmap decode to a set of 32-bit numbers, or not at all. */
  datatype Bitmap = Bits(bits: set<Round>) | Garbage

  datatype FetchRequest = FetchRequest(lowerBound: Round, skipRounds: seq<(AuthorityId, Bitmap)>)

  type Rounds = map<AuthorityId, set<Round>>

  /** The distance from the garbage-collected round, in 32-bit arithmetic that wraps around. */
  function Distance(r: Round, gc: Round): Round { (r - gc) % WORD }

  function FromDistance(d: Round, gc: Round): Round { (gc + d) % WORD }

  function Distances(rounds: set<Round>, gc: Round): set<Round> { set r | r in rounds :: Distance(r, gc) }

  function FromDistances(bits: set<Round>, gc: Round): set<Round> { set d | d in bits :: FromDistance(d, gc) }

  function Encode(gc: Round, skip: Rounds, ids: seq<AuthorityId>): seq<(AuthorityId, Bitmap)>
    requires forall a :: a in ids ==> a in skip
  {
    if ids == [] then []
    else
      var a := ids[|ids| - 1];
      Encode(gc, skip, ids[..|ids| - 1]) + [(a, Bits(Distances(skip[a], gc)))]
  }

  /** `set_bounds`: the entries come in the order of the authorities' ids. */
  function SetBounds(gc: Round, skip: Rounds): FetchRequest {
    FetchRequest(gc, Encode(gc, skip, SortedNats(skip.Keys)))
  }

  function Decode(gc: Round, entries: seq<(AuthorityId, Bitmap)>): Rounds {
    if entries == [] then map[]
    else
      var n := |entries| - 1;
      var rest := Decode(gc, entries[..n]);
      if entries[n].1.Garbage? then rest else rest[entries[n].0 := FromDistances(entries[n].1.bits, gc)]
  }

  function GetBounds(request: FetchRequest): (Round, Rounds) {
    (request.lowerBound, Decode(request.lowerBound, request.skipRounds))
  }

  lemma DistanceRoundTrip(rounds: set<Round>, gc: Round)
    ensures FromDistances(Distances(rounds, gc), gc) == rounds
  {
    forall r | r in rounds ensures FromDistance(Distance(r, gc), gc) == r {}
    forall r ensures r in FromDistances(Distances(rounds, gc), gc) <==> r in rounds {
      if r in rounds { assert Distance(r, gc) in Distances(rounds, gc); }
    }
  }

  lemma {:induction false} DecodeUndoesEncode(gc: Round, skip: Rounds, ids: seq<AuthorityId>)
    requires forall a :: a in ids ==> a in skip
    ensures Decode(gc, Encode(gc, skip, ids)) == map a | a in ids :: skip[a]
  {
    if ids != [] {
      var n := |ids| - 1;
      var rest, entries := Encode(gc, skip, ids[..n]), Encode(gc, skip, ids);
      DecodeUndoesEncode(gc, skip, ids[..n]);
      DistanceRoundTrip(skip[ids[n]], gc);
      assert entries[..|entries| - 1] == rest;
      assert ids == ids[..n] + [ids[n]];
    }
  }

  /** A peer decodes exactly the bounds that were encoded, for every map of rounds. */
  lemma BoundsRoundTrip(gc: Round, skip: Rounds)
    ensures GetBounds(SetBounds(gc, skip)) == (gc, skip)
  {
    DecodeUndoesEncode(gc, skip, SortedNats(skip.Keys));
    assert skip == map a | a in SortedNats(skip.Keys) :: skip[a];
  }

  /** The encoded number is the plain difference, with nothing wrapped, exactly for rounds not below the bound. */
  lemma NoUnderflowIff(r: Round, gc: Round)
    ensures Distance(r, gc) == r - gc <==> r >= gc
  {}

  // ---------- the fetcher ----------

  datatype Fetcher = Fetcher(targets: map<AuthorityId, nat>, tasks: nat)

  /** What is read at an event: the garbage-collected round, and the rounds of the stored certificates above
      it with their origins, unless the store cannot be read. */
  datatype View = View(gc: Round, origins: Option<seq<(Round, seq<AuthorityId>)>>)

  datatype Event =
    | Ancestors(sameEpoch: bool, author: AuthorityId, round: nat, lastRound: Option<Option<nat>>, view: View)
    | Kick(view: View)
    | TaskDone(view: View)

  /** Whether a round written for the origin, or the garbage-collected round, has reached the target. */
  predicate ReachedBy(written: set<Round>, gc: Round, target: nat) {
    if written == {} then gc >= target else exists r :: r in written && r >= target
  }

  /** Entry `i` of what was read lists the authority. */
  predicate ListedAt(view: View, a: AuthorityId, i: nat) {
    view.origins.Some? && i < |view.origins.value| && a in view.origins.value[i].1
  }

  /** A certificate of the authority is stored at or above the round, or none is stored above the
      garbage-collected round and that has reached it. */
  ghost predicate Reached(view: View, a: AuthorityId, round: nat) {
    && view.origins.Some?
    && (|| (exists i: nat :: ListedAt(view, a, i) && view.origins.value[i].0 >= round)
        || ((forall i: nat :: !ListedAt(view, a, i)) && view.gc >= round))
  }

  lemma ReachedIff(view: View, a: AuthorityId, round: nat)
    requires view.origins.Some?
    ensures ReachedBy(WrittenRounds(view.origins.value, a), view.gc, round) <==> Reached(view, a, round)
  {
    var origins := view.origins.value;
    var written := WrittenRounds(origins, a);
    if i: nat :| ListedAt(view, a, i) { assert origins[i] in origins && origins[i].0 in written; }
    forall r | r in written ensures exists i: nat :: ListedAt(view, a, i) && origins[i].0 == r {
      var e :| e in origins && a in e.1 && e.0 == r;
      var i :| 0 <= i < |origins| && origins[i] == e;
      assert ListedAt(view, a, i);
    }
    forall i: nat | ListedAt(view, a, i) ensures origins[i].0 in written { assert origins[i] in origins; }
  }

  function WrittenRounds(origins: seq<(Round, seq<AuthorityId>)>, a: AuthorityId): set<Round> {
    set e | e in origins && a in e.1 :: e.0
  }

  function Retain(targets: map<AuthorityId, nat>, gc: Round,
                  origins: seq<(Round, seq<AuthorityId>)>): map<AuthorityId, nat> {
    map a | a in targets && !ReachedBy(WrittenRounds(origins, a), gc, targets[a]) :: targets[a]
  }

  /** The targets not yet reached, unchanged. */
  ghost predicate IsLeft(view: View, targets: map<AuthorityId, nat>, left: map<AuthorityId, nat>) {
    && (forall a :: a in left <==> a in targets && !Reached(view, a, targets[a]))
    && (forall a :: a in left ==> left[a] == targets[a])
  }

  lemma RetainIff(view: View, targets: map<AuthorityId, nat>)
    requires view.origins.Some?
    ensures IsLeft(view, targets, Retain(targets, view.gc, view.origins.value))
  {
    forall a | a in targets { ReachedIff(view, a, targets[a]); }
  }

  function Kickstarted(s: Fetcher, view: View): Fetcher {
    if view.origins.None? then s
    else
      var targets := Retain(s.targets, view.gc, view.origins.value);
      Fetcher(targets, if targets == map[] then s.tasks else s.tasks + 1)
  }

  /** Is a reported certificate one to catch up to? */
  predicate Wanted(s: Fetcher, e: Event)
    requires e.Ancestors?
  {
    && e.sameEpoch
    && !(e.author in s.targets && e.round <= s.targets[e.author])
    && e.lastRound.Some? && !(e.round <= if e.lastRound.value.Some? then e.lastRound.value.value else 0)
  }

  /** The target taken on before any task is started. */
  function Noted(s: Fetcher, e: Event): Fetcher {
    match e
    case Ancestors(_, author, round, _, _) => if Wanted(s, e) then s.(targets := s.targets[author := round]) else s
    case Kick(_) => s
    case TaskDone(_) => s.(tasks := if s.tasks > 0 then s.tasks - 1 else 0)
  }

  /** Does the event try to start a task? */
  predicate Tries(s: Fetcher, e: Event) {
    match e
    case Ancestors(_, _, _, _, _) => Wanted(s, e) && s.tasks == 0
    case Kick(_) => s.tasks == 0
    case TaskDone(_) => s.tasks == 1
  }

  function Step(s: Fetcher, e: Event): Fetcher {
    if Tries(s, e) then Kickstarted(Noted(s, e), e.view) else Noted(s, e)
  }

  class CertificateFetcher {
    const committee: Committee
    var targets: map<AuthorityId, nat>
    var tasks: nat

    constructor (committee: Committee)
      ensures targets == map[] && tasks == 0 && this.committee == committee
    {
      this.committee := committee;
      targets, tasks := map[], 0;
    }

    function Now(): Fetcher reads this { Fetcher(targets, tasks) }

    /** `kickstart` after its read: drops the targets already reached and, if any is left, starts a task. The
        bounds it sends decode to the rounds held. */
    method Kickstart(view: View) returns (request: Option<FetchRequest>, ghost written: Rounds)
      modifies this
      ensures Now() == Kickstarted(old(Now()), view)
      ensures if view.origins.Some? then IsLeft(view, old(targets), targets) else targets == old(targets)
      ensures request.Some? <==> view.origins.Some? && targets != map[]
      ensures request.Some? <==> tasks == old(tasks) + 1
      ensures request.Some? ==>
                && GetBounds(request.value) == (view.gc, written)
                && committee.Ids() <= written.Keys
                && (forall a :: a in written ==> written[a] == WrittenRounds(view.origins.value, a))
    {
      written := map[];
      if view.origins.None? { return None, written; }
      var origins, gc := view.origins.value, view.gc;
      var rounds := CollectRounds(committee, origins);
      targets := map a | a in targets && !ReachedBy(Entry(rounds, a), gc, targets[a]) :: targets[a];
      assert targets == Retain(old(targets), gc, origins);
      RetainIff(view, old(targets));
      written := rounds;
      if targets == map[] { return None, written; }
      tasks := tasks + 1;
      BoundsRoundTrip(gc, rounds);
      request := Some(SetBounds(gc, rounds));
    }

    /** `kickstart` whole, on a store holding the tables `t`. The rounds sent are those indexed from the one after
        the garbage-collected round on, so unless that is the last round there is, the distances never wrap. */
    method KickstartFromStore(db: Store.Database, gc: Round, least: Store.Origin, idOf: Store.Origin -> AuthorityId,
                              ghost t: Store.Tables)
      returns (request: Option<FetchRequest>, ghost written: Rounds, ghost view: View)
      requires Store.Mirrors(db.store, t)
      modifies this
      ensures Now() == Kickstarted(old(Now()), view) && IsView(t, idOf, gc, view)
      ensures request.Some? <==> tasks == old(tasks) + 1
      ensures request.Some? ==> GetBounds(request.value) == (gc, written) && committee.Ids() <= written.Keys
      ensures request.Some? ==>
                forall a, r: Round :: a in written ==> (r in written[a] <==> FromRound(t, idOf, a, r, (gc + 1) % WORD))
      ensures request.Some? && gc + 1 < WORD ==>
                forall a, r :: a in written && r in written[a] ==> r > gc && Distance(r, gc) == r - gc
    {
      var seen := ReadView(db, gc, least, idOf, t);
      view := seen;
      request, written := Kickstart(seen);
    }

    /** One pass of the `run` loop. */
    method Handle(e: Event)
      modifies this
      ensures Now() == Step(old(Now()), e)
    {
      match e {
        case Kick(view) =>
          if tasks == 0 { var request, written := Kickstart(view); }
        case Ancestors(sameEpoch, author, round, lastRound, view) =>
          if !sameEpoch { return; }
          if author in targets && round <= targets[author] { return; }
          if lastRound.None? { return; }
          var last := if lastRound.value.Some? then lastRound.value.value else 0;
          if round <= last { return; }
          targets := targets[author := round];
          if tasks == 0 { var request, written := Kickstart(view); }
        case TaskDone(view) =>
          if tasks == 0 { return; }
          tasks := tasks - 1;
          if tasks == 0 { var request, written := Kickstart(view); }
      }
    }
  }

  /** A certificate of the authority is indexed for the round, and the round is not before the given one. */
  ghost predicate FromRound(t: Store.Tables, idOf: Store.Origin -> AuthorityId, a: AuthorityId, r: Round,
                            first: Round) {
    r >= first && exists o: Store.Origin :: idOf(o) == a && Store.Slot(o, r) in t.byRound
  }

  /** What is seen of each authority are its rounds in the store after the garbage-collected one. */
  ghost predicate IsView(t: Store.Tables, idOf: Store.Origin -> AuthorityId, gc: Round, view: View) {
    && view.gc == gc && view.origins.Some?
    && forall a, r: Round ::
         r in WrittenRounds(view.origins.value, a) <==> FromRound(t, idOf, a, r, (gc + 1) % WORD)
  }

  function IdsOf(os: seq<Store.Origin>, idOf: Store.Origin -> AuthorityId): seq<AuthorityId> {
    seq(|os|, i requires 0 <= i < |os| => idOf(os[i]))
  }

  /** The read at the start of `kickstart`, rounds in ascending order. */
  method ReadView(db: Store.Database, gc: Round, least: Store.Origin, idOf: Store.Origin -> AuthorityId,
                  ghost t: Store.Tables)
    returns (view: View)
    requires Store.Mirrors(db.store, t)
    ensures IsView(t, idOf, gc, view)
  {
    var first: Round := (gc + 1) % WORD;
    var listed := Store.OriginsAfterRound(db, first, least, t);
    view := View(gc, Some(InRoundOrder(listed, idOf)));
    forall a, r: Round ensures r in WrittenRounds(view.origins.value, a) <==> FromRound(t, idOf, a, r, first) {
      RoundsAsListed(listed, idOf, t, first, a, r);
    }
  }

  function InRoundOrder(listed: map<Store.Round, seq<Store.Origin>>, idOf: Store.Origin -> AuthorityId)
    : (origins: seq<(Round, seq<AuthorityId>)>)
  {
    var rounds := SortedNats(listed.Keys);
    seq(|rounds|, i requires 0 <= i < |rounds| => (rounds[i], IdsOf(listed[rounds[i]], idOf)))
  }

  lemma ListedIsSeen(listed: map<Store.Round, seq<Store.Origin>>, idOf: Store.Origin -> AuthorityId,
                     o: Store.Origin, r: Round)
    requires Store.Lists(listed, Store.Slot(o, r))
    ensures r in WrittenRounds(InRoundOrder(listed, idOf), idOf(o))
  {
    var rounds, origins := SortedNats(listed.Keys), InRoundOrder(listed, idOf);
    var i :| 0 <= i < |rounds| && rounds[i] == r;
    var k :| 0 <= k < |listed[r]| && listed[r][k] == o;
    assert origins[i].1[k] == idOf(o);
    assert origins[i] in origins;
  }

  lemma SeenIsListed(listed: map<Store.Round, seq<Store.Origin>>, idOf: Store.Origin -> AuthorityId,
                     a: AuthorityId, r: Round)
    returns (o: Store.Origin)
    requires r in WrittenRounds(InRoundOrder(listed, idOf), a)
    ensures idOf(o) == a && Store.Lists(listed, Store.Slot(o, r))
  {
    var origins := InRoundOrder(listed, idOf);
    var e :| e in origins && a in e.1 && e.0 == r;
    var i :| 0 <= i < |origins| && origins[i] == e;
    var k :| 0 <= k < |e.1| && e.1[k] == a;
    o := listed[r][k];
  }

  lemma RoundsAsListed(listed: map<Store.Round, seq<Store.Origin>>, idOf: Store.Origin -> AuthorityId,
                       t: Store.Tables, first: Round, a: AuthorityId, r: Round)
    requires forall x: Store.Slot {:trigger Store.Lists(listed, x)} ::
               Store.Lists(listed, x) <==> x in t.byRound && x.round >= first
    ensures r in WrittenRounds(InRoundOrder(listed, idOf), a) <==> FromRound(t, idOf, a, r, first)
  {
    if r in WrittenRounds(InRoundOrder(listed, idOf), a) {
      var o := SeenIsListed(listed, idOf, a, r);
      assert Store.Slot(o, r) in t.byRound;
    }
    if FromRound(t, idOf, a, r, first) {
      var o: Store.Origin :| idOf(o) == a && Store.Slot(o, r) in t.byRound;
      assert Store.Lists(listed, Store.Slot(o, r));
      ListedIsSeen(listed, idOf, o, r);
    }
  }

  /** What is gathered for each origin, with an entry for every authority. */
  ghost predicate Gathered(committee: Committee, origins: seq<(Round, seq<AuthorityId>)>, written: Rounds) {
    && committee.Ids() <= written.Keys
    && (forall a :: a in written ==> written[a] == WrittenRounds(origins, a))
    && (forall a :: a !in written ==> WrittenRounds(origins, a) == {})
  }

  /** The loops of `kickstart` that gather the rounds held for each origin, starting from every authority. */
  method CollectRounds(committee: Committee, origins: seq<(Round, seq<AuthorityId>)>) returns (written: Rounds)
    ensures Gathered(committee, origins, written)
  {
    written := map a | a in committee.Ids() :: {};
    var i := 0;
    while i < |origins|
      invariant 0 <= i <= |origins| && Gathered(committee, origins[..i], written)
    {
      forall a { OneMoreOrigin(origins, i, a); }
      written := AddRound(written, origins[i].0, origins[i].1);
      i := i + 1;
    }
    assert origins[..i] == origins;
  }

  function Entry(written: Rounds, a: AuthorityId): set<Round> { if a in written then written[a] else {} }

  method AddRound(before: Rounds, round: Round, ids: seq<AuthorityId>) returns (written: Rounds)
    ensures forall a :: a in written <==> a in before || a in ids
    ensures forall a :: a in written ==> written[a] == Entry(before, a) + if a in ids then {round} else {}
  {
    written := before;
    var j := 0;
    while j < |ids|
      invariant 0 <= j <= |ids|
      invariant forall a :: a in written <==> a in before || a in ids[..j]
      invariant forall a :: a in written ==> written[a] == Entry(before, a) + if a in ids[..j] then {round} else {}
    {
      assert ids[..j + 1] == ids[..j] + [ids[j]];
      written := written[ids[j] := Entry(written, ids[j]) + {round}];
      j := j + 1;
    }
    assert ids[..j] == ids;
  }

  lemma OneMoreOrigin(origins: seq<(Round, seq<AuthorityId>)>, i: nat, a: AuthorityId)
    requires i < |origins|
    ensures WrittenRounds(origins[..i + 1], a)
            == WrittenRounds(origins[..i], a) + if a in origins[i].1 then {origins[i].0} else {}
  {
    assert origins[..i + 1] == origins[..i] + [origins[i]];
  }

  // ---------- every run ----------

  function Run(s: Fetcher, events: seq<Event>): Fetcher {
    if events == [] then s else Step(Run(s, events[..|events| - 1]), events[|events| - 1])
  }

  /** At most one task, and one whenever there is something to catch up to. */
  predicate Busy(s: Fetcher) { s.tasks <= 1 && (s.tasks == 0 ==> s.targets == map[]) }

  /** One event keeps this exactly when it does not run into an unreadable store with targets to serve. */
  lemma BusyIffReadable(s: Fetcher, e: Event)
    requires Busy(s)
    ensures Busy(Step(s, e)) <==> !(Tries(s, e) && e.view.origins.None? && Noted(s, e).targets != map[])
  {}

  /** While the store can be read nothing is left waiting, over every order of reports, kicks and task ends. */
  lemma {:induction false} NeverIdleWithTargets(events: seq<Event>)
    requires forall e :: e in events ==> e.view.origins.Some?
    ensures Busy(Run(Fetcher(map[], 0), events))
  {
    if events != [] {
      var n := |events| - 1;
      NeverIdleWithTargets(events[..n]);
      BusyIffReadable(Run(Fetcher(map[], 0), events[..n]), events[n]);
    }
  }

  /** A certificate of this origin and round is still being caught up to. */
  predicate Chasing(s: Fetcher, a: AuthorityId, round: nat) { a in s.targets && s.targets[a] >= round }

  lemma StepKeepsChasing(s: Fetcher, e: Event, a: AuthorityId, round: nat)
    requires Chasing(s, a, round)
    ensures Chasing(Step(s, e), a, round) || Reached(e.view, a, round)
  {
    assert Chasing(Noted(s, e), a, round);
    if Tries(s, e) && e.view.origins.Some? {
      ReachedIff(e.view, a, Noted(s, e).targets[a]);
    }
  }

  /** Targets only rise: an event before any start changes at most the reporter's target, to a round of this epoch
      above it and above what the store was read to hold. */
  lemma TargetsRise(s: Fetcher, e: Event, a: AuthorityId)
    ensures var noted := Noted(s, e).targets;
            && (a in s.targets ==> a in noted && noted[a] >= s.targets[a])
            && (a in noted && !(a in s.targets && noted[a] == s.targets[a]) ==>
                  && e.Ancestors? && e.author == a && e.round == noted[a] && e.sameEpoch
                  && e.lastRound.Some? && (e.lastRound.value.Some? ==> e.round > e.lastRound.value.value))
  {}

  /** A report of this epoch is never dropped silently: it is chased, or its origin's stored or
      garbage-collected rounds have reached it. */
  lemma ReportIsHandled(s: Fetcher, e: Event)
    requires e.Ancestors? && e.sameEpoch && e.lastRound.Some?
    ensures || Chasing(Step(s, e), e.author, e.round)
            || Reached(e.view, e.author, e.round)
            || e.round == 0
            || (e.lastRound.value.Some? && e.lastRound.value.value >= e.round)
  {
    if Wanted(s, e) {
      var noted := Noted(s, e);
      assert Chasing(noted, e.author, e.round);
      if e.view.origins.Some? { ReachedIff(e.view, e.author, e.round); }
    }
  }

  /** And no reached target is chased on: when a start is tried over a readable store, exactly the reached ones
      are dropped, and a task starts exactly when one is left. */
  lemma DroppedIffReached(s: Fetcher, e: Event, a: AuthorityId)
    requires Tries(s, e) && e.view.origins.Some? && a in Noted(s, e).targets
    ensures a !in Step(s, e).targets <==> Reached(e.view, a, Noted(s, e).targets[a])
    ensures a in Step(s, e).targets ==> Step(s, e).targets[a] == Noted(s, e).targets[a]
    ensures Step(s, e).tasks == Noted(s, e).tasks + if Step(s, e).targets == map[] then 0 else 1
  {
    ReachedIff(e.view, a, Noted(s, e).targets[a]);
  }

  /** No missing certificate is forgotten: once taken on, it is chased until a stored round of its origin, or
      the garbage-collected round, was seen to reach it. */
  lemma {:induction false} NotForgotten(s: Fetcher, events: seq<Event>, a: AuthorityId, round: nat)
    requires Chasing(s, a, round)
    ensures Chasing(Run(s, events), a, round) || exists e :: e in events && Reached(e.view, a, round)
  {
    if events != [] {
      var n := |events| - 1;
      NotForgotten(s, events[..n], a, round);
      if Chasing(Run(s, events[..n]), a, round) {
        StepKeepsChasing(Run(s, events[..n]), events[n], a, round);
      }
    }
  }

  /** With an unreadable store a target can be left with no task to fetch it, until the next event. */
  lemma UnreadableStoreLeavesTargets()
    ensures !Busy(Run(Fetcher(map[], 0), [Ancestors(true, 0, 5, Some(None), View(0, None))]))
  {
    var e := Ancestors(true, 0, 5, Some(None), View(0, None));
    assert [e][..0] == [];
    assert Run(Fetcher(map[], 0), []) == Fetcher(map[], 0);
    assert 0 in Step(Fetcher(map[], 0), e).targets;
  }
}
