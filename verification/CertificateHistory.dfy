/** What the certificate store answers after any history of writes, deletions and clearings.
    Source: crates/storage/src/stores/certificate_store.rs */
module CertificateHistory {
  import opened Basics
  import opened CertificateStores

  /** A certificate's digest is its header's, and each slot has one certified header. */
  datatype Naming = Naming(slotOf: Digest -> Slot, digestOf: Slot -> Digest)

  predicate Named(w: Naming, c: Certificate) { c.slot == w.slotOf(c.digest) && c.digest == w.digestOf(c.slot) }

  datatype Event = Put(cert: Certificate) | PutAll(certs: seq<Certificate>) | Drop(id: Digest) | Wipe

  function Step(t: Tables, e: Event): Tables {
    match e
    case Put(c) => Written(t, c)
    case PutAll(cs) => WrittenAll(t, cs)
    case Drop(id) => Deleted(t, id)
    case Wipe => EMPTY
  }

  function Run(events: seq<Event>): Tables {
    if events == [] then EMPTY else Step(Run(events[..|events| - 1]), events[|events| - 1])
  }

  ghost predicate NamedEvent(w: Naming, e: Event) {
    (e.Put? ==> Named(w, e.cert)) && (e.PutAll? ==> forall c :: c in e.certs ==> Named(w, c))
  }

  ghost predicate AllNamed(w: Naming, events: seq<Event>) { forall i :: 0 <= i < |events| ==> NamedEvent(w, events[i]) }

  // ---------- the invariant of every history ----------

  ghost predicate RowSound(w: Naming, t: Tables, s: Slot) {
    && (s in t.byRound ==> s in t.byOrigin && t.byRound[s] == w.digestOf(s) && w.digestOf(s) in t.certs)
    && (s in t.byOrigin ==> t.byOrigin[s] == w.digestOf(s) && w.slotOf(w.digestOf(s)) == s)
  }

  ghost predicate CertSound(w: Naming, t: Tables, d: Digest) {
    d in t.certs ==> Named(w, t.certs[d]) && t.certs[d].digest == d && t.certs[d].slot in t.byRound
  }

  /** The index by round names exactly the certificates held, and the index by origin has all its rows. */
  ghost predicate Sound(w: Naming, t: Tables) {
    && (forall s {:trigger RowSound(w, t, s)} :: RowSound(w, t, s))
    && (forall d {:trigger CertSound(w, t, d)} :: CertSound(w, t, d))
  }

  lemma SaveKeepsSound(w: Naming, t: Tables, c: Certificate)
    requires Sound(w, t) && Named(w, c)
    ensures Sound(w, Save(t, c))
  {
    var t' := Save(t, c);
    forall s ensures RowSound(w, t', s) { assert RowSound(w, t, s); }
    forall d ensures CertSound(w, t', d) { assert CertSound(w, t, d); }
  }

  lemma {:induction false} SaveAllKeepsSound(w: Naming, t: Tables, cs: seq<Certificate>)
    requires Sound(w, t) && forall c :: c in cs ==> Named(w, c)
    ensures Sound(w, SaveAll(t, cs))
  {
    if cs != [] {
      SaveAllKeepsSound(w, t, cs[..|cs| - 1]);
      SaveKeepsSound(w, SaveAll(t, cs[..|cs| - 1]), cs[|cs| - 1]);
    }
  }

  lemma GcKeepsSound(w: Naming, t: Tables, round: Round)
    requires Sound(w, t)
    ensures Sound(w, Gc(t, round))
  {
    var t' := Gc(t, round);
    forall s ensures RowSound(w, t', s) {
      assert RowSound(w, t, s);
      forall x | x in t.byRound && t.byRound[x] == w.digestOf(s) && s in t.byRound ensures x == s {
        assert RowSound(w, t, x);
      }
    }
    forall d ensures CertSound(w, t', d) {
      assert CertSound(w, t, d);
      if d in t'.certs { assert RowSound(w, t, t.certs[d].slot); }
    }
  }

  lemma DeletedKeepsSound(w: Naming, t: Tables, id: Digest)
    requires Sound(w, t)
    ensures Sound(w, Deleted(t, id))
  {
    var t' := Deleted(t, id);
    assert CertSound(w, t, id);
    forall s ensures RowSound(w, t', s) { assert RowSound(w, t, s); }
    forall d ensures CertSound(w, t', d) { assert CertSound(w, t, d); }
  }

  lemma StepKeepsSound(w: Naming, t: Tables, e: Event)
    requires Sound(w, t) && NamedEvent(w, e)
    ensures Sound(w, Step(t, e))
  {
    match e {
      case Put(c) => SaveKeepsSound(w, t, c); GcKeepsSound(w, Save(t, c), c.slot.round);
      case PutAll(cs) => SaveAllKeepsSound(w, t, cs); GcKeepsSound(w, SaveAll(t, cs), MaxRound(cs));
      case Drop(id) => DeletedKeepsSound(w, t, id);
      case Wipe =>
    }
  }

  lemma {:induction false} RunIsSound(w: Naming, events: seq<Event>)
    requires AllNamed(w, events)
    ensures Sound(w, Run(events))
  {
    if events != [] {
      var n := |events| - 1;
      RunIsSound(w, events[..n]);
      StepKeepsSound(w, Run(events[..n]), events[n]);
    }
  }

  /** After any history `after_round` meets no invariant violation: every row leads to a held certificate of
      that slot. */
  lemma EveryRowLeadsToItsCertificate(w: Naming, events: seq<Event>, round: Round, found: seq<(Slot, Digest)>)
    requires AllNamed(w, events) && IndexFrom(Run(events), round, found)
    ensures var t := Run(events);
            forall j :: 0 <= j < |found| ==> found[j].1 in t.certs && t.certs[found[j].1].slot == found[j].0
  {
    RunIsSound(w, events);
    var t := Run(events);
    forall j | 0 <= j < |found| ensures found[j].1 in t.certs && t.certs[found[j].1].slot == found[j].0 {
      assert IsEntry(t, found[j]);
      assert RowSound(w, t, found[j].0) && CertSound(w, t, found[j].1);
    }
  }

  // ---------- which certificates are held ----------

  predicate Puts(e: Event, s: Slot) {
    match e
    case Put(c) => c.slot == s
    case PutAll(cs) => exists c :: c in cs && c.slot == s
    case _ => false
  }

  predicate Keeps(w: Naming, e: Event, s: Slot) {
    match e
    case Put(c) => c.slot.round <= s.round + ROUNDS_TO_KEEP
    case PutAll(cs) => MaxRound(cs) <= s.round + ROUNDS_TO_KEEP
    case Drop(id) => id != w.digestOf(s)
    case Wipe => false
  }

  lemma {:induction false} SavedSlots(t: Tables, cs: seq<Certificate>, s: Slot)
    ensures s in SaveAll(t, cs).byRound <==> s in t.byRound || Puts(PutAll(cs), s)
    ensures s in SaveAll(t, cs).byOrigin <==> s in t.byOrigin || Puts(PutAll(cs), s)
  {
    if cs != [] {
      var n := |cs| - 1;
      SavedSlots(t, cs[..n], s);
      assert cs == cs[..n] + [cs[n]];
      if Puts(PutAll(cs), s) && cs[n].slot != s {
        var c :| c in cs && c.slot == s;
        assert c in cs[..n];
      }
    }
  }

  lemma HeldStep(w: Naming, t: Tables, e: Event, s: Slot)
    requires Sound(w, t) && NamedEvent(w, e)
    ensures s in Step(t, e).byRound <==> (s in t.byRound || Puts(e, s)) && Keeps(w, e, s)
  {
    match e {
      case Put(c) =>
      case PutAll(cs) => SavedSlots(t, cs, s);
      case Drop(id) => assert RowSound(w, t, s) && CertSound(w, t, id);
      case Wipe =>
    }
  }

  /** Written at `i` and kept by everything from there on. */
  ghost predicate KeptSince(w: Naming, events: seq<Event>, i: nat, s: Slot) {
    i < |events| && Puts(events[i], s) && forall j :: i <= j < |events| ==> Keeps(w, events[j], s)
  }

  /** A certificate is held exactly when it was written and since then neither deleted, nor cleared, nor
      followed by a write of a round more than `ROUNDS_TO_KEEP` above its own. */
  lemma {:induction false} HeldIff(w: Naming, events: seq<Event>, s: Slot)
    requires AllNamed(w, events)
    ensures s in Run(events).byRound <==> exists i :: KeptSince(w, events, i, s)
  {
    if events != [] {
      var n := |events| - 1;
      var before, e := events[..n], events[n];
      HeldIff(w, before, s);
      RunIsSound(w, before);
      HeldStep(w, Run(before), e, s);
      if s in Run(events).byRound {
        if Puts(e, s) {
          assert KeptSince(w, events, n, s);
        } else {
          var i: nat :| KeptSince(w, before, i, s);
          assert KeptSince(w, events, i, s);
        }
      }
      if i: nat :| KeptSince(w, events, i, s) {
        assert Keeps(w, events[n], s);
        if i < n { assert KeptSince(w, before, i, s); }
      }
    }
  }

  // ---------- rows left behind ----------

  /** A row by origin of a certificate that is no longer held. */
  predicate Stale(t: Tables, s: Slot) { s in t.byOrigin && s !in t.byRound }

  predicate Renews(e: Event, s: Slot) { e.Wipe? || Puts(e, s) }

  lemma StaleStep(w: Naming, t: Tables, e: Event, s: Slot)
    requires Sound(w, t) && NamedEvent(w, e)
    ensures Stale(Step(t, e), s) <==>
              (Stale(t, s) && !Renews(e, s)) || (e == Drop(w.digestOf(s)) && s in t.byRound)
  {
    assert RowSound(w, t, s);
    match e {
      case Put(c) =>
      case PutAll(cs) => SavedSlots(t, cs, s);
      case Drop(id) => assert CertSound(w, t, id);
      case Wipe =>
    }
  }

  /** Deleted at `i` while held, and neither written again nor cleared since. */
  ghost predicate DroppedSince(w: Naming, events: seq<Event>, i: nat, s: Slot) {
    && i < |events| && events[i] == Drop(w.digestOf(s)) && s in Run(events[..i]).byRound
    && forall j :: i < j < |events| ==> !Renews(events[j], s)
  }

  lemma StillDropped(w: Naming, before: seq<Event>, e: Event, i: nat, s: Slot)
    requires DroppedSince(w, before, i, s) && !Renews(e, s)
    ensures DroppedSince(w, before + [e], i, s)
  {
    assert (before + [e])[..i] == before[..i];
  }

  lemma WasDropped(w: Naming, before: seq<Event>, e: Event, i: nat, s: Slot)
    requires DroppedSince(w, before + [e], i, s) && i < |before|
    ensures DroppedSince(w, before, i, s) && !Renews(e, s)
  {
    var events := before + [e];
    assert events[..i] == before[..i] && events[|before|] == e;
    forall j | i < j < |before| ensures !Renews(before[j], s) { assert events[j] == before[j]; }
  }

  lemma DroppedNow(w: Naming, before: seq<Event>, e: Event, s: Slot)
    ensures DroppedSince(w, before + [e], |before|, s) <==> e == Drop(w.digestOf(s)) && s in Run(before).byRound
  {
    assert (before + [e])[..|before|] == before;
  }

  /** Garbage collection never leaves a row behind; deleting always does, until the slot is written again. */
  lemma {:induction false} StaleIff(w: Naming, events: seq<Event>, s: Slot)
    requires AllNamed(w, events)
    ensures Stale(Run(events), s) <==> exists i :: DroppedSince(w, events, i, s)
  {
    if events != [] {
      var n := |events| - 1;
      var before, e := events[..n], events[n];
      assert before + [e] == events;
      StaleIff(w, before, s);
      RunIsSound(w, before);
      StaleStep(w, Run(before), e, s);
      DroppedNow(w, before, e, s);
      if i: nat :| DroppedSince(w, before, i, s) && !Renews(e, s) { StillDropped(w, before, e, i, s); }
      if i: nat :| DroppedSince(w, events, i, s) && i < n { WasDropped(w, before, e, i, s); }
    }
  }

  ghost predicate Overtaken(t: Tables, s: Slot) {
    exists m: Round :: s.round < m < MAX_ROUND && Slot(s.origin, m) in t.byRound
  }

  /** The round `last_round_number` reports is the newest held exactly when every stale row of the origin is
      below a certificate still held. */
  lemma LastRoundIsHeldIff(w: Naming, t: Tables, o: Origin, n: Option<Round>)
    requires Sound(w, t) && IsNewest(t.byOrigin, o, n)
    ensures IsNewest(t.byRound, o, n)
            <==> forall s {:trigger Stale(t, s)} ::
                   Stale(t, s) && s.origin == o && s.round < MAX_ROUND ==> Overtaken(t, s)
  {
    forall s: Slot ensures s in t.byRound ==> s in t.byOrigin { assert RowSound(w, t, s); }
    if IsNewest(t.byRound, o, n) {
      forall s | Stale(t, s) && s.origin == o && s.round < MAX_ROUND ensures Overtaken(t, s) {
        assert s == Slot(o, s.round) && n.Some?;
        assert s.round < n.value;
      }
    } else {
      assert n.Some? && Stale(t, Slot(o, n.value));
      forall m: Round | m < MAX_ROUND && Slot(o, m) in t.byRound ensures m <= n.value {
        assert Slot(o, m) in t.byOrigin;
      }
    }
  }

  /** What the newest row by origin names is held exactly when the row is not stale. */
  lemma NamedIsHeldIff(w: Naming, t: Tables, s: Slot)
    requires Sound(w, t) && s in t.byOrigin
    ensures t.byOrigin[s] in t.certs <==> !Stale(t, s)
    ensures !Stale(t, s) ==> t.certs[t.byOrigin[s]].slot == s
  {
    assert RowSound(w, t, s) && CertSound(w, t, t.byOrigin[s]);
  }

  /** Two rounds are written and the second is deleted: its round is still reported as the origin's last, its
      certificate is not found, and the one of the first round, which is held, is not returned. */
  lemma DeletedRoundIsStillLast(o: Origin)
    ensures var first, second := Certificate(Slot(o, 1), [1], 0), Certificate(Slot(o, 2), [2], 0);
            var t := Run([Put(first), Put(second), Drop([2])]);
            && IsNewest(t.byOrigin, o, Some(2)) && t.byOrigin[Slot(o, 2)] !in t.certs
            && IsNewest(t.byRound, o, Some(1)) && [1] in t.certs && t.certs[[1]] == first
  {
    var first, second := Certificate(Slot(o, 1), [1], 0), Certificate(Slot(o, 2), [2], 0);
    var events := [Put(first), Put(second), Drop([2])];
    assert events[..2] == [Put(first), Put(second)] && events[..2][..1] == [Put(first)];
    assert [Put(first)][..0] == [];
    assert Run([Put(first)]) == Save(EMPTY, first);
    assert Run(events[..2]) == Save(Save(EMPTY, first), second);
  }
}
