/** The worker's batch fetcher: retrying until every requested batch is found, locally or at a peer.
    Source: crates/consensus/worker/src/batch_fetcher.rs */
module BatchFetchers {
  import opened Basics
  import opened Execution

  type Batches = map<Hash, Batch>

  /** What one retry meets: whether the local store can be read, the peers' reply if it comes in time,
      and the clock. */
  datatype Attempt = Attempt(localReadable: bool, reply: Option<seq<Batch>>, now: nat)

  /** Every batch is stored under its own digest. */
  ghost predicate KeyedByDigest(batches: Batches) {
    forall d :: d in batches ==> batches[d].digest == d
  }

  /** How far a fetch has come: requested digests are either found or remaining, never both, and what is
      found is also in the store. */
  ghost predicate Partition(digests: set<Hash>, remaining: set<Hash>, fetched: Batches, store: Batches) {
    && remaining + fetched.Keys == digests && remaining !! fetched.Keys
    && forall d :: d in fetched ==> d in store && store[d] == fetched[d]
  }

  lemma FoundLocally(digests: set<Hash>, remaining: set<Hash>, fetched: Batches, store: Batches, found: Batches)
    requires Partition(digests, remaining, fetched, store)
    requires found.Keys == remaining * store.Keys && forall d :: d in found ==> found[d] == store[d]
    ensures Partition(digests, remaining - found.Keys, fetched + found, store)
  {}

  lemma FoundRemotely(digests: set<Hash>, remaining: set<Hash>, fetched: Batches, store: Batches, updated: Batches)
    requires Partition(digests, remaining, fetched, store) && updated.Keys <= remaining
    ensures Partition(digests, remaining - updated.Keys, fetched + updated, store + updated)
  {}

  /** What came from peers was requested, is under its own digest, is in the store and does not remain. */
  ghost predicate Remote(digests: set<Hash>, before: Batches, store: Batches, remote: Batches, remaining: set<Hash>) {
    store == before + remote && remote.Keys <= digests && KeyedByDigest(remote) && remote.Keys !! remaining
  }

  lemma RemoteMore(digests: set<Hash>, before: Batches, store: Batches, remote: Batches, remaining: set<Hash>,
                   updated: Batches, remaining': set<Hash>)
    requires Remote(digests, before, store, remote, remaining) && remaining <= digests && KeyedByDigest(updated)
    requires updated.Keys <= remaining - remaining' && remaining' <= remaining
    ensures Remote(digests, before, store + updated, remote + updated, remaining')
  {
    assert (before + remote) + updated == before + (remote + updated);
  }

  lemma PutBoth(store: Batches, updated: Batches, d: Hash, b: Batch)
    ensures (store + updated)[d := b] == store + updated[d := b]
  {}

  /** Of the incoming batches not still to do, the wanted ones with their time of receipt. */
  ghost predicate Stamped(incoming: Batches, remaining: set<Hash>, todo: set<Hash>, now: nat, updated: Batches) {
    && updated.Keys == remaining * (incoming.Keys - todo)
    && forall d :: d in updated ==> updated[d] == incoming[d].(receivedAt := now)
  }

  lemma StampedMore(incoming: Batches, remaining: set<Hash>, todo: set<Hash>, now: nat, updated: Batches, d: Hash)
    requires todo <= incoming.Keys && d in todo && Stamped(incoming, remaining, todo, now, updated)
    ensures d !in remaining ==> Stamped(incoming, remaining, todo - {d}, now, updated)
    ensures d in remaining ==>
              Stamped(incoming, remaining, todo - {d}, now, updated[d := incoming[d].(receivedAt := now)])
  {
    assert incoming.Keys - (todo - {d}) == (incoming.Keys - todo) + {d};
  }

  ghost predicate Sends(attempt: Attempt, d: Hash) {
    attempt.reply.Some? && exists i :: 0 <= i < |attempt.reply.value| && attempt.reply.value[i].digest == d
  }

  /** One of the attempts can find the batch: the store holds it and can be read, or the reply brings it. */
  ghost predicate Available(store: Batches, attempts: seq<Attempt>, d: Hash) {
    exists i :: 0 <= i < |attempts| && FindsAt(store, attempts[i], d)
  }

  ghost predicate FindsAt(store: Batches, attempt: Attempt, d: Hash) {
    (attempt.localReadable && d in store) || Sends(attempt, d)
  }

  lemma OneMoreAttempt(store: Batches, attempts: seq<Attempt>, i: nat, d: Hash)
    requires i < |attempts|
    ensures Available(store, attempts[..i + 1], d)
            <==> Available(store, attempts[..i], d) || FindsAt(store, attempts[i], d)
  {
    var now, before := attempts[..i + 1], attempts[..i];
    if Available(store, before, d) {
      var j :| 0 <= j < |before| && FindsAt(store, before[j], d);
      assert now[j] == before[j];
    }
    if FindsAt(store, attempts[i], d) { assert now[i] == attempts[i]; }
    if Available(store, now, d) {
      var j :| 0 <= j < |now| && FindsAt(store, now[j], d);
      if j < i { assert before[j] == now[j]; }
    }
  }

  lemma LaterAttempts(store: Batches, attempts: seq<Attempt>, i: nat, d: Hash)
    requires i <= |attempts| && Available(store, attempts[..i], d)
    ensures Available(store, attempts, d)
  {
    var j :| 0 <= j < |attempts[..i]| && FindsAt(store, attempts[..i][j], d);
    assert attempts[j] == attempts[..i][j];
  }

  /** What is left after some attempts is what none of them could find. */
  ghost predicate NotFound(store: Batches, attempts: seq<Attempt>, digests: set<Hash>, remaining: set<Hash>) {
    forall d {:trigger Available(store, attempts, d)} ::
      d in remaining <==> d in digests && !Available(store, attempts, d)
  }

  /** One attempt leaves what it cannot find. */
  ghost predicate LeftBy(store: Batches, attempt: Attempt, remaining: set<Hash>, remaining': set<Hash>) {
    forall d {:trigger FindsAt(store, attempt, d)} :: d in remaining' <==> d in remaining && !FindsAt(store, attempt, d)
  }

  lemma NotFoundMore(store: Batches, remote: Batches, attempts: seq<Attempt>, i: nat, digests: set<Hash>,
                     remaining: set<Hash>, remaining': set<Hash>)
    requires i < |attempts| && NotFound(store, attempts[..i], digests, remaining) && remote.Keys !! remaining
    requires LeftBy(store + remote, attempts[i], remaining, remaining')
    ensures NotFound(store, attempts[..i + 1], digests, remaining')
  {
    forall d ensures d in remaining' <==> d in digests && !Available(store, attempts[..i + 1], d) {
      OneMoreAttempt(store, attempts, i, d);
      var found, before := FindsAt(store + remote, attempts[i], d), Available(store, attempts[..i], d);
      assert d in remaining' <==> d in remaining && !found;
      assert d in remaining <==> d in digests && !before;
    }
  }

  /** When all attempts were made, or nothing is left, the outcome is that of all of them. */
  lemma NoneLeft(store: Batches, attempts: seq<Attempt>, i: nat, digests: set<Hash>, remaining: set<Hash>)
    requires i <= |attempts| && NotFound(store, attempts[..i], digests, remaining)
    requires i == |attempts| || remaining == {}
    ensures NotFound(store, attempts, digests, remaining)
  {
    if i == |attempts| {
      assert attempts[..i] == attempts;
    } else {
      forall d | d in digests ensures Available(store, attempts, d) {
        var before := Available(store, attempts[..i], d);
        assert before <==> d !in remaining;
        LaterAttempts(store, attempts, i, d);
      }
    }
  }

  class BatchFetcher {
    var store: Batches

    constructor (store: Batches)
      ensures this.store == store
    {
      this.store := store;
    }

    /** `fetch`, over as many retries as `attempts` gives; it is done when nothing remains. `remote` are the
        batches taken from peers, all of them requested, under their own digests, and persisted. */
    method Fetch(digests: set<Hash>, attempts: seq<Attempt>)
      returns (fetched: Batches, remaining: set<Hash>, ghost remote: Batches)
      modifies this
      ensures Partition(digests, remaining, fetched, store)
      ensures remaining == {} ==> fetched.Keys == digests
      ensures NotFound(old(store), attempts, digests, remaining)
      ensures store == old(store) + remote && remote.Keys <= digests && KeyedByDigest(remote)
      ensures KeyedByDigest(old(store)) ==> KeyedByDigest(fetched)
    {
      ghost var i;
      fetched, remaining, remote, i := Retry(digests, attempts);
      NoneLeft(old(store), attempts, i, digests, remaining);
    }

    /** The loop over the retries, `i` of which are made. */
    method Retry(digests: set<Hash>, attempts: seq<Attempt>)
      returns (fetched: Batches, remaining: set<Hash>, ghost remote: Batches, ghost i: nat)
      modifies this
      ensures Partition(digests, remaining, fetched, store)
      ensures Remote(digests, old(store), store, remote, remaining)
      ensures i <= |attempts| && (i == |attempts| || remaining == {})
      ensures NotFound(old(store), attempts[..i], digests, remaining)
    {
      fetched, remaining, remote := map[], digests, map[];
      var n := 0;
      while n < |attempts| && remaining != {}
        invariant 0 <= n <= |attempts|
        invariant Partition(digests, remaining, fetched, store)
        invariant Remote(digests, old(store), store, remote, remaining)
        invariant NotFound(old(store), attempts[..n], digests, remaining)
      {
        ghost var before, stored := remaining, store;
        ghost var updated;
        fetched, remaining, updated := TryOnce(attempts[n], digests, fetched, remaining);
        NotFoundMore(old(store), remote, attempts, n, digests, before, remaining);
        RemoteMore(digests, old(store), stored, remote, before, updated, remaining);
        remote := remote + updated;
        n := n + 1;
      }
      i := n;
    }

    /** One retry: the store is read for what remains, then the peers are asked for what still does. */
    method TryOnce(attempt: Attempt, ghost digests: set<Hash>, fetched: Batches, remaining: set<Hash>)
      returns (fetched': Batches, remaining': set<Hash>, ghost updated: Batches)
      requires Partition(digests, remaining, fetched, store)
      modifies this
      ensures Partition(digests, remaining', fetched', store)
      ensures store == old(store) + updated && KeyedByDigest(updated) && updated.Keys <= remaining - remaining'
      ensures LeftBy(old(store), attempt, remaining, remaining') && remaining' <= remaining
    {
      fetched', remaining', updated := fetched, remaining, map[];
      if attempt.localReadable {
        var found := FetchLocal(remaining);
        FoundLocally(digests, remaining, fetched, store, found);
        fetched', remaining' := fetched + found, remaining - found.Keys;
      }
      if remaining' == {} { return; }
      if attempt.reply.Some? {
        var incoming := SafeRequestBatches(attempt.reply.value);
        var wanted := Persist(incoming, remaining', attempt.now);
        FoundRemotely(digests, remaining', fetched', old(store), wanted);
        fetched', remaining', updated := fetched' + wanted, remaining' - wanted.Keys, wanted;
      }
    }

    /** `fetch_local`: what the store holds of the digests. */
    method FetchLocal(digests: set<Hash>) returns (found: Batches)
      ensures found.Keys == digests * store.Keys
      ensures forall d :: d in found ==> found[d] == store[d]
    {
      found := map d | d in digests && d in store :: store[d];
    }

    /** `safe_request_batches`: the reply, each batch under the digest computed from it. */
    method SafeRequestBatches(reply: seq<Batch>) returns (fetched: Batches)
      ensures KeyedByDigest(fetched)
      ensures forall d :: d in fetched <==> exists i :: 0 <= i < |reply| && reply[i].digest == d
      ensures forall d :: d in fetched ==> fetched[d] in reply
    {
      fetched := map[];
      var i := 0;
      while i < |reply|
        invariant 0 <= i <= |reply| && KeyedByDigest(fetched)
        invariant forall d :: d in fetched <==> exists j :: 0 <= j < i && reply[j].digest == d
        invariant forall d :: d in fetched ==> fetched[d] in reply
      {
        fetched := fetched[reply[i].digest := reply[i]];
        i := i + 1;
      }
    }

    /** The loop over a reply: those still wanted are stamped, kept and persisted, the others ignored. */
    method Persist(incoming: Batches, remaining: set<Hash>, now: nat) returns (updated: Batches)
      requires KeyedByDigest(incoming)
      modifies this
      ensures updated.Keys == remaining * incoming.Keys
      ensures forall d :: d in updated ==> updated[d] == incoming[d].(receivedAt := now)
      ensures store == old(store) + updated
    {
      updated := map[];
      var todo := incoming.Keys;
      while todo != {}
        invariant todo <= incoming.Keys && Stamped(incoming, remaining, todo, now, updated)
        invariant store == old(store) + updated
        decreases |todo|
      {
        var d :| d in todo;
        StampedMore(incoming, remaining, todo, now, updated, d);
        todo := todo - {d};
        if d in remaining {
          var batch := incoming[d].(receivedAt := now);
          PutBoth(old(store), updated, d, batch);
          updated := updated[d := batch];
          store := store[d := batch];
        }
      }
    }
  }
}
