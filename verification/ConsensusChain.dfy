/** The consensus chain and how a node that is not voting follows it: catching up from peers, the
    headers left unexecuted at a restart, and the table of saved headers.
    Source: crates/state-sync/src/lib.rs, crates/types/src/primary/block.rs and
    crates/consensus/executor/src/subscriber.rs */
module ConsensusChain {
  import opened Basics

  /** A digest is the term it was computed from, so distinct inputs have distinct digests. */
  datatype Digest = Zero | Hash(parent: Digest, subDag: nat, number: nat)

  /** `content` stands for what a sub-dag's digest covers: certificates, leader and timestamp. */
  datatype SubDag = SubDag(content: nat, reputation: nat)

  datatype ConsensusHeader = ConsensusHeader(parent: Digest, subDag: SubDag, number: nat, extra: nat)

  function DigestFromParts(parent: Digest, subDag: SubDag, number: nat): Digest { Hash(parent, subDag.content, number) }

  function DigestOf(h: ConsensusHeader): Digest { DigestFromParts(h.parent, h.subDag, h.number) }

  const GENESIS := ConsensusHeader(Zero, SubDag(0, 0), 0, 0)

  function Last(from: ConsensusHeader, hs: seq<ConsensusHeader>): ConsensusHeader {
    if hs == [] then from else hs[|hs| - 1]
  }

  function Prev(from: ConsensusHeader, hs: seq<ConsensusHeader>, i: nat): ConsensusHeader
    requires i <= |hs|
  {
    if i == 0 then from else hs[i - 1]
  }

  predicate Follows(prev: ConsensusHeader, h: ConsensusHeader) {
    h.parent == DigestOf(prev) && h.number == prev.number + 1
  }

  predicate LinkedAt(from: ConsensusHeader, hs: seq<ConsensusHeader>, i: nat)
    requires i < |hs|
  {
    Follows(Prev(from, hs, i), hs[i])
  }

  /** `hs` extends `from` as a hash chain: consecutive numbers, each header naming its predecessor. */
  ghost predicate Linked(from: ConsensusHeader, hs: seq<ConsensusHeader>) {
    forall i {:trigger LinkedAt(from, hs, i)} :: 0 <= i < |hs| ==> LinkedAt(from, hs, i)
  }

  lemma LinkedSnoc(from: ConsensusHeader, hs: seq<ConsensusHeader>, h: ConsensusHeader)
    requires Linked(from, hs) && Follows(Last(from, hs), h)
    ensures Linked(from, hs + [h])
  {
    forall i | 0 <= i < |hs + [h]| ensures LinkedAt(from, hs + [h], i) {
      if i < |hs| { assert LinkedAt(from, hs, i); }
    }
  }

  lemma {:induction false} LinkedNumber(from: ConsensusHeader, hs: seq<ConsensusHeader>, i: nat)
    requires Linked(from, hs) && i < |hs|
    ensures hs[i].number == from.number + 1 + i
  {
    assert LinkedAt(from, hs, i);
    if i > 0 { LinkedNumber(from, hs, i - 1); }
  }

  lemma LinkedPrefix(from: ConsensusHeader, hs: seq<ConsensusHeader>, n: nat)
    requires Linked(from, hs) && n <= |hs|
    ensures Linked(from, hs[..n])
  {
    forall i | 0 <= i < n ensures LinkedAt(from, hs[..n], i) {
      assert LinkedAt(from, hs, i);
    }
  }

  lemma LinkedJoin(from: ConsensusHeader, xs: seq<ConsensusHeader>, ys: seq<ConsensusHeader>, mid: ConsensusHeader)
    requires Linked(from, xs) && Linked(mid, ys) && DigestOf(mid) == DigestOf(Last(from, xs))
    ensures Linked(from, xs + ys) && DigestOf(Last(from, xs + ys)) == DigestOf(Last(mid, ys))
  {
    forall i | 0 <= i < |xs + ys| ensures LinkedAt(from, xs + ys, i) {
      if i < |xs| {
        assert LinkedAt(from, xs, i);
      } else {
        assert LinkedAt(mid, ys, i - |xs|);
      }
    }
  }

  // ---------- catching up ----------

  datatype Reply = RequestFailed | Replied(header: ConsensusHeader, certificatesVerify: bool)

  /** What catching up depends on: the rows read from the table, the peers' answers by number and
      attempt, and whether execution caught up and the channel took the header. */
  datatype Env = Env(rows: nat -> Option<ConsensusHeader>, reply: (nat, nat) -> Reply, executed: nat -> bool,
                     delivered: nat -> bool)

  datatype CatchUpError = NoReply | NoValidHeader | DigestMismatch | Forked | ChannelClosed

  /** The attempts at one number: the first answer whose certificates verify, at most four of them. */
  method RequestConsensus(env: Env, number: nat) returns (r: Result<ConsensusHeader, CatchUpError>)
    ensures r.Ok? ==> exists k :: 0 <= k < 4 && Accepts(env, number, k) && r.value == env.reply(number, k).header
    ensures r.Err? ==> forall k :: 0 <= k < 4 ==> !Accepts(env, number, k)
    ensures r.Err? ==> r.error in {NoReply, NoValidHeader}
    ensures r == Err(NoValidHeader) <==> forall k :: 0 <= k < 4 ==> Refused(env, number, k)
  {
    var tries := 0;
    while true
      invariant 0 <= tries <= 4
      invariant forall k :: 0 <= k < tries ==> Refused(env, number, k)
      decreases 4 - tries
    {
      if tries > 3 {
        forall k | 0 <= k < 4 ensures !Accepts(env, number, k) { assert Refused(env, number, k); }
        return Err(NoValidHeader);
      }
      var reply := env.reply(number, tries);
      if reply.RequestFailed? {
        assert !Refused(env, number, tries);
        forall k | 0 <= k < 4 ensures !Accepts(env, number, k) {
          assert !Refused(env, number, tries) && (k < tries ==> Refused(env, number, k));
        }
        return Err(NoReply);
      }
      if reply.certificatesVerify {
        assert Accepts(env, number, tries) && !Refused(env, number, tries);
        return Ok(reply.header);
      }
      assert Refused(env, number, tries);
      tries := tries + 1;
    }
  }

  ghost predicate Refused(env: Env, number: nat, k: nat) {
    env.reply(number, k).Replied? && !env.reply(number, k).certificatesVerify
  }

  ghost predicate Accepts(env: Env, number: nat, k: nat) {
    && (forall j :: 0 <= j < k ==> Refused(env, number, j))
    && env.reply(number, k).Replied? && env.reply(number, k).certificatesVerify
  }

  /** Where the header for `number` is taken from. */
  ghost predicate Offered(env: Env, max: ConsensusHeader, number: nat, h: ConsensusHeader) {
    if number == max.number then h == max
    else if env.rows(number).Some? then h == env.rows(number).value
    else exists k :: 0 <= k < 4 && Accepts(env, number, k) && h == env.reply(number, k).header
  }

  /** The whole of what one turn of the loop asks before a header is sent on. */
  ghost predicate Passes(env: Env, max: ConsensusHeader, prev: ConsensusHeader, h: ConsensusHeader) {
    var number := prev.number + 1;
    Offered(env, max, number, h) && Follows(prev, h) && env.executed(number) && env.delivered(number)
  }

  /** Why the header for the number after `prev` was not sent on: none was offered, or the first test it fails. */
  ghost predicate FailsWith(env: Env, max: ConsensusHeader, prev: ConsensusHeader, error: CatchUpError) {
    var number := prev.number + 1;
    match error
    case NoReply => IsMissing(env, max, number) && !RefusedAll(env, number)
    case NoValidHeader => IsMissing(env, max, number) && RefusedAll(env, number)
    case DigestMismatch => exists h :: Offered(env, max, number, h) && !Follows(prev, h)
    case Forked => exists h :: Offered(env, max, number, h) && Follows(prev, h) && !env.executed(number)
    case ChannelClosed =>
      exists h :: Offered(env, max, number, h) && Follows(prev, h) && env.executed(number) && !env.delivered(number)
  }

  ghost predicate RefusedAll(env: Env, number: nat) { forall k :: 0 <= k < 4 ==> Refused(env, number, k) }

  ghost predicate IsMissing(env: Env, max: ConsensusHeader, number: nat) { !exists h :: Offered(env, max, number, h) }

  /** One number of the loop: the header offered for it, or why there is none. */
  method FetchHeader(env: Env, max: ConsensusHeader, number: nat) returns (r: Result<ConsensusHeader, CatchUpError>)
    ensures r.Ok? ==> Offered(env, max, number, r.value) && forall h :: Offered(env, max, number, h) ==> h == r.value
    ensures r.Err? ==> IsMissing(env, max, number)
    ensures r.Err? ==> r.error == if RefusedAll(env, number) then NoValidHeader else NoReply
  {
    if number == max.number { return Ok(max); }
    var row := env.rows(number);
    if row.Some? { return Ok(row.value); }
    r := RequestConsensus(env, number);
    OneAccepted(env, number);
  }

  /** `catch_up_consensus_from_to`. Whatever peers and table answer, what it sends on is a hash chain from
      `from`; it succeeds exactly when that chain reaches the target header, and stops at the first number
      no offered header passes. */
  method CatchUpFromTo(env: Env, from: ConsensusHeader, max: ConsensusHeader)
    returns (r: Result<ConsensusHeader, CatchUpError>, sent: seq<ConsensusHeader>)
    ensures Linked(from, sent)
    ensures forall i {:trigger PassesAt(env, max, from, sent, i)} ::
              0 <= i < |sent| ==> PassesAt(env, max, from, sent, i)
    ensures from.number >= max.number ==> r == Ok(from) && sent == []
    ensures from.number < max.number ==> (r.Ok? <==> sent != [] && sent[|sent| - 1] == max)
    ensures r.Ok? ==> r.value == Last(from, sent)
    ensures r.Err? ==> |sent| < max.number - from.number && !exists h :: Passes(env, max, Last(from, sent), h)
    ensures r.Err? ==> FailsWith(env, max, Last(from, sent), r.error)
  {
    sent := [];
    if from.number >= max.number { return Ok(from), []; }
    var lastParent, result := DigestOf(from), from;
    var number := from.number + 1;
    while number <= max.number
      invariant number == from.number + 1 + |sent| <= max.number + 1
      invariant result == Last(from, sent) && lastParent == DigestOf(result) && result.number == number - 1
      invariant Linked(from, sent)
      invariant forall i {:trigger PassesAt(env, max, from, sent, i)} ::
                  0 <= i < |sent| ==> PassesAt(env, max, from, sent, i)
      invariant number > max.number ==> result == max
    {
      var fetched := FetchHeader(env, max, number);
      if fetched.Err? { return Err(fetched.error), sent; }
      var header := fetched.value;
      var parent := lastParent;
      lastParent := DigestFromParts(parent, header.subDag, number);
      if lastParent != DigestOf(header) { return Err(DigestMismatch), sent; }
      if !env.executed(number) { return Err(Forked), sent; }
      if !env.delivered(number) { return Err(ChannelClosed), sent; }
      LinkedSnoc(from, sent, header);
      assert Passes(env, max, result, header);
      PassesSnoc(env, max, from, sent, header);
      sent := sent + [header];
      result := header;
      number := number + 1;
    }
    r := Ok(result);
  }

  /** Header `i` was offered for its number, follows the one before and met every other test. */
  ghost predicate PassesAt(env: Env, max: ConsensusHeader, from: ConsensusHeader, sent: seq<ConsensusHeader>, i: nat) {
    i < |sent| && Passes(env, max, Prev(from, sent, i), sent[i])
  }

  lemma PassesSnoc(env: Env, max: ConsensusHeader, from: ConsensusHeader, sent: seq<ConsensusHeader>,
                   h: ConsensusHeader)
    requires Passes(env, max, Last(from, sent), h)
    ensures forall i {:trigger PassesAt(env, max, from, sent + [h], i)} ::
              0 <= i < |sent| && PassesAt(env, max, from, sent, i) ==> PassesAt(env, max, from, sent + [h], i)
    ensures PassesAt(env, max, from, sent + [h], |sent|)
  {
    forall i | 0 <= i < |sent| && PassesAt(env, max, from, sent, i) ensures PassesAt(env, max, from, sent + [h], i) {
      assert Prev(from, sent + [h], i) == Prev(from, sent, i);
    }
  }

  lemma OneAccepted(env: Env, number: nat)
    ensures forall j, k :: Accepts(env, number, j) && Accepts(env, number, k) ==> j == k
  {
    forall j, k | Accepts(env, number, j) && Accepts(env, number, k) ensures j == k {
      assert j < k ==> Refused(env, number, j);
      assert k < j ==> Refused(env, number, k);
    }
  }

  /** A follower cannot be steered: two chains that end in the same header agree, number by number, on
      everything both hold, down to where the later one started (`k` counts back from the end). */
  lemma {:induction false} TargetFixesTheChain(from: ConsensusHeader, xs: seq<ConsensusHeader>,
                                               from': ConsensusHeader, ys: seq<ConsensusHeader>, k: nat)
    requires Linked(from, xs) && Linked(from', ys) && k <= |xs| && k <= |ys|
    requires DigestOf(Last(from, xs)) == DigestOf(Last(from', ys))
    ensures DigestOf(Prev(from, xs, |xs| - k)) == DigestOf(Prev(from', ys, |ys| - k))
  {
    if k > 0 {
      TargetFixesTheChain(from, xs, from', ys, k - 1);
      assert LinkedAt(from, xs, |xs| - k) && LinkedAt(from', ys, |ys| - k);
    }
  }

  // ---------- the table of saved headers ----------

  type Table = map<nat, ConsensusHeader>

  /** The row a number names, with the default header standing for number zero. */
  function Row(t: Table, n: nat): ConsensusHeader
    requires n == 0 || n in t
  {
    if n == 0 then GENESIS else t[n]
  }

  predicate RowFollows(t: Table, n: nat) {
    n > 0 && n in t && (n == 1 || n - 1 in t) && Follows(Row(t, n - 1), t[n])
  }

  /** The rows are 1, 2, … without a gap, each the successor of the one before it. */
  ghost predicate IsChain(t: Table) {
    forall n {:trigger RowFollows(t, n)} :: n in t ==> RowFollows(t, n)
  }

  /** The last row's number, zero for an empty table. */
  ghost predicate IsTop(t: Table, top: nat) {
    (top == 0 || top in t) && forall n :: n in t ==> n <= top
  }

  lemma {:induction false} ChainReaches(t: Table, n: nat, m: nat)
    requires IsChain(t) && n in t && 0 < m <= n
    ensures m in t
  {
    assert RowFollows(t, n);
    if m < n { ChainReaches(t, n - 1, m); }
  }

  lemma {:induction false} RowNumber(t: Table, n: nat)
    requires IsChain(t) && (n == 0 || n in t)
    ensures Row(t, n).number == n
  {
    if n > 0 {
      assert RowFollows(t, n);
      RowNumber(t, n - 1);
    }
  }

  /** Two saved chains that agree at one number agree below it. */
  lemma {:induction false} TablesAgreeBelow(t: Table, u: Table, n: nat, m: nat)
    requires IsChain(t) && IsChain(u) && n in t && n in u && DigestOf(t[n]) == DigestOf(u[n]) && 0 < m <= n
    ensures m in t && m in u && DigestOf(t[m]) == DigestOf(u[m])
  {
    assert RowFollows(t, n) && RowFollows(u, n);
    if m < n { TablesAgreeBelow(t, u, n - 1, m); }
  }

  /** `stream_missing_consensus` and `get_missing_consensus`: the saved headers above the last executed one. */
  method StreamMissing(t: Table, lastExecuted: nat, top: nat) returns (sent: seq<ConsensusHeader>)
    requires IsTop(t, top)
    ensures sent == Unexecuted(t, lastExecuted, top)
    ensures top <= lastExecuted ==> sent == []
    ensures IsChain(t) && lastExecuted <= top ==>
              |sent| == top - lastExecuted
              && (forall n :: lastExecuted < n <= top ==> n in t && sent[n - lastExecuted - 1] == t[n])
  {
    sent := [];
    if top > lastExecuted {
      var n := lastExecuted + 1;
      while n <= top
        invariant lastExecuted < n <= top + 1 && sent == Unexecuted(t, lastExecuted, n - 1)
        invariant IsChain(t) ==> |sent| == n - lastExecuted - 1
        invariant IsChain(t) ==> forall m :: lastExecuted < m < n ==> m in t && sent[m - lastExecuted - 1] == t[m]
      {
        if IsChain(t) { ChainReaches(t, top, n); }
        if n in t { sent := sent + [t[n]]; }
        n := n + 1;
      }
    }
  }

  // ---------- following ----------

  /** A following node. `handled` are the headers handed to execution since the last start, which was
      at number `base`; `queue` is the header channel. Only `durable` outlives a crash: the table as it was
      when the background thread had last caught up with the saves. */
  datatype Follower = Follower(table: Table, durable: Table, base: nat, handled: seq<ConsensusHeader>,
                               queue: seq<ConsensusHeader>, lastSent: ConsensusHeader)

  datatype Event =
    | Sent(headers: seq<ConsensusHeader>)  // part of what a catch-up from the last header sent
    | Handle                               // the subscriber takes one header, saves and outputs it
    | Flush                                // what was saved becomes durable
    | Restart(executed: Digest, last: nat, top: nat)  // the process starts over, perhaps after a crash

  function Saved(h: ConsensusHeader): ConsensusHeader { h.(extra := 0) }

  function Rows(t: Table, from: nat, to: nat): seq<ConsensusHeader>
    requires from <= to && forall n :: from < n <= to ==> n in t
  {
    seq(to - from, i requires 0 <= i < to - from => t[from + 1 + i])
  }

  /** What `StreamMissing` sends: the rows there are between the two numbers. */
  function Unexecuted(t: Table, last: nat, top: nat): seq<ConsensusHeader> {
    if top <= last then []
    else Unexecuted(t, last, top - 1) + if top in t then [t[top]] else []
  }

  lemma {:induction false} UnexecutedIsRows(t: Table, last: nat, top: nat)
    requires last <= top && forall n :: last < n <= top ==> n in t
    ensures Unexecuted(t, last, top) == Rows(t, last, top)
  {
    if last < top { UnexecutedIsRows(t, last, top - 1); }
  }

  /** `last_executed_consensus_block`: the number of the saved header with the digest, zero when there is none. */
  ghost predicate IsLastExecuted(t: Table, executed: Digest, last: nat) {
    if last > 0 then last in t && DigestOf(t[last]) == executed
    else forall n :: n in t ==> DigestOf(t[n]) != executed
  }

  ghost predicate Enabled(s: Follower, e: Event) {
    match e
    case Sent(hs) => Linked(s.lastSent, hs)
    case Handle => s.queue != []
    case Flush => true
    case Restart(executed, last, top) => IsLastExecuted(s.durable, executed, last) && IsTop(s.durable, top)
  }

  ghost function Step(s: Follower, e: Event): Follower
    requires Enabled(s, e)
  {
    match e
    case Sent(hs) => s.(queue := s.queue + hs, lastSent := Last(s.lastSent, hs))
    case Handle =>
      var h := s.queue[0];
      s.(table := s.table[h.number := Saved(h)], handled := s.handled + [h], queue := s.queue[1..])
    case Flush => s.(durable := s.table)
    case Restart(_, last, top) =>
      Follower(s.durable, s.durable, last, [], Unexecuted(s.durable, last, top), Row(s.durable, top))
  }

  /** The stream of a session is one chain from the row at `base`, its first `done` headers are saved, and
      every saved row above `base` is the streamed header of that number. */
  ghost predicate StreamInv(t: Table, base: nat, done: nat, stream: seq<ConsensusHeader>, lastSent: ConsensusHeader)
    requires base == 0 || base in t
  {
    && Linked(Row(t, base), stream)
    && DigestOf(lastSent) == DigestOf(Last(Row(t, base), stream))
    && (forall n :: base < n <= base + done ==> n in t)
    && (forall n :: n in t && n > base ==> n <= base + |stream| && DigestOf(t[n]) == DigestOf(stream[n - base - 1]))
  }

  /** Every durable row is one of the table, up to a later save of the same digest. */
  ghost predicate Durable(s: Follower) {
    && IsChain(s.durable)
    && forall n :: n in s.durable ==> n in s.table && DigestOf(s.durable[n]) == DigestOf(s.table[n])
  }

  ghost predicate Inv(s: Follower) {
    && IsChain(s.table) && Durable(s)
    && (s.base == 0 || s.base in s.table)
    && StreamInv(s.table, s.base, |s.handled|, s.handled + s.queue, s.lastSent)
  }

  ghost predicate Reaches(s: Follower, events: seq<Event>, t: Follower)
    decreases |events|
  {
    if events == [] then s == t
    else Enabled(s, events[0]) && Reaches(Step(s, events[0]), events[1..], t)
  }

  function Fresh(): Follower { Follower(map[], map[], 0, [], [], GENESIS) }

  lemma SentKeepsInv(s: Follower, hs: seq<ConsensusHeader>)
    requires Inv(s) && Linked(s.lastSent, hs)
    ensures Inv(Step(s, Sent(hs)))
  {
    var stream := s.handled + s.queue;
    LinkedJoin(Row(s.table, s.base), stream, hs, s.lastSent);
    assert s.handled + (s.queue + hs) == stream + hs;
  }

  /** The next header to save names the row below it, and a row it replaces has its digest. */
  lemma NextToSave(s: Follower)
    requires Inv(s) && s.queue != []
    ensures var h := s.queue[0];
            && h.number == s.base + |s.handled| + 1
            && (h.number == 1 || h.number - 1 in s.table) && Follows(Row(s.table, h.number - 1), h)
            && (h.number in s.table ==> DigestOf(s.table[h.number]) == DigestOf(h))
  {
    var stream, start, k := s.handled + s.queue, Row(s.table, s.base), |s.handled|;
    assert stream[k] == s.queue[0];
    RowNumber(s.table, s.base);
    LinkedNumber(start, stream, k);
    assert LinkedAt(start, stream, k);
    RowNumber(s.table, s.base + k);
  }

  /** Saving it either renews a row by one of equal digest or extends the chain by one. */
  lemma SavingKeepsChain(t: Table, h: ConsensusHeader)
    requires IsChain(t) && h.number > 0
    requires (h.number == 1 || h.number - 1 in t) && Follows(Row(t, h.number - 1), h)
    requires h.number in t ==> DigestOf(t[h.number]) == DigestOf(h)
    ensures IsChain(t[h.number := Saved(h)])
  {
    var t' := t[h.number := Saved(h)];
    forall n | n in t' ensures RowFollows(t', n) {
      if n != h.number { assert RowFollows(t, n); }
    }
  }

  lemma HandleKeepsDurable(s: Follower)
    requires Inv(s) && s.queue != []
    ensures Durable(Step(s, Handle))
  {
    NextToSave(s);
  }

  lemma HandleKeepsStream(s: Follower)
    requires Inv(s) && s.queue != []
    ensures var s' := Step(s, Handle);
            && (s'.base == 0 || s'.base in s'.table)
            && StreamInv(s'.table, s'.base, |s'.handled|, s'.handled + s'.queue, s'.lastSent)
  {
    NextToSave(s);
    var s' := Step(s, Handle);
    assert s'.handled + s'.queue == s.handled + s.queue;
    assert Row(s'.table, s.base) == Row(s.table, s.base);
  }

  lemma HandleKeepsInv(s: Follower)
    requires Inv(s) && s.queue != []
    ensures Inv(Step(s, Handle))
  {
    NextToSave(s);
    SavingKeepsChain(s.table, s.queue[0]);
    HandleKeepsDurable(s);
    HandleKeepsStream(s);
  }

  lemma RowsAreLinked(t: Table, last: nat, top: nat)
    requires IsChain(t) && last <= top && (last == 0 || last in t) && forall n :: last < n <= top ==> n in t
    ensures Linked(Row(t, last), Rows(t, last, top)) && Last(Row(t, last), Rows(t, last, top)) == Row(t, top)
  {
    var rows := Rows(t, last, top);
    forall i | 0 <= i < |rows| ensures LinkedAt(Row(t, last), rows, i) {
      assert RowFollows(t, last + 1 + i);
    }
  }

  lemma RowsAreStreamed(t: Table, last: nat, top: nat)
    requires IsChain(t) && IsTop(t, top) && (last == 0 || last in t)
    ensures StreamInv(t, last, 0, Unexecuted(t, last, top), Row(t, top))
  {
    forall n | last < n <= top ensures n in t { ChainReaches(t, top, n); }
    UnexecutedIsRows(t, last, top);
    RowsAreLinked(t, last, top);
  }

  lemma RestartKeepsInv(s: Follower, executed: Digest, last: nat, top: nat)
    requires Inv(s) && Enabled(s, Restart(executed, last, top))
    ensures Inv(Step(s, Restart(executed, last, top)))
  {
    var sent := Unexecuted(s.durable, last, top);
    RowsAreStreamed(s.durable, last, top);
    assert [] + sent == sent;
  }

  /** A restart goes on from the last executed header exactly when its row had become durable; otherwise it
      starts again at number one. */
  lemma RestartGoesOnIffDurable(s: Follower, executed: nat, last: nat, top: nat)
    requires Inv(s) && executed in s.table && executed > 0
    requires Enabled(s, Restart(DigestOf(s.table[executed]), last, top))
    ensures Step(s, Restart(DigestOf(s.table[executed]), last, top)).base
            == if executed in s.durable then executed else 0
  {
    RowNumber(s.table, executed);
    if last > 0 { RowNumber(s.durable, last); }
  }

  /** Over every interleaving of catching up, saving, flushing, crashing and restarting, the saved headers form
      one gap-free hash chain from the default header. */
  lemma {:induction false} FollowerKeepsOneChain(s: Follower, events: seq<Event>, t: Follower)
    requires Inv(s) && Reaches(s, events, t)
    ensures Inv(t)
    decreases |events|
  {
    if events != [] {
      match events[0] {
        case Sent(hs) => SentKeepsInv(s, hs);
        case Handle => HandleKeepsInv(s);
        case Flush =>
        case Restart(executed, last, top) => RestartKeepsInv(s, executed, last, top);
      }
      FollowerKeepsOneChain(Step(s, events[0]), events[1..], t);
    }
  }

  /** Within a session each number above the last executed one is handed to execution exactly once and in
      order, each header naming the one before it, and the table holds a header of that digest. */
  lemma SessionExecutesEachOnce(events: seq<Event>, t: Follower)
    requires Reaches(Fresh(), events, t)
    ensures IsChain(t.table)
    ensures (t.base == 0 || t.base in t.table) && Linked(Row(t.table, t.base), t.handled)
    ensures forall i :: 0 <= i < |t.handled| ==>
              var n := t.base + 1 + i;
              t.handled[i].number == n && n in t.table && DigestOf(t.table[n]) == DigestOf(t.handled[i])
  {
    FollowerKeepsOneChain(Fresh(), events, t);
    var start, stream := Row(t.table, t.base), t.handled + t.queue;
    RowNumber(t.table, t.base);
    LinkedPrefix(start, stream, |t.handled|);
    assert stream[..|t.handled|] == t.handled;
    forall i | 0 <= i < |t.handled| ensures
        var n := t.base + 1 + i;
        t.handled[i].number == n && n in t.table && DigestOf(t.table[n]) == DigestOf(t.handled[i])
    {
      LinkedNumber(start, stream, i);
      assert stream[i] == t.handled[i] && t.base + 1 + i in t.table;
    }
  }
}
