/** The write-behind database: every write goes to memory and to a message log, and one background
    thread replays the log into the durable store, folding overlapping transactions into one.
    Source: crates/storage/src/layered_db.rs */
module LayeredDb {
  import opened Basics

  type TableName = string
  type Bytes = string
  type Store = map<TableName, map<Bytes, Bytes>>

  datatype Op =
    | Insert(table: TableName, key: Bytes, value: Bytes)
    | Remove(table: TableName, key: Bytes)
    | Clear(table: TableName)

  datatype Message = StartTxn | CommitTxn | Write(op: Op) | Shutdown

  /** The inner database's single open transaction: the writes it buffers and how many
      `write_txn` calls it stands for. */
  datatype Txn = NoTxn | Open(buffer: seq<Op>, count: nat)

  datatype Db = Db(mem: Store, queue: seq<Message>, durable: Store, txn: Txn, running: bool)

  // ---------- the simple map the layers must refine ----------

  /** A write to a table that was never opened changes nothing. */
  function Apply(s: Store, op: Op): Store {
    if op.table !in s then s else
      match op
      case Insert(t, k, v) => s[t := s[t][k := v]]
      case Remove(t, k) => s[t := s[t] - {k}]
      case Clear(t) => s[t := map[]]
  }

  function Replay(s: Store, ops: seq<Op>): Store {
    if ops == [] then s else Apply(Replay(s, ops[..|ops| - 1]), ops[|ops| - 1])
  }

  lemma {:induction false} ReplayConcat(s: Store, a: seq<Op>, b: seq<Op>)
    ensures Replay(s, a + b) == Replay(Replay(s, a), b)
  {
    if b == [] {
      assert a + b == a;
    } else {
      var n := |b| - 1;
      assert (a + b)[..|a + b| - 1] == a + b[..n];
      ReplayConcat(s, a, b[..n]);
    }
  }

  function Get(s: Store, t: TableName, k: Bytes): Option<Bytes> {
    if t in s && k in s[t] then Some(s[t][k]) else None
  }

  /** What a client expects of a plain map: the newest operation that touches the key decides. */
  function NewestWrite(initial: Store, ops: seq<Op>, t: TableName, k: Bytes): Option<Bytes> {
    if ops == [] then Get(initial, t, k)
    else
      var last := ops[|ops| - 1];
      if last.table == t && (last.Clear? || last.key == k)
      then if last.Insert? then Some(last.value) else None
      else NewestWrite(initial, ops[..|ops| - 1], t, k)
  }

  lemma {:induction false} ReplayIsNewestWrite(initial: Store, ops: seq<Op>, t: TableName, k: Bytes)
    requires t in initial
    ensures Replay(initial, ops).Keys == initial.Keys
    ensures Get(Replay(initial, ops), t, k) == NewestWrite(initial, ops, t, k)
  {
    if ops != [] { ReplayIsNewestWrite(initial, ops[..|ops| - 1], t, k); }
  }

  // ---------- the machine ----------

  /** A fresh handle on a durable store, every table opened. */
  function OpenDb(durable: Store): Db { Db(durable, [], durable, NoTxn, true) }

  function Send(d: Db, m: Message): Db { d.(queue := d.queue + [m]) }

  function ClientWrite(d: Db, op: Op): Db { Send(d.(mem := Apply(d.mem, op)), Write(op)) }

  /** One iteration of the background loop. */
  function Process(d: Db): Db
    requires d.running && d.queue != []
  {
    var rest := d.(queue := d.queue[1..]);
    match d.queue[0]
    case StartTxn =>
      rest.(txn := if d.txn.Open? then Open(d.txn.buffer, d.txn.count + 1) else Open([], 1))
    case CommitTxn =>
      if d.txn.NoTxn? then rest
      else if d.txn.count <= 1 then rest.(durable := Replay(d.durable, d.txn.buffer), txn := NoTxn)
      else rest.(txn := Open(d.txn.buffer, d.txn.count - 1))
    case Write(op) =>
      if d.txn.Open? then rest.(txn := Open(d.txn.buffer + [op], d.txn.count))
      else rest.(durable := Apply(d.durable, op))
    case Shutdown =>
      rest.(running := false, txn := NoTxn)   // an open inner transaction is dropped, not committed
  }

  /** What clients do. A transaction handle is named so that its calls can be told apart;
      the messages it sends carry no name. */
  datatype Client =
    | Begin(id: nat)
    | TxWrite(id: nat, op: Op)
    | Commit(id: nat)
    | Direct(op: Op)
    | Close

  datatype Event = Call(client: Client) | Background

  function MessageOf(c: Client): Message {
    match c
    case Begin(_) => StartTxn
    case TxWrite(_, op) => Write(op)
    case Commit(_) => CommitTxn
    case Direct(op) => Write(op)
    case Close => Shutdown
  }

  function CallStep(d: Db, c: Client): Db {
    if c.TxWrite? || c.Direct? then ClientWrite(d, c.op) else Send(d, MessageOf(c))
  }

  function Step(d: Db, e: Event): Db {
    match e
    case Call(c) => CallStep(d, c)
    case Background => if d.running && d.queue != [] then Process(d) else d
  }

  function Run(d: Db, events: seq<Event>): Db {
    if events == [] then d else Step(Run(d, events[..|events| - 1]), events[|events| - 1])
  }

  /** The client calls of a run, in order. */
  function Log(events: seq<Event>): seq<Client> {
    if events == [] then []
    else
      var e := events[|events| - 1];
      Log(events[..|events| - 1]) + if e.Call? then [e.client] else []
  }

  function Ops(log: seq<Client>): seq<Op> {
    if log == [] then []
    else
      var c := log[|log| - 1];
      Ops(log[..|log| - 1]) + if c.TxWrite? || c.Direct? then [c.op] else []
  }

  /** How many transactions the background thread counts as open after `log`. */
  function Depth(log: seq<Client>): nat {
    if log == [] then 0
    else
      var d := Depth(log[..|log| - 1]);
      match log[|log| - 1]
      case Begin(_) => d + 1
      case Commit(_) => if d == 0 then 0 else d - 1
      case _ => d
  }

  // ---------- the invariant of every run ----------

  lemma ReplaySnoc(s: Store, ops: seq<Op>, op: Op)
    ensures Replay(s, ops + [op]) == Apply(Replay(s, ops), op)
  {
    assert (ops + [op])[..|ops + [op]| - 1] == ops;
  }

  /** What one more call does to the operations, their effect and the nesting depth. */
  lemma LogSnoc(initial: Store, log: seq<Client>, c: Client)
    ensures c.TxWrite? || c.Direct? ==>
              Replay(initial, Ops(log + [c])) == Apply(Replay(initial, Ops(log)), c.op)
    ensures !(c.TxWrite? || c.Direct?) ==> Ops(log + [c]) == Ops(log)
    ensures Depth(log + [c]) ==
              if c.Begin? then Depth(log) + 1
              else if c.Commit? && Depth(log) > 0 then Depth(log) - 1
              else Depth(log)
  {
    assert (log + [c])[..|log + [c]| - 1] == log;
    if c.TxWrite? || c.Direct? { ReplaySnoc(initial, Ops(log), c.op); }
  }

  /** The open transaction, if any, holds exactly what was replayed since the store was last idle. */
  ghost predicate TxnHolds(initial: Store, log: seq<Client>, d: Db, done: nat, idle: nat)
    requires idle <= done <= |log|
  {
    match d.txn
    case NoTxn => idle == done
    case Open(buffer, count) =>
      && count == Depth(log[..done]) > 0
      && Replay(d.durable, buffer) == Replay(initial, Ops(log[..done]))
  }

  ghost predicate BusyBetween(log: seq<Client>, lo: nat, hi: nat)
    requires hi <= |log|
  {
    forall k :: lo < k <= hi ==> Depth(log[..k]) > 0
  }

  /** `done` calls have been replayed; the durable store holds exactly the first `idle` of them. */
  ghost predicate Consistent(initial: Store, log: seq<Client>, d: Db, done: nat, idle: nat) {
    && idle <= done <= |log|
    && d.mem == Replay(initial, Ops(log))
    && |d.queue| == |log| - done
    && (forall i :: 0 <= i < |d.queue| ==> d.queue[i] == MessageOf(log[done + i]))
    && d.durable == Replay(initial, Ops(log[..idle]))
    && Depth(log[..idle]) == 0
    && if d.running
       then Close !in log[..done] && TxnHolds(initial, log, d, done, idle) && BusyBetween(log, idle, done)
       else Stopped(log, d, done, idle)
  }

  ghost predicate Stopped(log: seq<Client>, d: Db, done: nat, idle: nat)
    requires done <= |log|
  {
    && d.txn.NoTxn?
    && idle < done && log[done - 1] == Close && Close !in log[..done - 1]
    && BusyBetween(log, idle, done - 1)
  }

  lemma CallKeepsConsistent(initial: Store, log: seq<Client>, d: Db, done: nat, idle: nat, c: Client)
    requires Consistent(initial, log, d, done, idle)
    ensures Consistent(initial, log + [c], CallStep(d, c), done, idle)
  {
    LogSnoc(initial, log, c);
    assert forall k :: 0 <= k <= |log| ==> (log + [c])[..k] == log[..k];
  }

  /** The part of `Consistent` that speaks of the replayed calls `past` only. */
  ghost predicate Replayed(initial: Store, past: seq<Client>, d: Db, idle: nat) {
    && idle <= |past|
    && d.durable == Replay(initial, Ops(past[..idle])) && Depth(past[..idle]) == 0
    && if d.running
       then Close !in past && TxnHolds(initial, past, d, |past|, idle) && BusyBetween(past, idle, |past|)
       else Stopped(past, d, |past|, idle)
  }

  ghost predicate Queued(log: seq<Client>, d: Db, done: nat)
    requires done <= |log|
  {
    |d.queue| == |log| - done && forall i :: 0 <= i < |d.queue| ==> d.queue[i] == MessageOf(log[done + i])
  }

  lemma ConsistentParts(initial: Store, log: seq<Client>, d: Db, done: nat, idle: nat)
    requires done <= |log|
    ensures Consistent(initial, log, d, done, idle)
            <==> d.mem == Replay(initial, Ops(log)) && Queued(log, d, done) && Replayed(initial, log[..done], d, idle)
  {
    var past := log[..done];
    assert past[..|past|] == past && (done > 0 ==> past[..done - 1] == log[..done - 1]);
    assert forall k :: 0 <= k <= done ==> past[..k] == log[..k];
  }

  lemma BusyLonger(past: seq<Client>, c: Client, idle: nat)
    requires BusyBetween(past, idle, |past|)
    ensures BusyBetween(past + [c], idle, |past|)
    ensures Depth(past + [c]) > 0 ==> BusyBetween(past + [c], idle, |past| + 1)
  {
    var now := past + [c];
    assert now[..|past| + 1] == now;
    forall k | idle < k <= |past| ensures Depth(now[..k]) > 0 {
      assert now[..k] == past[..k];
      assert Depth(past[..k]) > 0;
    }
    forall k | idle < k <= |past| + 1 && Depth(now) > 0 ensures Depth(now[..k]) > 0 {
      if k <= |past| { assert Depth(now[..k]) > 0; }
    }
  }

  lemma ReplayBracket(initial: Store, past: seq<Client>, d: Db, idle: nat, c: Client) returns (idle': nat)
    requires Replayed(initial, past, d, idle) && d.running && d.queue != [] && d.queue[0] == MessageOf(c)
    requires c.Begin? || c.Commit?
    ensures Replayed(initial, past + [c], Process(d), idle')
  {
    var now, d' := past + [c], Process(d);
    LogSnoc(initial, past, c);
    BusyLonger(past, c, idle);
    assert past[..|past|] == past && now[..|now|] == now && now[..idle] == past[..idle];
    idle' := if d'.txn.NoTxn? then |now| else idle;
  }

  lemma ReplayWrite(initial: Store, past: seq<Client>, d: Db, idle: nat, c: Client) returns (idle': nat)
    requires Replayed(initial, past, d, idle) && d.running && d.queue != [] && d.queue[0] == MessageOf(c)
    requires c.TxWrite? || c.Direct?
    ensures Replayed(initial, past + [c], Process(d), idle')
  {
    var now := past + [c];
    LogSnoc(initial, past, c);
    BusyLonger(past, c, idle);
    assert past[..|past|] == past && now[..|now|] == now && now[..idle] == past[..idle];
    if d.txn.Open? {
      ReplaySnoc(d.durable, d.txn.buffer, c.op);
      idle' := idle;
    } else {
      idle' := |now|;
    }
  }

  lemma ReplayClose(initial: Store, past: seq<Client>, d: Db, idle: nat)
    requires Replayed(initial, past, d, idle) && d.running && d.queue != [] && d.queue[0] == Shutdown
    ensures Replayed(initial, past + [Close], Process(d), idle)
  {
    var now := past + [Close];
    BusyLonger(past, Close, idle);
    assert now[..|past|] == past && now[..idle] == past[..idle];
  }

  /** Replaying one more call; the store is idle again when no transaction is left open. */
  lemma ReplayOne(initial: Store, past: seq<Client>, d: Db, idle: nat, c: Client) returns (idle': nat)
    requires Replayed(initial, past, d, idle) && d.running && d.queue != [] && d.queue[0] == MessageOf(c)
    ensures Replayed(initial, past + [c], Process(d), idle')
  {
    if c.Close? {
      ReplayClose(initial, past, d, idle);
      idle' := idle;
    } else if c.Begin? || c.Commit? {
      idle' := ReplayBracket(initial, past, d, idle, c);
    } else {
      idle' := ReplayWrite(initial, past, d, idle, c);
    }
  }

  lemma QueueAdvances(log: seq<Client>, d: Db, done: nat)
    requires done < |log| && Queued(log, d, done) && d.running && d.queue != []
    ensures d.queue[0] == MessageOf(log[done]) && Queued(log, Process(d), done + 1) && Process(d).mem == d.mem
  {
    assert Process(d).queue == d.queue[1..];
  }

  lemma ProcessKeepsConsistent(initial: Store, log: seq<Client>, d: Db, done: nat, idle: nat) returns (idle': nat)
    requires Consistent(initial, log, d, done, idle) && d.running && d.queue != []
    ensures Consistent(initial, log, Process(d), done + 1, idle')
  {
    ConsistentParts(initial, log, d, done, idle);
    QueueAdvances(log, d, done);
    idle' := ReplayOne(initial, log[..done], d, idle, log[done]);
    assert log[..done + 1] == log[..done] + [log[done]];
    ConsistentParts(initial, log, Process(d), done + 1, idle');
  }

  lemma FreshIsConsistent(initial: Store)
    ensures Consistent(initial, [], OpenDb(initial), 0, 0)
  {}

  lemma {:induction false} RunConsistent(initial: Store, events: seq<Event>) returns (done: nat, idle: nat)
    ensures Consistent(initial, Log(events), Run(OpenDb(initial), events), done, idle)
  {
    if events == [] {
      FreshIsConsistent(initial);
      done, idle := 0, 0;
    } else {
      var before := events[..|events| - 1];
      done, idle := RunConsistent(initial, before);
      done, idle := StepKeepsConsistent(initial, Log(before), Run(OpenDb(initial), before), done, idle,
                                        events[|events| - 1]);
    }
  }

  lemma StepKeepsConsistent(initial: Store, log: seq<Client>, d: Db, done: nat, idle: nat, e: Event)
    returns (done': nat, idle': nat)
    requires Consistent(initial, log, d, done, idle)
    ensures Consistent(initial, log + (if e.Call? then [e.client] else []), Step(d, e), done', idle')
  {
    done', idle' := done, idle;
    if e.Call? {
      CallKeepsConsistent(initial, log, d, done, idle, e.client);
    } else {
      assert log + [] == log;
      if d.running && d.queue != [] {
        idle' := ProcessKeepsConsistent(initial, log, d, done, idle);
        done' := done + 1;
      }
    }
  }

  // ---------- what a crash can expose ----------

  /** The writes still on their way to the durable store. */
  function Pending(d: Db): seq<Op> {
    (if d.txn.Open? then d.txn.buffer else []) + QueuedOps(d.queue)
  }

  function QueuedOps(queue: seq<Message>): seq<Op> {
    if queue == [] then []
    else
      var m := queue[|queue| - 1];
      QueuedOps(queue[..|queue| - 1]) + if m.Write? then [m.op] else []
  }

  lemma {:induction false} OpsSplit(log: seq<Client>, done: nat, queue: seq<Message>)
    requires done + |queue| <= |log|
    requires forall i :: 0 <= i < |queue| ==> queue[i] == MessageOf(log[done + i])
    ensures Ops(log[..done + |queue|]) == Ops(log[..done]) + QueuedOps(queue)
  {
    if queue != [] {
      var n := |queue| - 1;
      OpsSplit(log, done, queue[..n]);
      assert log[..done + n + 1][..done + n] == log[..done + n];
    } else {
      assert log[..done + |queue|] == log[..done];
    }
  }

  /** The durable store is the replay of the first `idle` calls, and no transaction was open there. */
  ghost predicate DurableAt(initial: Store, log: seq<Client>, d: Db, idle: nat)
    requires idle <= |log|
  {
    d.durable == Replay(initial, Ops(log[..idle])) && Depth(log[..idle]) == 0
  }

  /** In every reachable state a crash leaves the replay of a prefix of the calls that ends where no
      transaction was open, and replaying what is still in flight gives the memory clients read. */
  lemma CrashConsistency(initial: Store, events: seq<Event>) returns (idle: nat)
    ensures var d := Run(OpenDb(initial), events);
            var log := Log(events);
            && idle <= |log| && DurableAt(initial, log, d, idle)
            && d.mem == Replay(initial, Ops(log))
            && (d.running ==> Replay(d.durable, Pending(d)) == d.mem)
  {
    var done;
    done, idle := RunConsistent(initial, events);
    var d := Run(OpenDb(initial), events);
    if d.running { InFlightGivesMemory(initial, Log(events), d, done, idle); }
  }

  lemma InFlightGivesMemory(initial: Store, log: seq<Client>, d: Db, done: nat, idle: nat)
    requires Consistent(initial, log, d, done, idle) && d.running
    ensures Replay(d.durable, Pending(d)) == d.mem
  {
    OpsSplit(log, done, d.queue);
    assert log[..done + |d.queue|] == log;
    ReplayConcat(initial, Ops(log[..done]), QueuedOps(d.queue));
    if d.txn.Open? {
      ReplayConcat(d.durable, d.txn.buffer, QueuedOps(d.queue));
    } else {
      assert Pending(d) == QueuedOps(d.queue);
    }
  }

  // ---------- transactions ----------

  function Started(log: seq<Client>): set<nat> {
    set c | c in log && c.Begin? :: c.id
  }

  function OpenTxns(log: seq<Client>): set<nat> {
    if log == [] then {}
    else
      var s := OpenTxns(log[..|log| - 1]);
      match log[|log| - 1]
      case Begin(id) => s + {id}
      case Commit(id) => s - {id}
      case _ => s
  }

  /** Handles are used as the type system makes clients use them: begun once, written through and
      committed only while open, and committed at most once. */
  ghost predicate UsesHandlesOnce(log: seq<Client>) {
    forall i {:trigger HandleOk(log[..i], log[i])} :: 0 <= i < |log| ==> HandleOk(log[..i], log[i])
  }

  ghost predicate HandleOk(past: seq<Client>, c: Client) {
    match c
    case Begin(id) => id !in Started(past)
    case TxWrite(id, _) => id in OpenTxns(past)
    case Commit(id) => id in OpenTxns(past)
    case _ => true
  }

  lemma UsesHandlesOncePrefix(log: seq<Client>, n: nat)
    requires UsesHandlesOnce(log) && n <= |log|
    ensures UsesHandlesOnce(log[..n])
  {
    forall i | 0 <= i < n ensures HandleOk(log[..n][..i], log[..n][i]) {
      assert log[..n][..i] == log[..i] && log[..n][i] == log[i] && HandleOk(log[..i], log[i]);
    }
  }

  lemma {:induction false} OpenWereStarted(log: seq<Client>)
    ensures OpenTxns(log) <= Started(log)
  {
    if log != [] {
      var before := log[..|log| - 1];
      OpenWereStarted(before);
      assert log == before + [log[|log| - 1]];
      assert Started(before) <= Started(log);
      if log[|log| - 1].Begin? { assert log[|log| - 1] in log; }
    }
  }

  /** The thread's bare count is the number of handles really open. */
  lemma {:induction false} DepthCountsOpenTxns(log: seq<Client>)
    requires UsesHandlesOnce(log)
    ensures Depth(log) == |OpenTxns(log)|
  {
    if log != [] {
      var n := |log| - 1;
      UsesHandlesOncePrefix(log, n);
      DepthCountsOpenTxns(log[..n]);
      OpenWereStarted(log[..n]);
      assert HandleOk(log[..n], log[n]);
    }
  }

  predicate OfTxn(c: Client, id: nat) {
    (c.Begin? || c.TxWrite? || c.Commit?) && c.id == id
  }

  lemma FinishedOneMore(past: seq<Client>, c: Client, id: nat)
    requires HandleOk(past, c) && id in Started(past) && id !in OpenTxns(past)
    ensures id in Started(past + [c]) && id !in OpenTxns(past + [c]) && !OfTxn(c, id)
  {
    assert (past + [c])[..|past|] == past;
    assert forall x :: x in past ==> x in past + [c];
  }

  lemma {:induction false} FinishedStaysFinished(log: seq<Client>, id: nat, n: nat, k: nat)
    requires UsesHandlesOnce(log) && n <= k <= |log|
    requires id in Started(log[..n]) && id !in OpenTxns(log[..n])
    ensures id in Started(log[..k]) && id !in OpenTxns(log[..k])
    ensures forall j :: n <= j < k ==> !OfTxn(log[j], id)
    decreases k
  {
    if n < k {
      FinishedStaysFinished(log, id, n, k - 1);
      assert log[..k] == log[..k - 1] + [log[k - 1]];
      assert HandleOk(log[..k - 1], log[k - 1]);
      FinishedOneMore(log[..k - 1], log[k - 1], id);
    }
  }

  /** No crash exposes part of a transaction: there is one cut of the call log that the durable store
      holds, and no transaction has calls on both sides of it. */
  lemma TransactionsAreAtomic(initial: Store, events: seq<Event>) returns (cut: nat)
    requires UsesHandlesOnce(Log(events))
    ensures cut <= |Log(events)|
    ensures Run(OpenDb(initial), events).durable == Replay(initial, Ops(Log(events)[..cut]))
    ensures forall id, a, b :: 0 <= a < cut <= b < |Log(events)| ==>
              !(OfTxn(Log(events)[a], id) && OfTxn(Log(events)[b], id))
  {
    var log := Log(events);
    var done;
    done, cut := RunConsistent(initial, events);
    UsesHandlesOncePrefix(log, cut);
    DepthCountsOpenTxns(log[..cut]);
    forall id, a, b | 0 <= a < cut <= b < |log| && OfTxn(log[a], id)
      ensures !OfTxn(log[b], id)
    {
      TouchedWasStarted(log[..cut], id, a);
      FinishedStaysFinished(log, id, cut, |log|);
    }
  }

  lemma TouchedWasStarted(log: seq<Client>, id: nat, a: nat)
    requires UsesHandlesOnce(log) && a < |log| && OfTxn(log[a], id)
    ensures id in Started(log)
  {
    OpenWereStarted(log[..a]);
    assert HandleOk(log[..a], log[a]);
    assert forall c :: c in log[..a] ==> c in log;
    assert log[a] in log;
  }

  lemma {:induction false} NeverCommittedStaysOpen(log: seq<Client>, id: nat, b: nat, k: nat)
    requires b < k <= |log| && log[b] == Begin(id)
    requires Commit(id) !in log
    ensures id in OpenTxns(log[..k])
    decreases k
  {
    assert log[..k][..k - 1] == log[..k - 1];
    if b + 1 < k { NeverCommittedStaysOpen(log, id, b, k - 1); }
    assert log[k - 1] in log;
  }

  /** A handle that is dropped without `commit` freezes the durable store where it began: nothing any
      client writes afterwards becomes durable. */
  lemma AbandonedTransactionFreezesDurable(initial: Store, events: seq<Event>, id: nat, b: nat) returns (cut: nat)
    requires UsesHandlesOnce(Log(events))
    requires b < |Log(events)| && Log(events)[b] == Begin(id) && Commit(id) !in Log(events)
    ensures cut <= b
    ensures Run(OpenDb(initial), events).durable == Replay(initial, Ops(Log(events)[..cut]))
  {
    var log := Log(events);
    var done;
    done, cut := RunConsistent(initial, events);
    if b < cut {
      NeverCommittedStaysOpen(log, id, b, cut);
      UsesHandlesOncePrefix(log, cut);
      DepthCountsOpenTxns(log[..cut]);
      assert false;
    }
  }

  /** Shutting down after every handle was committed leaves memory and disk equal, so reopening
      gives exactly the map clients last saw. */
  lemma RestartRoundTrip(initial: Store, events: seq<Event>, log: seq<Client>)
    requires Log(events) == log + [Close] && Close !in log
    requires UsesHandlesOnce(log) && OpenTxns(log) == {}
    requires !Run(OpenDb(initial), events).running
    ensures var d := Run(OpenDb(initial), events);
            d.durable == d.mem == Replay(initial, Ops(log)) && OpenDb(d.durable).mem == d.mem
  {
    var done, idle := RunConsistent(initial, events);
    var full := log + [Close];
    LogSnoc(initial, log, Close);
    assert full[..|log|] == log;
    if done <= |log| { assert false; }
    DepthCountsOpenTxns(log);
    assert full[..done - 1] == log;
  }

  /** The commit is what makes it so: with an uncommitted handle the same shutdown loses the write. */
  lemma RestartLosesUncommitted()
    ensures var initial: Store := map["t" := map[]];
            var events := [Call(Begin(0)), Call(TxWrite(0, Insert("t", "k", "v"))), Call(Close),
                           Background, Background, Background];
            var d := Run(OpenDb(initial), events);
            !d.running && Get(d.mem, "t", "k") == Some("v") && Get(OpenDb(d.durable).mem, "t", "k") == None
  {
    var initial: Store := map["t" := map[]];
    var op := Insert("t", "k", "v");
    var calls, steps := [Call(Begin(0)), Call(TxWrite(0, op)), Call(Close)], [Background, Background, Background];
    var d0 := OpenDb(initial);
    ThreeSteps(d0, calls[0], calls[1], calls[2]);
    UncommittedCalls(initial, op);
    var d3 := Run(d0, calls);
    ThreeSteps(d3, Background, Background, Background);
    UncommittedDrains(d3.mem, initial, op);
    RunConcat(d0, calls, steps);
    assert calls + steps == [Call(Begin(0)), Call(TxWrite(0, op)), Call(Close), Background, Background, Background];
  }

  lemma UncommittedCalls(initial: Store, op: Op)
    ensures Step(Step(Step(OpenDb(initial), Call(Begin(0))), Call(TxWrite(0, op))), Call(Close))
            == Db(Apply(initial, op), [StartTxn, Write(op), Shutdown], initial, NoTxn, true)
  {
    assert [] + [StartTxn] + [Write(op)] + [Shutdown] == [StartTxn, Write(op), Shutdown];
  }

  lemma UncommittedDrains(mem: Store, durable: Store, op: Op)
    ensures var d := Db(mem, [StartTxn, Write(op), Shutdown], durable, NoTxn, true);
            Step(Step(Step(d, Background), Background), Background)
            == Db(mem, [], durable, NoTxn, false)
  {
    assert [StartTxn, Write(op), Shutdown][1..] == [Write(op), Shutdown] && [Write(op), Shutdown][1..] == [Shutdown];
  }

  lemma ThreeSteps(d: Db, a: Event, b: Event, c: Event)
    ensures Run(d, [a, b, c]) == Step(Step(Step(d, a), b), c)
  {
    RunSnoc(d, [], a);
    RunSnoc(d, [a], b);
    RunSnoc(d, [a, b], c);
    assert [] + [a] == [a] && [a] + [b] == [a, b] && [a, b] + [c] == [a, b, c];
  }

  lemma {:induction false} RunConcat(d: Db, xs: seq<Event>, ys: seq<Event>)
    ensures Run(d, xs + ys) == Run(Run(d, xs), ys)
  {
    if ys == [] {
      assert xs + ys == xs;
    } else {
      var n := |ys| - 1;
      RunConcat(d, xs, ys[..n]);
      assert (xs + ys)[..|xs + ys| - 1] == xs + ys[..n];
    }
  }

  lemma RunSnoc(d: Db, events: seq<Event>, e: Event)
    ensures Run(d, events + [e]) == Step(Run(d, events), e)
  {
    assert (events + [e])[..|events + [e]| - 1] == events;
  }

  // ---------- the handle and its thread ----------

  /** Runs the background loop until it stops or has to wait. */
  function Drain(d: Db): Db
    decreases |d.queue|
  {
    if d.running && d.queue != [] then Drain(Process(d)) else d
  }

  ghost predicate OnlyBackground(events: seq<Event>) { forall e :: e in events ==> e == Background }

  lemma {:induction false} BackgroundIsNoCall(events: seq<Event>, more: seq<Event>)
    requires OnlyBackground(more)
    ensures Log(events + more) == Log(events)
  {
    if more == [] {
      assert events + more == events;
    } else {
      var n := |more| - 1;
      assert forall e :: e in more[..n] ==> e in more;
      BackgroundIsNoCall(events, more[..n]);
      assert more[n] in more;
      assert (events + more)[..|events + more| - 1] == events + more[..n];
      assert (events + more)[|events + more| - 1] == more[n];
    }
  }

  lemma {:induction false} DrainIsSteps(d: Db) returns (more: seq<Event>)
    ensures Drain(d) == Run(d, more) && OnlyBackground(more)
    decreases |d.queue|
  {
    more := [];
    if d.running && d.queue != [] {
      var rest := DrainIsSteps(Process(d));
      more := [Background] + rest;
      RunConcat(d, [Background], rest);
      RunSnoc(d, [], Background);
      assert [] + [Background] == [Background];
    }
  }

  /** Draining is a run of background steps, so everything proved of runs holds of it. */
  lemma DrainIsARun(d: Db, events: seq<Event>) returns (more: seq<Event>)
    ensures Drain(Run(d, events)) == Run(d, events + more) && Log(events + more) == Log(events)
  {
    more := DrainIsSteps(Run(d, events));
    RunConcat(d, events, more);
    BackgroundIsNoCall(events, more);
  }

  /** A queued Shutdown is reached: the thread stops. */
  lemma {:induction false} DrainStops(d: Db)
    requires Shutdown in d.queue
    ensures !Drain(d).running
    decreases |d.queue|
  {
    if d.running && d.queue[0] != Shutdown {
      assert Process(d).queue == d.queue[1..];
      DrainStops(Process(d));
    }
  }

  /** `LayeredDatabase`, its transaction handle and the state of `db_run`. */
  class LayeredDatabase {
    var mem: Store
    var queue: seq<Message>
    var durable: Store
    var txn: Txn
    var running: bool

    ghost function State(): Db reads this { Db(mem, queue, durable, txn, running) }

    constructor OpenHandle(db: Store)
      ensures State() == Db(map[], [], db, NoTxn, true)
    {
      mem, queue, durable, txn, running := map[], [], db, NoTxn, true;
    }

    /** Loads one table; `rows` is the inner database's iterator over it. */
    method OpenTable(t: TableName, rows: seq<(Bytes, Bytes)>)
      requires t in durable
      requires forall i :: 0 <= i < |rows| ==> rows[i].0 in durable[t] && durable[t][rows[i].0] == rows[i].1
      requires forall k :: k in durable[t] ==> exists i :: 0 <= i < |rows| && rows[i].0 == k
      modifies this
      ensures State() == old(State()).(mem := old(mem)[t := old(durable)[t]])
    {
      mem := mem[t := map[]];
      for i := 0 to |rows|
        invariant State() == old(State()).(mem := mem) && t in mem && mem == old(mem)[t := mem[t]]
        invariant forall k :: k in mem[t] ==> k in durable[t] && mem[t][k] == durable[t][k]
        invariant forall j :: 0 <= j < i ==> rows[j].0 in mem[t]
      {
        mem := Apply(mem, Insert(t, rows[i].0, rows[i].1));
      }
      assert mem[t] == durable[t];
    }

    method WriteTxn()
      modifies `queue
      ensures forall id :: State() == CallStep(old(State()), Begin(id))
    {
      queue := queue + [StartTxn];
    }

    method InsertRow(t: TableName, k: Bytes, v: Bytes)
      modifies `mem, `queue
      ensures State() == CallStep(old(State()), Direct(Insert(t, k, v)))
    {
      if t in mem { mem := mem[t := mem[t][k := v]]; }
      queue := queue + [Write(Insert(t, k, v))];
    }

    method RemoveRow(t: TableName, k: Bytes)
      modifies `mem, `queue
      ensures State() == CallStep(old(State()), Direct(Remove(t, k)))
    {
      if t in mem { mem := mem[t := mem[t] - {k}]; }
      queue := queue + [Write(Remove(t, k))];
    }

    method ClearTable(t: TableName)
      modifies `mem, `queue
      ensures State() == CallStep(old(State()), Direct(Clear(t)))
    {
      if t in mem { mem := mem[t := map[]]; }
      queue := queue + [Write(Clear(t))];
    }

    method CommitTxn()
      modifies `queue
      ensures forall id :: State() == CallStep(old(State()), Commit(id))
    {
      queue := queue + [Message.CommitTxn];
    }

    /** `db_run`, as far as it gets without waiting for another message. */
    method DbRun()
      modifies `queue, `durable, `txn, `running
      ensures State() == Drain(old(State()))
    {
      while running && queue != []
        invariant Drain(State()) == Drain(old(State()))
        decreases |queue|
      {
        var msg := queue[0];
        queue := queue[1..];
        match msg
        case StartTxn =>
          txn := match txn case Open(b, n) => Open(b, n + 1) case NoTxn => Open([], 1);
        case CommitTxn =>
          match txn {
            case Open(buffer, count) =>
              if count <= 1 {
                durable := Replay(durable, buffer);
                txn := NoTxn;
              } else {
                txn := Open(buffer, count - 1);
              }
            case NoTxn =>
          }
        case Write(op) =>
          match txn {
            case Open(buffer, count) => txn := Open(buffer + [op], count);
            case NoTxn => durable := Apply(durable, op);
          }
        case Shutdown =>
          running := false;
          txn := NoTxn;
      }
    }

    /** Dropping the last handle sends Shutdown and joins the thread. */
    method DropLast()
      requires running
      modifies this
      ensures State() == Drain(CallStep(old(State()), Close)) && !running
    {
      queue := queue + [Shutdown];
      DrainStops(State());
      DbRun();
    }
  }
}
