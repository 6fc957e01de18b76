/** The execution engine: a future that queues consensus output and executes it one at a time, each on
    the header the previous one produced.
    Source: crates/engine/src/lib.rs */
module Engines {
  import opened Basics
  import opened Execution

  /** `execute_consensus_output` as the engine sees it. */
  type Executor = (ConsensusOutput, Block) -> Result<Block, EngineError>

  datatype StreamPoll = Next(output: ConsensusOutput) | Lagged | Closed | NotReady

  /** What one pass of the poll loop meets: the stream's answer, and whether the task has finished. */
  datatype Pass = Pass(stream: StreamPoll, taskReady: bool)

  /** The task in flight runs an output on the parent it was given. */
  datatype Task = Task(output: ConsensusOutput, parent: Block)

  datatype Poll = Pending | ReadyOk | ReadyErr(error: EngineError)

  /** `received` and `executed` record the outputs taken from the stream and those executed so far. */
  datatype State = State(queued: seq<ConsensusOutput>, task: Option<Task>, parent: Block,
                         received: seq<ConsensusOutput>, executed: seq<ConsensusOutput>)
  {
    function Idle(): bool { task.None? && queued == [] }
  }

  function NonceOf(b: Block): nat { if b.Genesis? then 0 else b.nonce }

  function ReachedMax(maxRound: Option<nat>, b: Block): bool { maxRound.Some? && NonceOf(b) >= maxRound.value }

  function Receive(s: State, p: StreamPoll): State {
    if p.Next? then s.(queued := s.queued + [p.output], received := s.received + [p.output]) else s
  }

  function Spawn(s: State): State
    requires s.queued != []
  {
    s.(task := Some(Task(s.queued[0], s.parent)), queued := s.queued[1..])
  }

  /** The task's result taken in: the new parent, or the error that ends the engine. */
  function Finish(exec: Executor, s: State): (State, Option<EngineError>)
    requires s.task.Some?
  {
    var t := s.task.value;
    match exec(t.output, t.parent)
    case Err(e) => (s.(task := None), Some(e))
    case Ok(b) => (s.(task := None, parent := b, executed := s.executed + [t.output]), None)
  }

  /** One pass of the poll loop: the new state, and the answer if the loop ends here. */
  function PassOnce(exec: Executor, maxRound: Option<nat>, s: State, pass: Pass): (State, Option<Poll>) {
    var s1 := Receive(s, pass.stream);
    if s1.Idle() then (s1, Some(if pass.stream.Closed? then ReadyOk else Pending))
    else
      var s2 := if s1.task.None? then Spawn(s1) else s1;
      if !pass.taskReady then (s2, Some(Pending))
      else
        var (s3, failed) := Finish(exec, s2);
        if failed.Some? then (s3, Some(ReadyErr(failed.value)))
        else if ReachedMax(maxRound, s3.parent) then (s3, Some(ReadyOk))
        else (s3, None)
  }

  /** The poll loop; after the last pass nothing is ready. */
  function PollLoop(exec: Executor, maxRound: Option<nat>, s: State, passes: seq<Pass>): (State, Poll)
    decreases |passes|
  {
    if passes == [] then (PassOnce(exec, maxRound, s, Pass(NotReady, false)).0, Pending)
    else
      var (s', r) := PassOnce(exec, maxRound, s, passes[0]);
      if r.Some? then (s', r.value) else PollLoop(exec, maxRound, s', passes[1..])
  }

  function PollOnce(exec: Executor, maxRound: Option<nat>, s: State, shutdown: bool, passes: seq<Pass>): (State, Poll) {
    if shutdown && s.Idle() then (s, ReadyOk) else PollLoop(exec, maxRound, s, passes)
  }

  class ExecutorEngine {
    var queued: seq<ConsensusOutput>
    var pendingTask: Option<Task>
    var parentHeader: Block
    const maxRound: Option<nat>
    ghost var received: seq<ConsensusOutput>
    ghost var executed: seq<ConsensusOutput>

    ghost function Now(): State reads this { State(queued, pendingTask, parentHeader, received, executed) }

    constructor (parent: Block, maxRound: Option<nat>)
      ensures Now() == State([], None, parent, [], []) && this.maxRound == maxRound
    {
      queued, pendingTask, parentHeader, this.maxRound := [], None, parent, maxRound;
      received, executed := [], [];
    }

    /** One call of `poll`. */
    method PollEngine(exec: Executor, shutdown: bool, passes: seq<Pass>) returns (r: Poll)
      modifies this
      ensures (Now(), r) == PollOnce(exec, maxRound, old(Now()), shutdown, passes)
    {
      if shutdown && pendingTask.None? && |queued| == 0 { return ReadyOk; }
      var i := 0;
      while i < |passes|
        invariant 0 <= i <= |passes|
        invariant PollLoop(exec, maxRound, old(Now()), passes) == PollLoop(exec, maxRound, Now(), passes[i..])
      {
        var answer := LoopPass(exec, passes[i]);
        if answer.Some? { return answer.value; }
        i := i + 1;
      }
      var answer := LoopPass(exec, Pass(NotReady, false));
      r := Pending;
    }

    /** The body of the poll loop. */
    method LoopPass(exec: Executor, pass: Pass) returns (r: Option<Poll>)
      modifies this
      ensures (Now(), r) == PassOnce(exec, maxRound, old(Now()), pass)
    {
      match pass.stream {
        case Next(output) => queued, received := queued + [output], received + [output];
        case Closed => if pendingTask.None? && |queued| == 0 { return Some(ReadyOk); }
        case Lagged =>
        case NotReady =>
      }
      if pendingTask.None? {
        if |queued| == 0 { return Some(Pending); }
        pendingTask, queued := Some(Task(queued[0], parentHeader)), queued[1..];
      }
      if !pass.taskReady { return Some(Pending); }
      var task := pendingTask.value;
      pendingTask := None;
      var result := exec(task.output, task.parent);
      if result.Err? { return Some(ReadyErr(result.error)); }
      parentHeader, executed := result.value, executed + [task.output];
      r := if ReachedMax(maxRound, parentHeader) then Some(ReadyOk) else None;
    }
  }

  // ---------- every run ----------

  /** Executing outputs in order, each on the block before it; the first failure stops. */
  function ExecuteAll(exec: Executor, outputs: seq<ConsensusOutput>, parent: Block): Result<Block, EngineError> {
    if outputs == [] then Ok(parent)
    else
      var n := |outputs| - 1;
      var r := ExecuteAll(exec, outputs[..n], parent);
      if r.Err? then r else exec(outputs[n], r.value)
  }

  /** Nothing received is lost, reordered or executed twice, and the parent is what executing the finished
      outputs in order gives; a task in flight runs on that parent. */
  ghost predicate Inv(exec: Executor, first: Block, s: State) {
    && s.received == s.executed + (if s.task.Some? then [s.task.value.output] else []) + s.queued
    && ExecuteAll(exec, s.executed, first) == Ok(s.parent)
    && (s.task.Some? ==> s.task.value.parent == s.parent)
  }

  /** The engine stopped by an error: executing what was received fails at the output after the executed ones. */
  ghost predicate FailedAt(exec: Executor, first: Block, s: State, e: EngineError) {
    && |s.executed| < |s.received| && s.executed == s.received[..|s.executed|]
    && ExecuteAll(exec, s.received[..|s.executed| + 1], first) == Err(e)
  }

  /** How a poll may leave the engine: sound, failed at the next output, or ready with nothing left to do. */
  ghost predicate EndsWell(exec: Executor, maxRound: Option<nat>, first: Block, s: State, r: Poll) {
    match r
    case ReadyErr(e) => FailedAt(exec, first, s, e)
    case ReadyOk => Inv(exec, first, s) && (s.Idle() || ReachedMax(maxRound, s.parent))
    case Pending => Inv(exec, first, s)
  }

  lemma FinishKeepsInv(exec: Executor, first: Block, s: State)
    requires Inv(exec, first, s) && s.task.Some?
    ensures var (s', failed) := Finish(exec, s);
            if failed.Some? then FailedAt(exec, first, s', failed.value) else Inv(exec, first, s')
  {
    var done, o := s.executed, s.task.value.output;
    assert (done + [o])[..|done|] == done;
    assert s.received[..|done|] == done && s.received[..|done| + 1] == done + [o];
    assert s.received == (done + [o]) + s.queued;
  }

  lemma ReceiveAndSpawnKeepInv(exec: Executor, first: Block, s: State, p: StreamPoll)
    requires Inv(exec, first, s)
    ensures Inv(exec, first, Receive(s, p))
    ensures s.task.None? && s.queued != [] ==> Inv(exec, first, Spawn(s))
  {
    if s.task.None? && s.queued != [] {
      assert s.executed + [] + s.queued == s.executed + [s.queued[0]] + s.queued[1..];
    }
  }

  lemma PassKeepsInv(exec: Executor, maxRound: Option<nat>, first: Block, s: State, pass: Pass)
    requires Inv(exec, first, s)
    ensures var (s', r) := PassOnce(exec, maxRound, s, pass);
            EndsWell(exec, maxRound, first, s', if r.Some? then r.value else Pending)
  {
    var s1 := Receive(s, pass.stream);
    ReceiveAndSpawnKeepInv(exec, first, s, pass.stream);
    if !s1.Idle() {
      ReceiveAndSpawnKeepInv(exec, first, s1, NotReady);
      FinishKeepsInv(exec, first, if s1.task.None? then Spawn(s1) else s1);
    }
  }

  lemma {:induction false} LoopKeepsInv(exec: Executor, maxRound: Option<nat>, first: Block, s: State,
                                        passes: seq<Pass>)
    requires Inv(exec, first, s)
    ensures var (s', r) := PollLoop(exec, maxRound, s, passes);
            EndsWell(exec, maxRound, first, s', r)
    decreases |passes|
  {
    var pass := if passes == [] then Pass(NotReady, false) else passes[0];
    PassKeepsInv(exec, maxRound, first, s, pass);
    var (s', r) := PassOnce(exec, maxRound, s, pass);
    if passes != [] && r.None? { LoopKeepsInv(exec, maxRound, first, s', passes[1..]); }
  }

  /** What the stream yields in these passes. */
  function Yields(passes: seq<Pass>): seq<ConsensusOutput> {
    if passes == [] then []
    else (if passes[0].stream.Next? then [passes[0].stream.output] else []) + Yields(passes[1..])
  }

  lemma YieldsFirst(passes: seq<Pass>, n: nat)
    requires 0 < n <= |passes|
    ensures Yields(passes[..n]) == Yields([passes[0]]) + Yields(passes[1..][..n - 1])
  {
    assert passes[..n][1..] == passes[1..][..n - 1];
    assert [passes[0]][1..] == [];
  }

  /** A pass takes in exactly what the stream yields, whatever else it does. */
  lemma PassReceives(exec: Executor, maxRound: Option<nat>, s: State, pass: Pass)
    ensures PassOnce(exec, maxRound, s, pass).0.received
            == s.received + Yields([pass])
  {
    assert Yields([pass]) == if pass.stream.Next? then [pass.stream.output] else [];
    var s1 := Receive(s, pass.stream);
    assert s1.received == s.received + Yields([pass]);
  }

  /** The outputs received and not yet executed, oldest first. */
  function Waiting(s: State): seq<ConsensusOutput> { (if s.task.Some? then [s.task.value.output] else []) + s.queued }

  /** A pass with a finished task executes exactly one output, the oldest, on the engine's parent; its failure is
      the pass's answer. */
  lemma ReadyPassExecutesOldest(exec: Executor, maxRound: Option<nat>, first: Block, s: State, pass: Pass)
    requires Inv(exec, first, s) && pass.taskReady && Waiting(Receive(s, pass.stream)) != []
    ensures var waiting := Waiting(Receive(s, pass.stream));
            var (s', r) := PassOnce(exec, maxRound, s, pass);
            && Waiting(s') == waiting[1..] && s'.task.None?
            && match exec(waiting[0], s.parent)
               case Ok(b) =>
                 && s'.executed == s.executed + [waiting[0]] && s'.parent == b
                 && r == if maxRound.Some? && (if b.Genesis? then 0 else b.nonce) >= maxRound.value
                         then Some(ReadyOk) else None
               case Err(e) => s'.executed == s.executed && s'.parent == s.parent && r == Some(ReadyErr(e))
  {
    var s1 := Receive(s, pass.stream);
    assert s1.parent == s.parent && s1.executed == s.executed && s1.task == s.task;
    var s2 := if s1.task.None? then Spawn(s1) else s1;
    assert Waiting(s2) == Waiting(s1) && s2.task.Some? && s2.task.value.parent == s.parent;
    assert Waiting(s1)[1..] == s2.queued;
  }

  /** With nothing to do the engine waits, or ends when the stream is closed or the node shuts down; with something
      to do and no task finished it only waits. */
  lemma IdlePass(exec: Executor, maxRound: Option<nat>, s: State, pass: Pass, passes: seq<Pass>)
    ensures var s1 := Receive(s, pass.stream);
            var (s', r) := PassOnce(exec, maxRound, s, pass);
            && (Waiting(s1) == [] ==> s' == s1 && r == Some(if pass.stream.Closed? then ReadyOk else Pending))
            && (Waiting(s1) != [] && !pass.taskReady ==>
                  Waiting(s') == Waiting(s1) && s'.executed == s.executed && r == Some(Pending))
    ensures Waiting(s) == [] ==> PollOnce(exec, maxRound, s, true, passes) == (s, ReadyOk)
  {
    var s1 := Receive(s, pass.stream);
    if s1.task.None? && s1.queued != [] { assert Waiting(Spawn(s1)) == Waiting(s1); }
  }

  /** No error can stop the engine, and each of the passes finds its task finished. */
  ghost predicate Smooth(exec: Executor, passes: seq<Pass>) {
    && (forall o, p :: exec(o, p).Ok?)
    && (forall i :: 0 <= i < |passes| ==> passes[i].taskReady && !passes[i].stream.Closed?)
  }

  /** Then each executes one output as long as there are any. */
  lemma {:induction false} SmoothPassesDrain(exec: Executor, first: Block, s: State, passes: seq<Pass>)
    requires Inv(exec, first, s) && Smooth(exec, passes)
    ensures var s' := PollLoop(exec, None, s, passes).0;
            || Waiting(s') == []
            || |s'.executed| == |s.executed| + |passes|
    decreases |passes|
  {
    if passes != [] {
      var pass := passes[0];
      PassKeepsInv(exec, None, first, s, pass);
      if Waiting(Receive(s, pass.stream)) == [] {
        IdlePass(exec, None, s, pass, passes);
      } else {
        ReadyPassExecutesOldest(exec, None, first, s, pass);
        SmoothPassesDrain(exec, first, PassOnce(exec, None, s, pass).0, passes[1..]);
      }
    } else {
      IdlePass(exec, None, s, Pass(NotReady, false), passes);
    }
  }

  /** A run is a list of calls of `poll`, ending when one is ready. */
  function RunAll(exec: Executor, maxRound: Option<nat>, s: State, calls: seq<(bool, seq<Pass>)>): (State, Poll)
    decreases |calls|
  {
    if calls == [] then (s, Pending)
    else
      var (s', r) := PollOnce(exec, maxRound, s, calls[0].0, calls[0].1);
      if r.Pending? then RunAll(exec, maxRound, s', calls[1..]) else (s', r)
  }

  lemma {:induction false} RunKeepsInv(exec: Executor, maxRound: Option<nat>, first: Block, s: State,
                                       calls: seq<(bool, seq<Pass>)>)
    requires Inv(exec, first, s)
    ensures var (s', r) := RunAll(exec, maxRound, s, calls);
            EndsWell(exec, maxRound, first, s', r)
    decreases |calls|
  {
    if calls != [] {
      LoopKeepsInv(exec, maxRound, first, s, calls[0].1);
      var (s', r) := PollOnce(exec, maxRound, s, calls[0].0, calls[0].1);
      if r.Pending? { RunKeepsInv(exec, maxRound, first, s', calls[1..]); }
    }
  }

  /** How many passes the loop makes before it answers. */
  function Consumed(exec: Executor, maxRound: Option<nat>, s: State, passes: seq<Pass>): (n: nat)
    ensures n <= |passes|
    decreases |passes|
  {
    if passes == [] then 0
    else
      var (s', r) := PassOnce(exec, maxRound, s, passes[0]);
      if r.Some? then 1 else 1 + Consumed(exec, maxRound, s', passes[1..])
  }

  lemma {:induction false} LoopReceives(exec: Executor, maxRound: Option<nat>, s: State, passes: seq<Pass>)
    ensures PollLoop(exec, maxRound, s, passes).0.received
            == s.received + Yields(passes[..Consumed(exec, maxRound, s, passes)])
    decreases |passes|
  {
    if passes == [] {
      PassReceives(exec, maxRound, s, Pass(NotReady, false));
    } else {
      PassReceives(exec, maxRound, s, passes[0]);
      YieldsFirst(passes, Consumed(exec, maxRound, s, passes));
      var (s', r) := PassOnce(exec, maxRound, s, passes[0]);
      if r.None? { LoopReceives(exec, maxRound, s', passes[1..]); }
    }
  }

  /** What the stream yields over a run, in the passes its polls make. */
  function Offered(exec: Executor, maxRound: Option<nat>, s: State, calls: seq<(bool, seq<Pass>)>)
    : seq<ConsensusOutput>
    decreases |calls|
  {
    if calls == [] then []
    else
      var (shutdown, passes) := calls[0];
      var now := if shutdown && s.Idle() then [] else Yields(passes[..Consumed(exec, maxRound, s, passes)]);
      var (s', r) := PollOnce(exec, maxRound, s, shutdown, passes);
      now + if r.Pending? then Offered(exec, maxRound, s', calls[1..]) else []
  }

  /** The engine takes in everything the stream yields, in order. */
  lemma {:induction false} RunReceives(exec: Executor, maxRound: Option<nat>, s: State, calls: seq<(bool, seq<Pass>)>)
    ensures RunAll(exec, maxRound, s, calls).0.received == s.received + Offered(exec, maxRound, s, calls)
    decreases |calls|
  {
    if calls != [] {
      var (shutdown, passes) := calls[0];
      LoopReceives(exec, maxRound, s, passes);
      var (s', r) := PollOnce(exec, maxRound, s, shutdown, passes);
      if r.Pending? { RunReceives(exec, maxRound, s', calls[1..]); }
    }
  }

  function Initial(parent: Block): State { State([], None, parent, [], []) }

  /** With no maximum round, an engine that stops without error has executed everything the stream yielded, in
      order; one that stops with an error stopped at the first output that fails. */
  lemma ShutdownIsComplete(exec: Executor, first: Block, calls: seq<(bool, seq<Pass>)>)
    ensures var (s, r) := RunAll(exec, None, Initial(first), calls);
            && s.received == Offered(exec, None, Initial(first), calls)
            && (r.ReadyOk? ==> s.executed == s.received && ExecuteAll(exec, s.received, first) == Ok(s.parent))
            && (r.ReadyErr? ==> FailedAt(exec, first, s, r.error))
  {
    RunKeepsInv(exec, None, first, Initial(first), calls);
    RunReceives(exec, None, Initial(first), calls);
  }

  /** The outcome does not depend on scheduling: two engines that received the same outputs, however the
      polls, task completions and shutdown signals fell, end at the same block. */
  lemma ScheduleIndependent(exec: Executor, first: Block, calls: seq<(bool, seq<Pass>)>, calls': seq<(bool, seq<Pass>)>)
    requires var (s, r) := RunAll(exec, None, Initial(first), calls);
             var (s', r') := RunAll(exec, None, Initial(first), calls');
             s.received == s'.received && r.ReadyOk? && r'.ReadyOk?
    ensures RunAll(exec, None, Initial(first), calls).0.parent == RunAll(exec, None, Initial(first), calls').0.parent
  {
    ShutdownIsComplete(exec, first, calls);
    ShutdownIsComplete(exec, first, calls');
  }

  /** At any moment two engines fed from one stream are at blocks of one chain of executions: the one that
      executed fewer outputs is where the other was. */
  lemma EnginesAgreeOnPrefixes(exec: Executor, maxRound: Option<nat>, first: Block,
                               calls: seq<(bool, seq<Pass>)>, calls': seq<(bool, seq<Pass>)>)
    requires var (s, r) := RunAll(exec, maxRound, Initial(first), calls);
             var (s', r') := RunAll(exec, maxRound, Initial(first), calls');
             s.received <= s'.received && |s.executed| <= |s'.executed| && !r.ReadyErr? && !r'.ReadyErr?
    ensures var s := RunAll(exec, maxRound, Initial(first), calls).0;
            var s' := RunAll(exec, maxRound, Initial(first), calls').0;
            s.executed <= s'.executed && ExecuteAll(exec, s'.executed[..|s.executed|], first) == Ok(s.parent)
  {
    RunKeepsInv(exec, maxRound, first, Initial(first), calls);
    RunKeepsInv(exec, maxRound, first, Initial(first), calls');
    var s := RunAll(exec, maxRound, Initial(first), calls).0;
    var s' := RunAll(exec, maxRound, Initial(first), calls').0;
    assert s.executed == s'.received[..|s.executed|] == s'.executed[..|s.executed|];
  }

  // ---------- the chain the engine builds ----------

  function Executing(evm: Evm): Executor { (o, p) => Execute(evm, o, p).0 }

  /** The blocks a list of outputs adds to the chain. */
  function BlocksOf(evm: Evm, outputs: seq<ConsensusOutput>, parent: Block): seq<Block> {
    if outputs == [] then []
    else
      var n := |outputs| - 1;
      var r := ExecuteAll(Executing(evm), outputs[..n], parent);
      BlocksOf(evm, outputs[..n], parent) + if r.Err? then [] else Execute(evm, outputs[n], r.value).1
  }

  function BlockCount(outputs: seq<ConsensusOutput>): nat {
    if outputs == [] then 0
    else
      var n := |Flatten(outputs[|outputs| - 1].batches)|;
      BlockCount(outputs[..|outputs| - 1]) + if n == 0 then 1 else n
  }

  lemma ChainJoin(parent: Block, xs: seq<Block>, ys: seq<Block>)
    requires ChainFrom(parent, xs) && ChainFrom(Tip(parent, xs), ys)
    ensures ChainFrom(parent, xs + ys) && Tip(parent, xs + ys) == Tip(Tip(parent, xs), ys)
  {
    forall k | 0 <= k < |xs + ys| ensures ChainAt(parent, xs + ys, k) {
      if k < |xs| {
        assert ChainAt(parent, xs, k);
      } else {
        assert ChainAt(Tip(parent, xs), ys, k - |xs|);
      }
    }
  }

  /** Everything executed, across all outputs, is one chain of consecutively numbered blocks ending at the
      engine's parent, with one block for every batch and one for every output without any. */
  lemma {:induction false} OneChain(evm: Evm, outputs: seq<ConsensusOutput>, first: Block)
    requires ExecuteAll(Executing(evm), outputs, first).Ok?
    ensures var blocks := BlocksOf(evm, outputs, first);
            && ChainFrom(first, blocks)
            && ExecuteAll(Executing(evm), outputs, first) == Ok(Tip(first, blocks))
            && |blocks| == BlockCount(outputs)
  {
    if outputs != [] {
      var n := |outputs| - 1;
      OneChain(evm, outputs[..n], first);
      var p := ExecuteAll(Executing(evm), outputs[..n], first).value;
      ExecutedBlocks(evm, outputs[n], p);
      ChainJoin(first, BlocksOf(evm, outputs[..n], first), Execute(evm, outputs[n], p).1);
    }
  }

  lemma EngineBuildsOneChain(evm: Evm, maxRound: Option<nat>, first: Block, calls: seq<(bool, seq<Pass>)>)
    requires !RunAll(Executing(evm), maxRound, Initial(first), calls).1.ReadyErr?
    ensures var s := RunAll(Executing(evm), maxRound, Initial(first), calls).0;
            var blocks := BlocksOf(evm, s.executed, first);
            ChainFrom(first, blocks) && s.parent == Tip(first, blocks) && |blocks| == BlockCount(s.executed)
  {
    RunKeepsInv(Executing(evm), maxRound, first, Initial(first), calls);
    OneChain(evm, RunAll(Executing(evm), maxRound, Initial(first), calls).0.executed, first);
  }
}
