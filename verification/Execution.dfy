/** From a committed sub-dag to executed blocks: the subscriber gathers the batches its certificates
    name, and the payload builder turns the output into one chain of blocks.
    Source: crates/consensus/executor/src/subscriber.rs and crates/engine/src/payload_builder.rs */
module Execution {
  import opened Basics

  type Bits = b: seq<bool> | |b| == 256 witness seq(256, i => false)

  datatype Hash = Hash(bits: Bits)

  const ZERO := Hash(seq(256, i => false))

  /** The bitwise exclusive or. */
  function Xor(a: Hash, b: Hash): Hash { Hash(seq(256, i requires 0 <= i < 256 => a.bits[i] != b.bits[i])) }

  lemma XorCancels(o: Hash, a: Hash, b: Hash)
    ensures Xor(o, a) == Xor(o, b) <==> a == b
  {
    if Xor(o, a) == Xor(o, b) {
      forall i | 0 <= i < 256 ensures a.bits[i] == b.bits[i] { assert Xor(o, a).bits[i] == Xor(o, b).bits[i]; }
      assert a.bits == b.bits;
    }
  }

  /** A batch is identified with what its digest covers; the time it was received is not part of it. */
  datatype Batch = Batch(digest: Hash, receivedAt: nat)

  /** `digest` is the consensus header's. */
  datatype ConsensusOutput = ConsensusOutput(batches: seq<seq<Batch>>, batchDigests: seq<Hash>, digest: Hash,
                                             nonce: nat)

  function Flatten<T>(ss: seq<seq<T>>): seq<T> {
    if ss == [] then [] else Flatten(ss[..|ss| - 1]) + ss[|ss| - 1]
  }

  lemma FlattenSnoc<T>(ss: seq<seq<T>>, s: seq<T>)
    ensures Flatten(ss + [s]) == Flatten(ss) + s
  {
    assert (ss + [s])[..|ss|] == ss;
  }

  // ---------- gathering the batches ----------

  datatype SubscriberError = UnexpectedAuthority | ClientRequestsFailed

  /** `batches` has the shape of `payloads`, each entry the batch fetched for the digest there. */
  ghost predicate Matches(payloads: seq<seq<Hash>>, batches: seq<seq<Batch>>, fetched: map<Hash, Batch>) {
    && |batches| == |payloads|
    && forall i :: 0 <= i < |payloads| ==> RowMatches(payloads[i], batches[i], fetched)
  }

  ghost predicate RowMatches(payload: seq<Hash>, batches: seq<Batch>, fetched: map<Hash, Batch>) {
    && |batches| == |payload|
    && forall j :: 0 <= j < |payload| ==> payload[j] in fetched && batches[j] == fetched[payload[j]]
  }

  /** `fetch_batches`: `payloads` are the digests of the sub-dag's certificates in order, `fetch` the worker. */
  method FetchBatches(leaderKnown: bool, payloads: seq<seq<Hash>>, fetch: set<Hash> -> Result<map<Hash, Batch>,
                      SubscriberError>,
                      digest: Hash, nonce: nat)
    returns (r: Result<ConsensusOutput, SubscriberError>)
    ensures var wanted := Flatten(payloads);
            var answer := fetch(set d | d in wanted);
            && (!leaderKnown <==> r == Err(UnexpectedAuthority))
            && (r.Ok? <==>
                  && leaderKnown
                  && (wanted == [] || (answer.Ok? && forall d :: d in wanted ==> d in answer.value)))
            && (r.Ok? ==> r.value.batchDigests == wanted && r.value.digest == digest && r.value.nonce == nonce)
            && (r.Ok? && wanted != [] ==> Matches(payloads, r.value.batches, answer.value))
            && (r.Ok? && wanted == [] ==> r.value.batches == [])
  {
    if !leaderKnown { return Err(UnexpectedAuthority); }
    var digests, batchSet := CollectDigests(payloads);
    if digests == [] { return Ok(ConsensusOutput([], [], digest, nonce)); }
    assert batchSet == (set d | d in Flatten(payloads));
    var answer := fetch(batchSet);
    if answer.Err? { return Err(ClientRequestsFailed); }
    var fetched := answer.value;
    var batches: seq<seq<Batch>> := [];
    var i := 0;
    while i < |payloads|
      invariant 0 <= i <= |payloads| && Matches(payloads[..i], batches, fetched)
    {
      var row := Row(payloads[i], fetched);
      if row.Err? {
        MissingBatch(payloads, i, fetched);
        return Err(ClientRequestsFailed);
      }
      assert payloads[..i + 1] == payloads[..i] + [payloads[i]];
      batches := batches + [row.value];
      i := i + 1;
    }
    assert payloads[..i] == payloads;
    AllFetched(payloads, batches, fetched);
    r := Ok(ConsensusOutput(batches, digests, digest, nonce));
  }

  method CollectDigests(payloads: seq<seq<Hash>>) returns (digests: seq<Hash>, batchSet: set<Hash>)
    ensures digests == Flatten(payloads) && forall d :: d in batchSet <==> d in digests
  {
    digests, batchSet := [], {};
    var i := 0;
    while i < |payloads|
      invariant 0 <= i <= |payloads| && digests == Flatten(payloads[..i])
      invariant forall d :: d in batchSet <==> d in digests
    {
      digests, batchSet := CollectPayload(payloads[i], digests, batchSet);
      FlattenSnoc(payloads[..i], payloads[i]);
      assert payloads[..i + 1] == payloads[..i] + [payloads[i]];
      i := i + 1;
    }
    assert payloads[..i] == payloads;
  }

  method CollectPayload(payload: seq<Hash>, digests: seq<Hash>, batchSet: set<Hash>)
    returns (digests': seq<Hash>, batchSet': set<Hash>)
    requires forall d :: d in batchSet <==> d in digests
    ensures digests' == digests + payload && forall d :: d in batchSet' <==> d in digests'
  {
    digests', batchSet' := digests, batchSet;
    var j := 0;
    while j < |payload|
      invariant 0 <= j <= |payload| && digests' == digests + payload[..j]
      invariant forall d :: d in batchSet' <==> d in digests'
    {
      digests', batchSet' := digests' + [payload[j]], batchSet' + {payload[j]};
      j := j + 1;
    }
  }

  method Row(payload: seq<Hash>, fetched: map<Hash, Batch>) returns (r: Result<seq<Batch>, SubscriberError>)
    ensures r.Ok? ==> RowMatches(payload, r.value, fetched)
    ensures r.Err? ==> exists d :: d in payload && d !in fetched
  {
    var batches := [];
    var j := 0;
    while j < |payload|
      invariant 0 <= j <= |payload| && RowMatches(payload[..j], batches, fetched)
    {
      if payload[j] !in fetched {
        assert payload[j] in payload;
        return Err(ClientRequestsFailed);
      }
      batches := batches + [fetched[payload[j]]];
      j := j + 1;
    }
    r := Ok(batches);
  }

  lemma {:induction false} InFlatten<T>(ss: seq<seq<T>>, i: nat, x: T)
    requires i < |ss| && x in ss[i]
    ensures x in Flatten(ss)
  {
    if i < |ss| - 1 { InFlatten(ss[..|ss| - 1], i, x); }
  }

  lemma MissingBatch(payloads: seq<seq<Hash>>, i: nat, fetched: map<Hash, Batch>)
    requires i < |payloads| && exists d :: d in payloads[i] && d !in fetched
    ensures exists d :: d in Flatten(payloads) && d !in fetched
  {
    var d :| d in payloads[i] && d !in fetched;
    InFlatten(payloads, i, d);
  }

  lemma {:induction false} AllFetched(payloads: seq<seq<Hash>>, batches: seq<seq<Batch>>, fetched: map<Hash, Batch>)
    requires Matches(payloads, batches, fetched)
    ensures RowMatches(Flatten(payloads), Flatten(batches), fetched)
    ensures forall d :: d in Flatten(payloads) ==> d in fetched
  {
    if payloads != [] {
      var n := |payloads| - 1;
      assert RowMatches(payloads[n], batches[n], fetched);
      assert forall i :: 0 <= i < n ==> RowMatches(payloads[i], batches[i], fetched);
      AllFetched(payloads[..n], batches[..n], fetched);
    }
  }

  // ---------- executing the output ----------

  /** A block is identified with its hash, so naming the parent is holding it. `index` is the header's
      difficulty, `batchDigest` its extra data and `consensusHash` its beacon root. */
  datatype Block =
    | Genesis(id: nat)
    | Block(parent: Block, number: nat, index: nat, batchDigest: Hash, mixHash: Hash, consensusHash: Hash, nonce: nat,
            content: nat)

  function NumberOf(b: Block): nat { if b.Genesis? then 0 else b.number }

  datatype EngineError = BuildFailed | NextBlockDigestMissing | CommitFailed

  /** Running a batch (or nothing) of an output on a parent and inserting the block, and making the last one
      canonical. The output, which supplies timestamp and beneficiary, is named by its digest and nonce. */
  datatype Evm = Evm(run: (Block, Option<Batch>, nat, Hash, nat) -> Option<nat>, commit: Block -> bool)

  function NextBlock(parent: Block, index: nat, batchDigest: Hash, mix: Hash, o: ConsensusOutput, content: nat): Block {
    Block(parent, NumberOf(parent) + 1, index, batchDigest, mix, o.digest, o.nonce, content)
  }

  /** `execute_consensus_output`, giving the blocks it inserted as well as its result. */
  method ExecuteConsensusOutput(evm: Evm, output: ConsensusOutput, parent: Block)
    returns (r: Result<Block, EngineError>, blocks: seq<Block>)
    ensures (r, blocks) == Execute(evm, output, parent)
  {
    var batches := Flatten(output.batches);
    if batches == [] {
      var content := evm.run(parent, None, 0, output.digest, output.nonce);
      if content.None? { return Err(BuildFailed), []; }
      var tip := NextBlock(parent, 0, ZERO, output.digest, output, content.value);
      r, blocks := Ok(tip), [tip];
    } else {
      r, blocks := BuildBlocks(evm, output, batches, parent);
    }
    if r.Ok? && !evm.commit(r.value) { r := Err(CommitFailed); }
  }

  /** The loop over an output's batches, each taking the next digest off the queue. */
  method BuildBlocks(evm: Evm, output: ConsensusOutput, batches: seq<Batch>, parent: Block)
    returns (r: Result<Block, EngineError>, blocks: seq<Block>)
    ensures (r, blocks) == BuildAll(evm, output, batches, parent)
  {
    var tip, digests := parent, output.batchDigests;
    blocks := [];
    var i := 0;
    while i < |batches|
      invariant 0 <= i <= |batches| && i <= |output.batchDigests|
      invariant digests == output.batchDigests[i..]
      invariant BuildAll(evm, output, batches[..i], parent) == (Ok(tip), blocks)
    {
      assert batches[..i + 1][..i] == batches[..i];
      if |digests| == 0 {
        StuckBuild(evm, output, batches, parent, i + 1);
        return Err(NextBlockDigestMissing), blocks;
      }
      var batchDigest := digests[0];
      digests := digests[1..];
      var content := evm.run(tip, Some(batches[i]), i, output.digest, output.nonce);
      if content.None? {
        StuckBuild(evm, output, batches, parent, i + 1);
        return Err(BuildFailed), blocks;
      }
      tip := NextBlock(tip, i, batchDigest, Xor(output.digest, batches[i].digest), output, content.value);
      blocks := blocks + [tip];
      i := i + 1;
    }
    assert batches[..i] == batches;
    r := Ok(tip);
  }

  function Tip(parent: Block, blocks: seq<Block>): Block { if blocks == [] then parent else blocks[|blocks| - 1] }

  /** The blocks built for a run of batches, stopping at the first that fails. */
  function BuildAll(evm: Evm, o: ConsensusOutput, batches: seq<Batch>, parent: Block)
    : (Result<Block, EngineError>, seq<Block>)
  {
    if batches == [] then (Ok(parent), [])
    else
      var i := |batches| - 1;
      var (r, blocks) := BuildAll(evm, o, batches[..i], parent);
      if r.Err? then (r, blocks)
      else if i >= |o.batchDigests| then (Err(NextBlockDigestMissing), blocks)
      else
        var content := evm.run(r.value, Some(batches[i]), i, o.digest, o.nonce);
        if content.None? then (Err(BuildFailed), blocks)
        else
          var b := NextBlock(r.value, i, o.batchDigests[i], Xor(o.digest, batches[i].digest), o, content.value);
          (Ok(b), blocks + [b])
  }

  lemma {:induction false} StuckBuild(evm: Evm, o: ConsensusOutput, batches: seq<Batch>, parent: Block, i: nat)
    requires i <= |batches| && BuildAll(evm, o, batches[..i], parent).0.Err?
    ensures BuildAll(evm, o, batches, parent) == BuildAll(evm, o, batches[..i], parent)
  {
    if i == |batches| {
      assert batches[..i] == batches;
    } else {
      var n := |batches| - 1;
      assert batches[..n][..i] == batches[..i];
      StuckBuild(evm, o, batches[..n], parent, i);
    }
  }

  function Execute(evm: Evm, o: ConsensusOutput, parent: Block): (Result<Block, EngineError>, seq<Block>) {
    var batches := Flatten(o.batches);
    var (r, blocks) :=
      if batches == [] then
        var content := evm.run(parent, None, 0, o.digest, o.nonce);
        if content.None? then (Err(BuildFailed), [])
        else
          var b := NextBlock(parent, 0, ZERO, o.digest, o, content.value);
          (Ok(b), [b])
      else BuildAll(evm, o, batches, parent);
    if r.Ok? && !evm.commit(r.value) then (Err(CommitFailed), blocks) else (r, blocks)
  }

  predicate ChainAt(parent: Block, blocks: seq<Block>, k: nat)
    requires k < |blocks|
  {
    var prev := if k == 0 then parent else blocks[k - 1];
    blocks[k].Block? && blocks[k].parent == prev && blocks[k].number == NumberOf(prev) + 1
  }

  /** `blocks` extend `parent` one by one, numbers rising by one. */
  ghost predicate ChainFrom(parent: Block, blocks: seq<Block>) {
    forall k {:trigger ChainAt(parent, blocks, k)} :: 0 <= k < |blocks| ==> ChainAt(parent, blocks, k)
  }

  /** Block `k` carries what the output says about its batch `k`, and was made by running that batch on the
      block's own parent. */
  ghost predicate CarriesAt(evm: Evm, o: ConsensusOutput, batches: seq<Batch>, b: Block, k: nat) {
    && k < |batches| && k < |o.batchDigests| && b.Block?
    && evm.run(b.parent, Some(batches[k]), k, o.digest, o.nonce) == Some(b.content)
    && b.index == k
    && b.batchDigest == o.batchDigests[k]
    && b.mixHash == Xor(o.digest, batches[k].digest)
    && b.consensusHash == o.digest && b.nonce == o.nonce
  }

  ghost predicate Carries(evm: Evm, o: ConsensusOutput, batches: seq<Batch>, blocks: seq<Block>) {
    forall k :: 0 <= k < |blocks| ==> CarriesAt(evm, o, batches, blocks[k], k)
  }

  /** Building stops where it must and nowhere else: with a block for every batch, or before the first batch
      that has no digest left or cannot be run on the last block. */
  ghost predicate StopsRightly(evm: Evm, o: ConsensusOutput, batches: seq<Batch>, parent: Block,
                               r: Result<Block, EngineError>, blocks: seq<Block>) {
    var n := |blocks|;
    && n <= |batches| && n <= |o.batchDigests| && r != Err(CommitFailed)
    && (r.Ok? <==> n == |batches|)
    && (r == Err(NextBlockDigestMissing) <==> n < |batches| && n == |o.batchDigests|)
    && (r == Err(BuildFailed) <==>
          && n < |batches| && n < |o.batchDigests|
          && evm.run(Tip(parent, blocks), Some(batches[n]), n, o.digest, o.nonce) == None)
  }

  lemma ChainSnoc(parent: Block, blocks: seq<Block>, b: Block)
    requires ChainFrom(parent, blocks) && b.Block?
    requires b.parent == Tip(parent, blocks) && b.number == NumberOf(b.parent) + 1
    ensures ChainFrom(parent, blocks + [b])
  {
    forall k | 0 <= k < |blocks + [b]| ensures ChainAt(parent, blocks + [b], k) {
      if k < |blocks| { assert ChainAt(parent, blocks, k); }
    }
  }

  lemma {:induction false} BuiltBlocks(evm: Evm, o: ConsensusOutput, batches: seq<Batch>, parent: Block)
    ensures var (r, blocks) := BuildAll(evm, o, batches, parent);
            && ChainFrom(parent, blocks) && Carries(evm, o, batches, blocks)
            && StopsRightly(evm, o, batches, parent, r, blocks)
            && (r.Ok? ==> r.value == Tip(parent, blocks))
  {
    if batches != [] {
      var n := |batches| - 1;
      BuiltBlocks(evm, o, batches[..n], parent);
      var (r, blocks) := BuildAll(evm, o, batches[..n], parent);
      forall k | 0 <= k < |blocks| ensures CarriesAt(evm, o, batches, blocks[k], k) {
        assert CarriesAt(evm, o, batches[..n], blocks[k], k);
      }
      var (r', blocks') := BuildAll(evm, o, batches, parent);
      if r'.Ok? { ChainSnoc(parent, blocks, r'.value); }
    }
  }

  /** The block of an output without batches: nothing was run on the parent. */
  ghost predicate CarriesNothing(evm: Evm, o: ConsensusOutput, b: Block) {
    && b.Block?
    && evm.run(b.parent, None, 0, o.digest, o.nonce) == Some(b.content)
    && b.index == 0 && b.batchDigest == ZERO && b.mixHash == o.digest
    && b.consensusHash == o.digest && b.nonce == o.nonce
  }

  /** How many blocks an output is to give. */
  function BlocksDue(o: ConsensusOutput): nat {
    var n := |Flatten(o.batches)|;
    if n == 0 then 1 else n
  }

  /** Execution ends where it must and nowhere else: with every block due and the tip accepted or refused, or
      before the first block that has no digest left or cannot be run on the last one. */
  ghost predicate EndsRightly(evm: Evm, o: ConsensusOutput, parent: Block, r: Result<Block, EngineError>,
                              blocks: seq<Block>) {
    var batches, n, tip := Flatten(o.batches), |blocks|, Tip(parent, blocks);
    && n <= BlocksDue(o)
    && (r.Ok? <==> n == BlocksDue(o) && evm.commit(tip)) && (r.Ok? ==> r.value == tip)
    && (r == Err(CommitFailed) <==> n == BlocksDue(o) && !evm.commit(tip))
    && (r == Err(NextBlockDigestMissing) <==> n < |batches| && n == |o.batchDigests|)
    && (r == Err(BuildFailed) <==>
          && n < BlocksDue(o) && (n < |batches| ==> n < |o.batchDigests|)
          && evm.run(tip, if batches == [] then None else Some(batches[n]), n, o.digest, o.nonce) == None)
  }

  /** However execution ends, the blocks inserted are one chain on the parent, and block `k` is what running
      batch `k` on its parent gives, with the digest, index and randomness of that batch. */
  lemma ExecutedBlocks(evm: Evm, o: ConsensusOutput, parent: Block)
    ensures var (r, blocks) := Execute(evm, o, parent);
            var batches := Flatten(o.batches);
            && ChainFrom(parent, blocks) && EndsRightly(evm, o, parent, r, blocks)
            && (batches != [] ==> Carries(evm, o, batches, blocks))
            && (batches == [] ==> forall b :: b in blocks ==> CarriesNothing(evm, o, b))
  {
    var batches := Flatten(o.batches);
    if batches != [] { BuiltBlocks(evm, o, batches, parent); }
  }

  /** The subscriber and the executor agree: an output gathered by `FetchBatches` never runs out of
      digests, and every block names the digest of the batch it executed. */
  lemma FetchedOutputExecutes(evm: Evm, o: ConsensusOutput, parent: Block, payloads: seq<seq<Hash>>,
                              fetched: map<Hash, Batch>)
    requires o.batchDigests == Flatten(payloads)
    requires Matches(payloads, o.batches, fetched) || (Flatten(payloads) == [] && o.batches == [])
    requires forall d :: d in fetched ==> fetched[d].digest == d
    ensures var (r, blocks) := Execute(evm, o, parent);
            && r != Err(NextBlockDigestMissing)
            && |Flatten(o.batches)| == |o.batchDigests|
            && (Flatten(payloads) != [] ==>
                  forall k :: 0 <= k < |blocks| ==> NamesItsBatch(evm, o, payloads, fetched, blocks[k], k))
  {
    if Matches(payloads, o.batches, fetched) { AllFetched(payloads, o.batches, fetched); }
    ExecutedBlocks(evm, o, parent);
    var (r, blocks) := Execute(evm, o, parent);
    if Flatten(payloads) != [] {
      forall k | 0 <= k < |blocks| ensures NamesItsBatch(evm, o, payloads, fetched, blocks[k], k) {
        assert CarriesAt(evm, o, Flatten(o.batches), blocks[k], k);
        var d := Flatten(payloads)[k];
        assert d in fetched && Flatten(o.batches)[k] == fetched[d];
      }
    }
  }

  /** Block `k` carries the `k`-th digest of the certificates' payloads, and executed the batch of that digest. */
  ghost predicate NamesItsBatch(evm: Evm, o: ConsensusOutput, payloads: seq<seq<Hash>>, fetched: map<Hash, Batch>,
                                b: Block, k: nat) {
    && k < |Flatten(payloads)| && k < |Flatten(o.batches)|
    && b.Block? && b.batchDigest == Flatten(payloads)[k] == Flatten(o.batches)[k].digest
    && b.batchDigest in fetched
    && evm.run(b.parent, Some(fetched[b.batchDigest]), k, o.digest, o.nonce) == Some(b.content)
  }

  /** Within one output the blocks' randomness is pairwise distinct exactly when the batches are. */
  lemma MixHashesDistinctIffBatches(evm: Evm, o: ConsensusOutput, parent: Block, j: nat, k: nat)
    requires Flatten(o.batches) != []
    requires var (r, blocks) := Execute(evm, o, parent); r.Ok? && j < |blocks| && k < |blocks|
    ensures var (r, blocks) := Execute(evm, o, parent);
            var batches := Flatten(o.batches);
            && |batches| == |blocks| && blocks[j].Block? && blocks[k].Block?
            && (blocks[j].mixHash == blocks[k].mixHash <==> batches[j].digest == batches[k].digest)
  {
    ExecutedBlocks(evm, o, parent);
    var batches := Flatten(o.batches);
    var (r, blocks) := Execute(evm, o, parent);
    assert CarriesAt(evm, o, batches, blocks[j], j) && CarriesAt(evm, o, batches, blocks[k], k);
    XorCancels(o.digest, batches[j].digest, batches[k].digest);
  }
}
