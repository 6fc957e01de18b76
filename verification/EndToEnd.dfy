/** From commits to blocks: when two nodes that run the whole pipeline execute the same chain.
    Source: crates/consensus/executor/src/subscriber.rs and crates/engine/src/lib.rs */
module EndToEnd {
  import opened Basics
  import opened Execution
  import opened Engines
  import BF = BatchFetchers
  import BM = BullsharkModel
  import B = Bullshark
  import CC = ConsensusChain
  import S = Subscribers

  // ---------- outputs that differ only in when batches were received ----------

  /** Executing a batch does not depend on when it was received. */
  ghost predicate IgnoresClock(evm: Evm) {
    forall p, b: Batch, c: Batch, i, d, n {:trigger evm.run(p, Some(b), i, d, n), evm.run(p, Some(c), i, d, n)} ::
      b.digest == c.digest ==> evm.run(p, Some(b), i, d, n) == evm.run(p, Some(c), i, d, n)
  }

  ghost predicate SameBatches(bs: seq<Batch>, cs: seq<Batch>) {
    |bs| == |cs| && forall k :: 0 <= k < |bs| ==> bs[k].digest == cs[k].digest
  }

  /** Equal but for when the batches were received. */
  ghost predicate Alike(o: ConsensusOutput, q: ConsensusOutput) {
    && o.digest == q.digest && o.nonce == q.nonce && o.batchDigests == q.batchDigests
    && SameBatches(Flatten(o.batches), Flatten(q.batches))
  }

  ghost predicate NamedBy(bs: seq<Batch>, ds: seq<Hash>) {
    |bs| == |ds| && forall k :: 0 <= k < |bs| ==> bs[k].digest == ds[k]
  }

  lemma NamedByJoin(bs: seq<Batch>, ds: seq<Hash>, cs: seq<Batch>, es: seq<Hash>)
    requires NamedBy(bs, ds) && NamedBy(cs, es)
    ensures NamedBy(bs + cs, ds + es)
  {}

  lemma {:induction false} BatchesOfDigests(payloads: seq<seq<Hash>>, fetched: BF.Batches)
    requires BF.KeyedByDigest(fetched) && forall d :: d in Flatten(payloads) ==> d in fetched
    ensures NamedBy(Flatten(S.AllBatches(payloads, fetched)), Flatten(payloads))
  {
    if payloads != [] {
      var n := |payloads| - 1;
      var rest, last := S.AllBatches(payloads[..n], fetched), S.BatchesFor(payloads[n], fetched);
      BatchesOfDigests(payloads[..n], fetched);
      FlattenSnoc(rest, last);
      assert NamedBy(last, payloads[n]);
      NamedByJoin(Flatten(rest), Flatten(payloads[..n]), last, payloads[n]);
    }
  }

  lemma BuiltBatches(nm: S.Naming, w: S.Pending, a: S.Answer)
    requires S.KeyedAnswer(a) && S.Built(nm, w, a).Some?
    ensures var o := S.Built(nm, w, a).value;
            NamedBy(Flatten(o.batches), o.batchDigests)
  {
    var payloads := S.Payloads(nm, w.subDag.certificates);
    if Flatten(payloads) != [] { BatchesOfDigests(payloads, a.batches.value); }
  }

  /** Two nodes build alike outputs for the same commit, whatever peers their batches came from. */
  lemma OutputsAreAlike(nm: S.Naming, w: S.Pending, a: S.Answer, b: S.Answer)
    requires S.KeyedAnswer(a) && S.KeyedAnswer(b) && S.Built(nm, w, a).Some? && S.Built(nm, w, b).Some?
    ensures Alike(S.Built(nm, w, a).value, S.Built(nm, w, b).value)
  {
    BuiltBatches(nm, w, a);
    BuiltBatches(nm, w, b);
  }

  lemma {:induction false} AlikeBuilds(evm: Evm, o: ConsensusOutput, q: ConsensusOutput, bs: seq<Batch>, cs: seq<Batch>,
                                       parent: Block)
    requires IgnoresClock(evm) && SameBatches(bs, cs)
    requires o.digest == q.digest && o.nonce == q.nonce && o.batchDigests == q.batchDigests
    ensures BuildAll(evm, o, bs, parent) == BuildAll(evm, q, cs, parent)
  {
    if bs != [] {
      var i := |bs| - 1;
      AlikeBuilds(evm, o, q, bs[..i], cs[..i], parent);
      var r := BuildAll(evm, o, bs[..i], parent).0;
      if r.Ok? {
        assert evm.run(r.value, Some(bs[i]), i, o.digest, o.nonce)
            == evm.run(r.value, Some(cs[i]), i, q.digest, q.nonce);
      }
    }
  }

  lemma AlikeExecutes(evm: Evm, o: ConsensusOutput, q: ConsensusOutput, parent: Block)
    requires IgnoresClock(evm) && Alike(o, q)
    ensures Execute(evm, o, parent) == Execute(evm, q, parent)
  {
    AlikeBuilds(evm, o, q, Flatten(o.batches), Flatten(q.batches), parent);
  }

  lemma {:induction false} AlikeChains(evm: Evm, os: seq<ConsensusOutput>, qs: seq<ConsensusOutput>, first: Block)
    requires IgnoresClock(evm) && |os| == |qs| && forall i :: 0 <= i < |os| ==> Alike(os[i], qs[i])
    ensures ExecuteAll(Executing(evm), os, first) == ExecuteAll(Executing(evm), qs, first)
    ensures BlocksOf(evm, os, first) == BlocksOf(evm, qs, first)
  {
    if os != [] {
      var n := |os| - 1;
      AlikeChains(evm, os[..n], qs[..n], first);
      var r := ExecuteAll(Executing(evm), os[..n], first);
      if r.Ok? { AlikeExecutes(evm, os[n], qs[n], r.value); }
    }
  }

  // ---------- blocks tell outputs apart ----------

  lemma {:induction false} BlocksGrow(evm: Evm, os: seq<ConsensusOutput>, first: Block, n: nat)
    requires n <= |os|
    ensures BlocksOf(evm, os[..n], first) <= BlocksOf(evm, os, first)
    ensures ExecuteAll(Executing(evm), os, first).Ok? ==> ExecuteAll(Executing(evm), os[..n], first).Ok?
  {
    if n == |os| {
      assert os[..n] == os;
    } else {
      var m := |os| - 1;
      BlocksGrow(evm, os[..m], first, n);
      assert os[..m][..n] == os[..n];
    }
  }

  /** The first block an output adds carries that output's consensus header hash. */
  lemma FirstBlockOf(evm: Evm, os: seq<ConsensusOutput>, first: Block, j: nat)
    requires j < |os| && ExecuteAll(Executing(evm), os, first).Ok?
    ensures var p := |BlocksOf(evm, os[..j], first)|;
            var blocks := BlocksOf(evm, os, first);
            p < |blocks| && blocks[p].Block? && blocks[p].consensusHash == os[j].digest
  {
    BlocksGrow(evm, os, first, j);
    BlocksGrow(evm, os, first, j + 1);
    assert os[..j + 1][..j] == os[..j];
    var parent := ExecuteAll(Executing(evm), os[..j], first).value;
    ExecutedBlocks(evm, os[j], parent);
    var blocks := Execute(evm, os[j], parent).1;
    if Flatten(os[j].batches) != [] { assert CarriesAt(evm, os[j], Flatten(os[j].batches), blocks[0], 0); }
    assert BlocksOf(evm, os[..j + 1], first) == BlocksOf(evm, os[..j], first) + blocks;
  }

  /** Two lists of outputs that part company execute to chains neither of which continues the other. */
  lemma PartingForks(evm: Evm, xs: seq<ConsensusOutput>, ys: seq<ConsensusOutput>, first: Block, j: nat)
    requires IgnoresClock(evm) && j < |xs| && j < |ys| && xs[j].digest != ys[j].digest
    requires forall i :: 0 <= i < j ==> Alike(xs[i], ys[i])
    requires ExecuteAll(Executing(evm), xs, first).Ok? && ExecuteAll(Executing(evm), ys, first).Ok?
    ensures !(BlocksOf(evm, xs, first) <= BlocksOf(evm, ys, first))
  {
    FirstBlockOf(evm, xs, first, j);
    FirstBlockOf(evm, ys, first, j);
    AlikeChains(evm, xs[..j], ys[..j], first);
  }

  // ---------- which outputs were dropped ----------

  /** The number of commits up to and including the `n`-th one sent. */
  function EndOf(outcomes: seq<bool>, n: nat): nat
    requires n <= |S.Kept(outcomes)|
  {
    if n == 0 then 0 else S.Kept(outcomes)[n - 1] + 1
  }

  /** Of the first `end` commits the same outputs were dropped. */
  predicate SameDrops(a: seq<bool>, b: seq<bool>, end: nat) {
    end <= |a| && end <= |b| && forall i :: 0 <= i < end ==> a[i] == b[i]
  }

  lemma {:induction false} KeptPrefix(outcomes: seq<bool>, e: nat)
    requires e <= |outcomes|
    ensures S.Kept(outcomes[..e]) <= S.Kept(outcomes)
  {
    if e == |outcomes| {
      assert outcomes[..e] == outcomes;
    } else {
      var n := |outcomes| - 1;
      KeptPrefix(outcomes[..n], e);
      assert outcomes[..n][..e] == outcomes[..e];
    }
  }

  lemma LastKept(outcomes: seq<bool>, e: nat)
    requires 0 < e <= |outcomes| && outcomes[e - 1]
    ensures var upTo := S.Kept(outcomes[..e]); upTo != [] && upTo[|upTo| - 1] == e - 1
  {
    assert outcomes[..e][..e - 1] == outcomes[..e - 1];
  }

  /** In a rising list the position of an element is its own. */
  lemma KeptOnce(outcomes: seq<bool>, i: nat, j: nat)
    requires i < |S.Kept(outcomes)| && j < |S.Kept(outcomes)| && S.Kept(outcomes)[i] == S.Kept(outcomes)[j]
    ensures i == j
  {
    S.KeptFacts(outcomes, i);
    S.KeptFacts(outcomes, j);
  }

  lemma KeptUpTo(outcomes: seq<bool>, n: nat)
    requires n <= |S.Kept(outcomes)|
    ensures EndOf(outcomes, n) <= |outcomes| && S.Kept(outcomes[..EndOf(outcomes, n)]) == S.Kept(outcomes)[..n]
  {
    var e := EndOf(outcomes, n);
    if n > 0 {
      S.KeptFacts(outcomes, n - 1);
      var upTo := S.Kept(outcomes[..e]);
      KeptPrefix(outcomes, e);
      LastKept(outcomes, e);
      KeptOnce(outcomes, |upTo| - 1, n - 1);
    } else {
      assert outcomes[..0] == [];
    }
  }

  lemma KeptAgreeIff(a: seq<bool>, b: seq<bool>, n: nat)
    requires n <= |S.Kept(a)| && n <= |S.Kept(b)|
    ensures S.Kept(a)[..n] == S.Kept(b)[..n] <==> SameDrops(a, b, EndOf(a, n))
  {
    var e := EndOf(a, n);
    KeptUpTo(a, n);
    KeptUpTo(b, n);
    if S.Kept(a)[..n] == S.Kept(b)[..n] {
      assert n > 0 ==> S.Kept(a)[..n][n - 1] == S.Kept(b)[..n][n - 1];
      assert EndOf(b, n) == e;
      forall i | 0 <= i < e ensures a[i] == b[i] {
        S.InKept(a[..e], i);
        S.InKept(b[..e], i);
      }
    }
    if SameDrops(a, b, e) {
      assert a[..e] == b[..e];
      KeptPrefix(b, e);
    }
  }

  // ---------- the pipeline ----------

  /** A node: its Bullshark state, its subscriber and how many outputs it has executed. */
  datatype Node = Node(consensus: B.State, sub: S.State, executed: nat)

  function Executed(n: Node): seq<ConsensusOutput>
    requires n.executed <= |n.sub.sent|
  {
    n.sub.sent[..n.executed]
  }

  /** The subscriber has been handed commits in order, from the same start. */
  ghost predicate ValidNode(cfg: BM.Config, u: set<BM.Cert>, nm: S.Naming, start: CC.ConsensusHeader, n: Node) {
    && B.ValidState(cfg, u, n.consensus) && S.InOrder(nm, start, n.sub)
    && n.sub.arrived <= n.consensus.committed && n.executed <= |n.sub.sent|
  }

  ghost predicate SentInTurn(nm: S.Naming, start: CC.ConsensusHeader, n: Node) {
    S.SentFor(nm, start, n.sub.arrived, n.sub.outcomes, n.sub.sent)
  }

  /** The consensus header hashes along a list of commits are distinct. */
  ghost predicate NoCollision(nm: S.Naming, start: CC.ConsensusHeader, h: seq<BM.SubDag>) {
    forall i, j :: 0 <= i < j <= |h| ==> HashAt(nm, start, h, i) != HashAt(nm, start, h, j)
  }

  function HashAt(nm: S.Naming, start: CC.ConsensusHeader, h: seq<BM.SubDag>, i: nat): Hash
    requires i <= |h|
  {
    nm.hash(CC.DigestOf(S.HeaderOf(nm, start, h[..i])))
  }

  lemma OutputHash(nm: S.Naming, start: CC.ConsensusHeader, h: seq<BM.SubDag>, g: seq<BM.SubDag>, k: nat,
                   o: ConsensusOutput)
    requires S.IsOutput(nm, start, h, k, o) && h <= g
    ensures k < |g| && o.digest == HashAt(nm, start, g, k + 1)
  {
    S.HeaderOfPending(nm, start, h, k);
    assert g[..k + 1] == h[..k + 1];
  }

  lemma SameCommitAlike(nm: S.Naming, start: CC.ConsensusHeader, g: seq<BM.SubDag>, h: seq<BM.SubDag>, k: nat,
                        o: ConsensusOutput, q: ConsensusOutput)
    requires S.IsOutput(nm, start, g, k, o) && S.IsOutput(nm, start, h, k, q) && (g <= h || h <= g)
    ensures Alike(o, q)
  {
    assert g[..k] == h[..k] && g[k] == h[k];
    var a :| S.KeyedAnswer(a) && S.Built(nm, S.PendingAt(nm, start, g, k), a) == Some(o);
    var b :| S.KeyedAnswer(b) && S.Built(nm, S.PendingAt(nm, start, h, k), b) == Some(q);
    OutputsAreAlike(nm, S.PendingAt(nm, start, g, k), a, b);
  }

  lemma {:induction false} FirstDifference(xs: seq<nat>, ys: seq<nat>, n: nat) returns (j: nat)
    requires n <= |xs| && n <= |ys| && xs[..n] != ys[..n]
    ensures j < n && xs[j] != ys[j] && forall i :: 0 <= i < j ==> xs[i] == ys[i]
  {
    var m := n - 1;
    if xs[..m] != ys[..m] {
      j := FirstDifference(xs, ys, m);
    } else {
      j := m;
      assert xs[..n] == xs[..m] + [xs[m]] && ys[..n] == ys[..m] + [ys[m]];
      forall i | 0 <= i < m ensures xs[i] == ys[i] { assert xs[..m][i] == ys[..m][i]; }
    }
  }

  lemma CommitsComparable(cfg: BM.Config, u: set<BM.Cert>, nm: S.Naming, start: CC.ConsensusHeader, a: Node, b: Node)
    requires ValidNode(cfg, u, nm, start, a) && ValidNode(cfg, u, nm, start, b)
    ensures a.consensus.committed <= b.consensus.committed || b.consensus.committed <= a.consensus.committed
    ensures a.sub.arrived <= b.sub.arrived || b.sub.arrived <= a.sub.arrived
  {
    B.NodesAgree(cfg, u, a.consensus, b.consensus);
  }

  /** Both ran to the end without a failing block, and header hashes along their commits do not collide. */
  ghost predicate Comparable(nm: S.Naming, start: CC.ConsensusHeader, a: Node, b: Node, evm: Evm, first: Block) {
    && NoCollision(nm, start, a.consensus.committed) && NoCollision(nm, start, b.consensus.committed)
    && IgnoresClock(evm) && a.executed <= |a.sub.sent| && b.executed <= |b.sub.sent|
    && ExecuteAll(Executing(evm), Executed(a), first).Ok? && ExecuteAll(Executing(evm), Executed(b), first).Ok?
  }

  /** For two nodes that order certificates of one world with Bullshark, number and link the commits, fetch
      the batches and execute them from one first block: the chain of the node that executed fewer outputs
      is a prefix of the other's exactly when, up to its end, both dropped the same outputs. */
  lemma ExecutedChainsAgreeIff(cfg: BM.Config, u: set<BM.Cert>, nm: S.Naming, start: CC.ConsensusHeader,
                               a: Node, b: Node, evm: Evm, first: Block)
    requires ValidNode(cfg, u, nm, start, a) && ValidNode(cfg, u, nm, start, b) && a.executed <= b.executed
    requires Comparable(nm, start, a, b, evm, first)
    ensures BlocksOf(evm, Executed(a), first) <= BlocksOf(evm, Executed(b), first)
            <==> SameDrops(a.sub.outcomes, b.sub.outcomes, EndOf(a.sub.outcomes, a.executed))
  {
    CommitsComparable(cfg, u, nm, start, a, b);
    KeptAgreeIff(a.sub.outcomes, b.sub.outcomes, a.executed);
    ChainsAgreeIffKept(nm, start, a, b, evm, first);
  }

  lemma ChainsAgreeIffKept(nm: S.Naming, start: CC.ConsensusHeader, a: Node, b: Node, evm: Evm, first: Block)
    requires SentInTurn(nm, start, a) && SentInTurn(nm, start, b) && a.executed <= b.executed
    requires a.sub.arrived <= a.consensus.committed && b.sub.arrived <= b.consensus.committed
    requires a.consensus.committed <= b.consensus.committed || b.consensus.committed <= a.consensus.committed
    requires a.sub.arrived <= b.sub.arrived || b.sub.arrived <= a.sub.arrived
    requires Comparable(nm, start, a, b, evm, first)
    ensures BlocksOf(evm, Executed(a), first) <= BlocksOf(evm, Executed(b), first)
            <==> S.Kept(a.sub.outcomes)[..a.executed] == S.Kept(b.sub.outcomes)[..a.executed]
  {
    if S.Kept(a.sub.outcomes)[..a.executed] == S.Kept(b.sub.outcomes)[..a.executed] {
      SameKeptSameBlocks(nm, start, a, b, evm, first);
    } else {
      var j := FirstDifference(S.Kept(a.sub.outcomes), S.Kept(b.sub.outcomes), a.executed);
      DifferentKeptFork(nm, start, a, b, evm, first, j);
    }
  }

  lemma AlikeAt(nm: S.Naming, start: CC.ConsensusHeader, a: Node, b: Node, i: nat)
    requires SentInTurn(nm, start, a) && SentInTurn(nm, start, b)
    requires a.sub.arrived <= b.sub.arrived || b.sub.arrived <= a.sub.arrived
    requires i < |a.sub.sent| && i < |b.sub.sent| && S.Kept(a.sub.outcomes)[i] == S.Kept(b.sub.outcomes)[i]
    ensures Alike(a.sub.sent[i], b.sub.sent[i])
  {
    SameCommitAlike(nm, start, a.sub.arrived, b.sub.arrived, S.Kept(a.sub.outcomes)[i], a.sub.sent[i], b.sub.sent[i]);
  }

  lemma SameKeptSameBlocks(nm: S.Naming, start: CC.ConsensusHeader, a: Node, b: Node, evm: Evm, first: Block)
    requires SentInTurn(nm, start, a) && SentInTurn(nm, start, b) && IgnoresClock(evm)
    requires a.sub.arrived <= b.sub.arrived || b.sub.arrived <= a.sub.arrived
    requires a.executed <= b.executed && a.executed <= |a.sub.sent| && b.executed <= |b.sub.sent|
    requires S.Kept(a.sub.outcomes)[..a.executed] == S.Kept(b.sub.outcomes)[..a.executed]
    ensures BlocksOf(evm, Executed(a), first) <= BlocksOf(evm, Executed(b), first)
  {
    var n, xs, ys := a.executed, Executed(a), Executed(b);
    forall i | 0 <= i < n ensures Alike(xs[i], ys[..n][i]) {
      assert S.Kept(a.sub.outcomes)[..n][i] == S.Kept(b.sub.outcomes)[..n][i];
      AlikeAt(nm, start, a, b, i);
    }
    AlikeChains(evm, xs, ys[..n], first);
    BlocksGrow(evm, ys, first, n);
  }

  lemma DifferentKeptFork(nm: S.Naming, start: CC.ConsensusHeader, a: Node, b: Node, evm: Evm, first: Block, j: nat)
    requires SentInTurn(nm, start, a) && SentInTurn(nm, start, b) && Comparable(nm, start, a, b, evm, first)
    requires j < a.executed && j < b.executed
    requires a.sub.arrived <= a.consensus.committed && b.sub.arrived <= b.consensus.committed
    requires a.consensus.committed <= b.consensus.committed || b.consensus.committed <= a.consensus.committed
    requires forall i :: 0 <= i < j ==> S.Kept(a.sub.outcomes)[i] == S.Kept(b.sub.outcomes)[i]
    requires S.Kept(a.sub.outcomes)[j] != S.Kept(b.sub.outcomes)[j]
    ensures !(BlocksOf(evm, Executed(a), first) <= BlocksOf(evm, Executed(b), first))
  {
    var xs, ys := Executed(a), Executed(b);
    var longer :=
      if |a.consensus.committed| <= |b.consensus.committed| then b.consensus.committed else a.consensus.committed;
    var k, l := S.Kept(a.sub.outcomes)[j], S.Kept(b.sub.outcomes)[j];
    OutputHash(nm, start, a.sub.arrived, longer, k, xs[j]);
    OutputHash(nm, start, b.sub.arrived, longer, l, ys[j]);
    forall i | 0 <= i < j ensures Alike(xs[i], ys[i]) {
      AlikeAt(nm, start, a, b, i);
    }
    PartingForks(evm, xs, ys, first, j);
  }

  /** In particular the chains agree when no fetch up to the shorter one's end failed at either node. */
  lemma ExecutedChainsAgree(cfg: BM.Config, u: set<BM.Cert>, nm: S.Naming, start: CC.ConsensusHeader,
                            a: Node, b: Node, evm: Evm, first: Block)
    requires ValidNode(cfg, u, nm, start, a) && ValidNode(cfg, u, nm, start, b) && a.executed <= b.executed
    requires IgnoresClock(evm)
    requires S.NoneDropped(a.sub.outcomes) && S.NoneDropped(b.sub.outcomes)
    ensures BlocksOf(evm, Executed(a), first) <= BlocksOf(evm, Executed(b), first)
  {
    B.NodesAgree(cfg, u, a.consensus, b.consensus);
    NoneDroppedKept(a.sub.outcomes);
    NoneDroppedKept(b.sub.outcomes);
    SameKeptSameBlocks(nm, start, a, b, evm, first);
  }

  lemma {:induction false} NoneDroppedKept(outcomes: seq<bool>)
    requires S.NoneDropped(outcomes)
    ensures forall i :: 0 <= i < |S.Kept(outcomes)| ==> S.Kept(outcomes)[i] == i
    ensures outcomes != [] && outcomes[|outcomes| - 1] ==> |S.Kept(outcomes)| == |outcomes|
  {
    if outcomes != [] {
      var n := |outcomes| - 1;
      NoneDroppedKept(outcomes[..n]);
      if outcomes[n] && n > 0 { assert outcomes[n - 1]; }
    }
  }

  /** The outcomes of the run in which one node's second fetch fails, against those of a node where none does. */
  lemma FailedFetchDiffers()
    ensures S.Kept([true, false, true]) == [0, 2] && S.Kept([true, true, true]) == [0, 1, 2]
    ensures EndOf([true, false, true], 2) == 3 && !SameDrops([true, false, true], [true, true, true], 3)
  {
    assert [true, false, true][..2] == [true, false] && [true, false][..1] == [true] && [true][..0] == [];
    assert [true, true, true][..2] == [true, true] && [true, true][..1] == [true];
    assert S.Kept([true]) == [0];
    assert S.Kept([true, false]) == [0] && S.Kept([true, true]) == [0, 1];
    assert [true, false, true][1] != [true, true, true][1];
  }

  /** Two such nodes, each with two outputs executed, have chains neither of which continues the other. */
  lemma FailedFetchForks(cfg: BM.Config, u: set<BM.Cert>, nm: S.Naming, start: CC.ConsensusHeader,
                         a: Node, b: Node, evm: Evm, first: Block)
    requires ValidNode(cfg, u, nm, start, a) && ValidNode(cfg, u, nm, start, b)
    requires a.executed == b.executed == 2 && Comparable(nm, start, a, b, evm, first)
    requires a.sub.outcomes == [true, false, true] && b.sub.outcomes == [true, true, true]
    ensures !(BlocksOf(evm, Executed(a), first) <= BlocksOf(evm, Executed(b), first))
    ensures !(BlocksOf(evm, Executed(b), first) <= BlocksOf(evm, Executed(a), first))
  {
    FailedFetchDiffers();
    ExecutedChainsAgreeIff(cfg, u, nm, start, a, b, evm, first);
    ExecutedChainsAgreeIff(cfg, u, nm, start, b, a, evm, first);
  }
}
