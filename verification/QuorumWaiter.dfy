/** The worker's quorum waiter: counting stake while peers answer in any order.
    Source: crates/consensus/worker/src/quorum_waiter.rs */
module QuorumWaiters {
  import opened Basics

  datatype Answer = Acked | Rejected | NetworkFailed

  /** A peer's stake and how its request ended, in the order the answers come in. */
  datatype Response = Response(stake: nat, answer: Answer)

  datatype QuorumError = AntiQuorum | QuorumRejected | Timeout

  function StakeOf(rs: seq<Response>): nat {
    if rs == [] then 0 else StakeOf(rs[..|rs| - 1]) + rs[|rs| - 1].stake
  }

  function StakeThat(rs: seq<Response>, a: Answer): nat {
    if rs == [] then 0 else StakeThat(rs[..|rs| - 1], a) + if rs[|rs| - 1].answer == a then rs[|rs| - 1].stake else 0
  }

  const WORD: nat := 0x1_0000_0000_0000_0000

  /** `max_rejected_stake` and the running `rejected_stake`, in 64-bit arithmetic that wraps around: the
      latter starts at zero and the stake of each rejection is subtracted from it. */
  function MaxRejected(available: nat, threshold: nat): nat { (available - threshold) % WORD }

  function RejectedWord(rejected: nat): nat { (0 - rejected) % WORD }

  /** The peers can no longer lift the stake to the threshold, whatever the outstanding ones answer. */
  ghost predicate OutOfReach(own: nat, threshold: nat, answered: seq<Response>, outstanding: seq<Response>) {
    own + StakeThat(answered, Acked) + StakeOf(outstanding) < threshold
  }

  /** The stake acknowledged or still outstanding: the source's `available_stake`. */
  function Available(rs: seq<Response>, k: nat): nat
    requires k <= |rs|
  {
    StakeThat(rs[..k], Acked) + StakeOf(rs[k..])
  }

  // ---------- when the loop stops ----------

  predicate QuorumAt(own: nat, threshold: nat, rs: seq<Response>, k: nat)
    requires k <= |rs|
  {
    k > 0 && rs[k - 1].answer == Acked && own + StakeThat(rs[..k], Acked) >= threshold
  }

  predicate RejectedAt(threshold: nat, rs: seq<Response>, k: nat)
    requires k <= |rs|
  {
    k > 0 && RejectedWord(StakeThat(rs[..k], Rejected)) > MaxRejected(StakeOf(rs), threshold)
  }

  predicate AntiQuorumAt(own: nat, threshold: nat, rs: seq<Response>, k: nat)
    requires k <= |rs|
  {
    k > 0 && own + StakeThat(rs[..k], Acked) + Available(rs, k) < threshold
  }

  predicate StopsAt(own: nat, threshold: nat, rs: seq<Response>, k: nat)
    requires k <= |rs|
  {
    QuorumAt(own, threshold, rs, k) || RejectedAt(threshold, rs, k) || AntiQuorumAt(own, threshold, rs, k)
  }

  /** After `k` answers the loop goes on: no exit, and no timeout. */
  predicate GoesOn(own: nat, threshold: nat, rs: seq<Response>, timeoutAt: Option<nat>, k: nat)
    requires k <= |rs|
  {
    timeoutAt != Some(k) && !StopsAt(own, threshold, rs, k)
  }

  /** The loop takes in `k` answers. */
  ghost predicate Reaches(own: nat, threshold: nat, rs: seq<Response>, timeoutAt: Option<nat>, k: nat)
    requires k <= |rs|
  {
    forall j {:trigger GoesOn(own, threshold, rs, timeoutAt, j)} ::
      0 <= j < k ==> GoesOn(own, threshold, rs, timeoutAt, j)
  }

  /** The run ends after `k` answers with `r`: each exit at the first count that meets its guard, quorum
      before rejection before anti-quorum, the timeout and the end of the answers last. */
  ghost predicate Ends(own: nat, threshold: nat, rs: seq<Response>, timeoutAt: Option<nat>, k: nat,
                       r: Result<(), QuorumError>)
  {
    && k <= |rs| && Reaches(own, threshold, rs, timeoutAt, k)
    && match r
       case Ok(_) => QuorumAt(own, threshold, rs, k)
       case Err(QuorumRejected) => !QuorumAt(own, threshold, rs, k) && RejectedAt(threshold, rs, k)
       case Err(AntiQuorum) =>
         && !QuorumAt(own, threshold, rs, k) && !RejectedAt(threshold, rs, k)
         && (AntiQuorumAt(own, threshold, rs, k) || (k == |rs| && timeoutAt != Some(k)))
       case Err(Timeout) => !StopsAt(own, threshold, rs, k) && timeoutAt == Some(k)
  }

  /** A run has one end, so each clause of `Ends` is the exact condition of its exit. */
  lemma EndsOnce(own: nat, threshold: nat, rs: seq<Response>, timeoutAt: Option<nat>,
                 k: nat, r: Result<(), QuorumError>, k': nat, r': Result<(), QuorumError>)
    requires Ends(own, threshold, rs, timeoutAt, k, r) && Ends(own, threshold, rs, timeoutAt, k', r')
    ensures k == k' && r == r'
  {
    assert k < k' ==> GoesOn(own, threshold, rs, timeoutAt, k);
    assert k' < k ==> GoesOn(own, threshold, rs, timeoutAt, k');
    if r.Ok? && r'.Ok? { assert r.value == () && r'.value == (); }
  }

  /** The loop of `verify_batch` over the answers. `timeoutAt` is how many come in before the timeout, if it
      strikes; `i` counts the answers taken in. */
  method VerifyBatch(own: nat, threshold: nat, responses: seq<Response>, timeoutAt: Option<nat>)
    returns (r: Result<(), QuorumError>, i: nat)
    ensures Ends(own, threshold, responses, timeoutAt, i, r)
  {
    var available := StakeOf(responses);
    var rejected, total := 0, own;
    var maxRejected := MaxRejected(available, threshold);
    i := 0;
    assert responses[..0] == [] && responses[0..] == responses;
    while true
      invariant 0 <= i <= |responses| && Reaches(own, threshold, responses, timeoutAt, i)
      invariant !StopsAt(own, threshold, responses, i)
      invariant total == own + StakeThat(responses[..i], Acked)
      invariant rejected == RejectedWord(StakeThat(responses[..i], Rejected))
      invariant available == Available(responses, i)
      decreases |responses| - i
    {
      if timeoutAt == Some(i) { return Err(Timeout), i; }
      if i == |responses| { return Err(AntiQuorum), i; }
      assert GoesOn(own, threshold, responses, timeoutAt, i);
      Counts(responses, i);
      var response := responses[i];
      i := i + 1;
      match response.answer {
        case Acked =>
          total := total + response.stake;
          if total >= threshold { return Ok(()), i; }
        case Rejected =>
          rejected := (rejected - response.stake) % WORD;
          available := available - response.stake;
        case NetworkFailed =>
          available := available - response.stake;
      }
      if rejected > maxRejected { return Err(QuorumRejected), i; }
      if total + available < threshold { return Err(AntiQuorum), i; }
    }
  }

  // ---------- what the answers mean ----------

  /** With its own stake below the threshold, the waiter answers Ok only with the threshold acknowledged and
      anti-quorum only when it is out of reach. */
  lemma AnswersAreSound(own: nat, threshold: nat, rs: seq<Response>, timeoutAt: Option<nat>, k: nat,
                        r: Result<(), QuorumError>)
    requires Ends(own, threshold, rs, timeoutAt, k, r)
    ensures r.Ok? ==> own + StakeThat(rs[..k], Acked) >= threshold
    ensures r == Err(AntiQuorum) && own < threshold ==> OutOfReach(own, threshold, rs[..k], rs[k..])
  {
    if r == Err(AntiQuorum) && own < threshold {
      BelowUntilQuorum(own, threshold, rs, timeoutAt, k);
      if k == |rs| { assert rs[k..] == []; }
    }
  }

  lemma {:induction false} BelowUntilQuorum(own: nat, threshold: nat, rs: seq<Response>, timeoutAt: Option<nat>, k: nat)
    requires k <= |rs| && Reaches(own, threshold, rs, timeoutAt, k)
    requires !QuorumAt(own, threshold, rs, k) && own < threshold
    ensures own + StakeThat(rs[..k], Acked) < threshold
  {
    if k > 0 {
      assert GoesOn(own, threshold, rs, timeoutAt, k - 1);
      BelowUntilQuorum(own, threshold, rs, timeoutAt, k - 1);
      OneMore(rs, k - 1);
    }
  }

  /** Without a timeout and without rejected stake, Ok is answered exactly when enough stake acknowledges. */
  lemma OkIffEnoughAcks(own: nat, threshold: nat, rs: seq<Response>, k: nat, r: Result<(), QuorumError>)
    requires Ends(own, threshold, rs, None, k, r) && own < threshold && StakeThat(rs, Rejected) == 0
    ensures r.Ok? <==> own + StakeThat(rs, Acked) >= threshold
  {
    AnswersAreSound(own, threshold, rs, None, k, r);
    Split(rs, k, Acked);
    Split(rs, k, Rejected);
    AtMost(rs[k..], Acked);
  }

  /** What one more answer does to the counters. */
  lemma Counts(rs: seq<Response>, i: nat)
    requires i < |rs|
    ensures var stake, acked := rs[i].stake, rs[i].answer == Acked;
            && StakeThat(rs[..i + 1], Acked) == StakeThat(rs[..i], Acked) + (if acked then stake else 0)
            && Available(rs, i) == Available(rs, i + 1) + (if acked then 0 else stake)
            && RejectedWord(StakeThat(rs[..i + 1], Rejected))
               == if rs[i].answer == Rejected then (RejectedWord(StakeThat(rs[..i], Rejected)) - stake) % WORD
                  else RejectedWord(StakeThat(rs[..i], Rejected))
  {
    OneMore(rs, i);
    RejectedStep(StakeThat(rs[..i], Rejected), rs[i].stake);
  }

  lemma RejectedStep(rejected: nat, stake: nat)
    ensures (RejectedWord(rejected) - stake) % WORD == RejectedWord(rejected + stake)
  {}

  lemma {:induction false} Split(rs: seq<Response>, i: nat, a: Answer)
    requires i <= |rs|
    ensures StakeThat(rs, a) == StakeThat(rs[..i], a) + StakeThat(rs[i..], a)
  {
    if i == |rs| {
      assert rs[..i] == rs;
    } else {
      var n := |rs| - 1;
      Split(rs[..n], i, a);
      assert rs[..n][..i] == rs[..i] && rs[..n][i..] == rs[i..][..n - i];
    }
  }

  lemma {:induction false} AtMost(rs: seq<Response>, a: Answer)
    ensures StakeThat(rs, a) <= StakeOf(rs)
  {
    if rs != [] { AtMost(rs[..|rs| - 1], a); }
  }

  lemma {:induction false} StakeFront(rs: seq<Response>)
    requires rs != []
    ensures StakeOf(rs) == rs[0].stake + StakeOf(rs[1..])
  {
    if |rs| > 1 {
      var n := |rs| - 1;
      assert rs[..n][1..] == rs[1..][..n - 1];
      StakeFront(rs[..n]);
    }
  }

  lemma OneMore(rs: seq<Response>, i: nat)
    requires i < |rs|
    ensures StakeOf(rs[i..]) == rs[i].stake + StakeOf(rs[i + 1..])
    ensures forall a ::
              StakeThat(rs[..i + 1], a) == StakeThat(rs[..i], a) + if rs[i].answer == a then rs[i].stake else 0
  {
    assert rs[i..][1..] == rs[i + 1..];
    StakeFront(rs[i..]);
    assert rs[..i + 1][..i] == rs[..i];
  }

  /** When the rejection exit is taken, for stakes below half the word: as soon as any stake was rejected,
      unless the peers' stake falls short of the threshold by no more than what was rejected. */
  lemma RejectionExit(rejected: nat, available: nat, threshold: nat)
    requires 2 * rejected < WORD && 2 * available < WORD && 2 * threshold < WORD
    ensures RejectedWord(rejected) > MaxRejected(available, threshold)
            <==> rejected > 0 && (available >= threshold || rejected < threshold - available)
  {
    if rejected > 0 { assert RejectedWord(rejected) == WORD - rejected; }
    if available < threshold { assert MaxRejected(available, threshold) == WORD + available - threshold; }
  }

  /** The four kinds of stake after `k` answers make up all of it. */
  lemma {:induction false} StakeParts(rs: seq<Response>, k: nat)
    requires k <= |rs|
    ensures StakeOf(rs) == Available(rs, k) + StakeThat(rs[..k], Rejected) + StakeThat(rs[..k], NetworkFailed)
  {
    if k == 0 {
      assert rs[..0] == [] && rs[0..] == rs;
    } else {
      StakeParts(rs, k - 1);
      OneMore(rs, k - 1);
    }
  }

  /** When the rejection exit is premature, for stakes below half the word: a run that comes to `k` answers
      without quorum ends there as rejected, with the threshold still reachable, exactly when some stake
      was rejected, the peers' stake does not fall short of the threshold by that much, and own stake with
      what is neither rejected nor failed still makes the threshold. */
  lemma RejectedWhileReachableIff(own: nat, threshold: nat, rs: seq<Response>, timeoutAt: Option<nat>, k: nat)
    requires k <= |rs| && Reaches(own, threshold, rs, timeoutAt, k) && !QuorumAt(own, threshold, rs, k)
    requires 2 * StakeOf(rs) < WORD && 2 * threshold < WORD
    ensures var rejected := StakeThat(rs[..k], Rejected);
            var failed := StakeThat(rs[..k], NetworkFailed);
            var available := StakeOf(rs);
            (&& Ends(own, threshold, rs, timeoutAt, k, Err(QuorumRejected))
             && !OutOfReach(own, threshold, rs[..k], rs[k..]))
            <==> && rejected > 0
                 && (available >= threshold || rejected < threshold - available)
                 && own + available >= threshold + rejected + failed
  {
    StakeParts(rs, k);
    RejectionExit(StakeThat(rs[..k], Rejected), StakeOf(rs), threshold);
    if k == 0 { assert rs[..0] == []; }
  }

  /** So the exit does not mean what its name says: this run of the loop ends at the first of three answers
      although the other two would make the threshold. */
  lemma RejectionIsNotFinal()
    ensures var responses := [Response(1, Rejected), Response(1, Acked), Response(1, Acked)];
            && Ends(1, 3, responses, None, 1, Err(QuorumRejected))
            && !OutOfReach(1, 3, responses[..1], responses[1..])
  {
    var rejected, acked := Response(1, Rejected), Response(1, Acked);
    var responses := [rejected, acked, acked];
    assert responses[..0] == [] && responses[..1] == [rejected] && responses[1..] == [acked, acked];
    assert [rejected][..0] == [] && [acked][..0] == [] && [acked, acked][..1] == [acked];
    assert StakeOf([rejected]) == 1 && StakeThat([rejected], Rejected) == 1 && StakeThat([rejected], Acked) == 0;
    assert StakeThat([rejected], NetworkFailed) == 0;
    StakeFront(responses);
    assert StakeOf([acked]) == 1 && StakeOf([acked, acked]) == 2;
    assert GoesOn(1, 3, responses, None, 0);
    RejectedWhileReachableIff(1, 3, responses, None, 1);
  }

  /** When the loop gives up before the answers end: acknowledged stake is counted twice in the test, so not as soon
      as the threshold is out of reach. */
  lemma GivesUpEarlyIff(own: nat, threshold: nat, rs: seq<Response>, timeoutAt: Option<nat>, k: nat)
    requires k < |rs| && Reaches(own, threshold, rs, timeoutAt, k)
    requires !QuorumAt(own, threshold, rs, k) && !RejectedAt(threshold, rs, k)
    ensures var acked, outstanding := StakeThat(rs[..k], Acked), StakeOf(rs[k..]);
            && (Ends(own, threshold, rs, timeoutAt, k, Err(AntiQuorum))
                <==> k > 0 && own + 2 * acked + outstanding < threshold)
            && (OutOfReach(own, threshold, rs[..k], rs[k..]) <==> own + acked + outstanding < threshold)
  {}

  /** Here the threshold is out of reach after two answers, and the loop waits for the third. */
  lemma NoticedLate()
    ensures var rs := [Response(1, Acked), Response(1, NetworkFailed), Response(1, Acked)];
            OutOfReach(1, 4, rs[..2], rs[2..]) && GoesOn(1, 4, rs, None, 2)
  {
    var acked, failed := Response(1, Acked), Response(1, NetworkFailed);
    var rs := [acked, failed, acked];
    assert rs[..2] == [acked, failed] && rs[2..] == [acked] && [acked, failed][..1] == [acked] && [acked][..0] == [];
    assert StakeThat([acked], Acked) == 1 && StakeThat([acked], Rejected) == 0 && StakeOf([acked]) == 1;
    assert StakeThat([acked, failed], Acked) == 1 && StakeThat([acked, failed], Rejected) == 0;
    assert rs[..2][..1] == [acked];
    assert RejectedWord(0) == 0;
  }
}
