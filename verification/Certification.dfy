/** From votes to certificates: the vote checks and collection of the certifier, the vote aggregator, and
    why two certificates of one author and round carry the same header.
    Source: crates/consensus/primary/src/certifier.rs and aggregators/votes.rs */
module Certification {
  import opened Basics
  import opened Committees
  import opened Voting
  import P = ProposerModel

  /** Signatures are unforgeable: one is good for a header exactly when its signer made it for that header. */
  datatype Signature = Signature(signer: AuthorityId, header: Header)

  datatype Vote = Vote(header: Header, round: nat, epoch: nat, origin: AuthorityId, author: AuthorityId,
                       signature: Signature)

  datatype Certificate = Certificate(header: Header, signers: set<AuthorityId>)

  // ---------- the aggregator ----------

  datatype VoteError =
    AuthorityReuse | UnknownAuthority | UnexpectedVote | InvalidEpoch | InvalidRound | NotFormed | Canceled

  predicate Good(vote: (AuthorityId, Signature), h: Header) { vote.1 == Signature(vote.0, h) }

  function Authors(votes: seq<(AuthorityId, Signature)>): set<AuthorityId> { set v | v in votes :: v.0 }

  ghost predicate DistinctAuthors(votes: seq<(AuthorityId, Signature)>) {
    forall i, j :: 0 <= i < j < |votes| ==> votes[i].0 != votes[j].0
  }

  function KeepGood(votes: seq<(AuthorityId, Signature)>, h: Header): seq<(AuthorityId, Signature)> {
    if votes == [] then []
    else
      var v := votes[|votes| - 1];
      KeepGood(votes[..|votes| - 1], h) + if Good(v, h) then [v] else []
  }

  function WeightOfVotes(c: Committee, votes: seq<(AuthorityId, Signature)>): nat {
    if votes == [] then 0 else WeightOfVotes(c, votes[..|votes| - 1]) + c.PowerOf(votes[|votes| - 1].0)
  }

  lemma {:induction false} WeightOfVotesIsWeight(c: Committee, votes: seq<(AuthorityId, Signature)>)
    requires DistinctIds(c.authorities) && DistinctAuthors(votes)
    ensures WeightOfVotes(c, votes) == c.Weight(Authors(votes))
  {
    if votes == [] {
      WeightEmpty(c.authorities);
      assert Authors(votes) == {};
    } else {
      var n := |votes| - 1;
      WeightOfVotesIsWeight(c, votes[..n]);
      assert votes == votes[..n] + [votes[n]];
      assert Authors(votes) == Authors(votes[..n]) + {votes[n].0};
      AddAuthority(c, Authors(votes[..n]), votes[n].0);
    }
  }

  lemma {:induction false} KeepGoodFacts(votes: seq<(AuthorityId, Signature)>, h: Header)
    ensures forall v :: v in KeepGood(votes, h) <==> v in votes && Good(v, h)
    ensures DistinctAuthors(votes) ==> DistinctAuthors(KeepGood(votes, h))
  {
    if votes != [] {
      var n := |votes| - 1;
      KeepGoodFacts(votes[..n], h);
      assert votes == votes[..n] + [votes[n]];
      if DistinctAuthors(votes) {
        var kept := KeepGood(votes[..n], h);
        forall i | 0 <= i < |kept| ensures kept[i].0 != votes[n].0 {
          assert kept[i] in votes[..n];
          var j :| 0 <= j < n && votes[j] == kept[i];
        }
      }
    }
  }

  class VotesAggregator {
    var weight: nat
    var votes: seq<(AuthorityId, Signature)>
    var seen: set<AuthorityId>

    constructor ()
      ensures weight == 0 && votes == [] && seen == {}
    {
      weight, votes, seen := 0, [], {};
    }

    /** The votes counted come from pairwise distinct authorities and the weight is theirs. */
    ghost predicate Valid(c: Committee) reads this {
      && DistinctAuthors(votes)
      && Authors(votes) <= seen
      && weight == WeightOfVotes(c, votes)
    }

    /** The votes with the new one appended. */
    ghost function With(vote: Vote): seq<(AuthorityId, Signature)>
      reads this
    {
      votes + [(vote.author, vote.signature)]
    }

    /** `append`: a repeated author is refused; below quorum the vote is kept; at quorum the votes form a
        certificate when all signatures are good, and otherwise the bad ones are dropped. */
    method Append(vote: Vote, c: Committee, header: Header) returns (r: Result<Option<Certificate>, VoteError>)
      requires c.Valid() && Valid(c)
      modifies this
      ensures Valid(c) && seen == old(seen) + {vote.author}
      ensures vote.author in old(seen) ==> r == Err(AuthorityReuse) && votes == old(votes)
      ensures vote.author !in old(seen) ==> (r, votes) == AppendOutcome(c, header, old(With(vote)))
      ensures r.Ok? && r.value.Some? ==> c.Weight(r.value.value.signers) >= c.Quorum()
    {
      if vote.author in seen { return Err(AuthorityReuse); }
      AppendedVotes(c, votes, seen, vote);
      seen := seen + {vote.author};
      r := TakeIn(vote, c, header);
    }

    /** The rest of `append`, once the author is known to be new. */
    method TakeIn(vote: Vote, c: Committee, header: Header) returns (r: Result<Option<Certificate>, VoteError>)
      requires DistinctIds(c.authorities) && weight == WeightOfVotes(c, votes)
      requires DistinctAuthors(With(vote)) && Authors(With(vote)) <= seen
      requires WeightOfVotes(c, With(vote)) == weight + c.PowerOf(vote.author)
      modifies `votes, `weight
      ensures Valid(c) && (r, votes) == AppendOutcome(c, header, old(With(vote)))
      ensures r.Ok? && r.value.Some? ==> c.Weight(r.value.value.signers) >= c.Quorum()
    {
      votes, weight := votes + [(vote.author, vote.signature)], weight + c.PowerOf(vote.author);
      if weight < c.Quorum() { return Ok(None); }
      if !(forall v :: v in votes ==> v.0 in c.Ids()) { return Err(UnknownAuthority); }
      if forall v :: v in votes ==> Good(v, header) {
        WeightOfVotesIsWeight(c, votes);
        return Ok(Some(Certificate(header, Authors(votes))));
      }
      // drop the votes whose signatures do not verify, and their weight
      KeptVotes(votes, header);
      votes := KeepGood(votes, header);
      weight := WeightOfVotes(c, votes);
      r := Ok(None);
    }
  }

  ghost predicate AllGood(votes: seq<(AuthorityId, Signature)>, header: Header) {
    forall v :: v in votes ==> Good(v, header)
  }

  /** What becomes of a list of votes from distinct authors. */
  ghost function AppendOutcome(c: Committee, header: Header, all: seq<(AuthorityId, Signature)>)
    : (Result<Option<Certificate>, VoteError>, seq<(AuthorityId, Signature)>)
  {
    if WeightOfVotes(c, all) < c.Quorum() then (Ok(None), all)
    else if exists v :: v in all && v.0 !in c.Ids() then (Err(UnknownAuthority), all)
    else if AllGood(all, header) then (Ok(Some(Certificate(header, Authors(all)))), all)
    else (Ok(None), KeepGood(all, header))
  }

  lemma AppendedVotes(c: Committee, votes: seq<(AuthorityId, Signature)>, seen: set<AuthorityId>, vote: Vote)
    requires DistinctAuthors(votes) && Authors(votes) <= seen && vote.author !in seen
    ensures var all := votes + [(vote.author, vote.signature)];
            && DistinctAuthors(all)
            && Authors(all) == Authors(votes) + {vote.author}
            && WeightOfVotes(c, all) == WeightOfVotes(c, votes) + c.PowerOf(vote.author)
  {
    var all := votes + [(vote.author, vote.signature)];
    assert all[..|all| - 1] == votes;
    forall i | 0 <= i < |votes| ensures votes[i].0 != vote.author {
      assert votes[i] in votes && votes[i].0 in Authors(votes);
    }
    forall v | v in all ensures v.0 in Authors(votes) + {vote.author} {}
    assert all[|votes|] in all;
    assert forall v :: v in votes ==> v in all;
  }

  lemma KeptVotes(votes: seq<(AuthorityId, Signature)>, h: Header)
    requires DistinctAuthors(votes)
    ensures DistinctAuthors(KeepGood(votes, h)) && Authors(KeepGood(votes, h)) <= Authors(votes)
    ensures forall v :: v in KeepGood(votes, h) ==> v in votes
  {
    KeepGoodFacts(votes, h);
  }

  // ---------- the certifier ----------

  /** The checks `request_vote` makes on a peer's reply. */
  function CheckVote(c: Committee, h: Header, peer: AuthorityId, v: Vote): Result<Vote, VoteError> {
    if !(v.header == h && v.origin == h.author && v.author == peer) then Err(UnexpectedVote)
    else if h.Epoch() != v.epoch then Err(InvalidEpoch)
    else if h.Round() != v.round then Err(InvalidRound)
    else if v.epoch != c.epoch then Err(InvalidEpoch)
    else if c.PowerOf(v.author) == 0 then Err(UnknownAuthority)
    else Ok(v)
  }

  /** A vote to count: for this very header, its author, epoch and round, of the current epoch, by the peer asked,
      who has voting power. */
  predicate ProperVote(c: Committee, h: Header, peer: AuthorityId, v: Vote) {
    && v.header == h && v.origin == h.author && v.author == peer
    && v.epoch == h.Epoch() == c.epoch && v.round == h.Round()
    && c.PowerOf(peer) > 0
  }

  lemma CheckVoteIff(c: Committee, h: Header, peer: AuthorityId, v: Vote)
    ensures CheckVote(c, h, peer, v) == Ok(v) <==> ProperVote(c, h, peer, v)
    ensures CheckVote(c, h, peer, v).Ok? ==> CheckVote(c, h, peer, v) == Ok(v)
  {}

  /** What the select loop of `propose_header` sees next: a peer's reply, a failed request, or a newer
      header that cancels this one. */
  datatype Reply = Replied(peer: AuthorityId, vote: Vote) | RequestFailed | NewerHeader

  /** `propose_header`: collects votes until a certificate forms. The peers asked are distinct. When nothing
      cancels it and every vote that passes the checks is properly signed, it forms one exactly when the
      voters weigh a quorum. */
  method ProposeHeader(c: Committee, self: AuthorityId, header: Header, replies: seq<Reply>)
    returns (r: Result<Certificate, VoteError>)
    requires c.Valid() && self in c.Ids()
    requires DistinctPeers(self, replies)
    ensures r.Err? ==> r.error in {InvalidEpoch, Canceled, NotFormed}
    ensures r == Err(InvalidEpoch) <==> header.Epoch() != c.epoch
    ensures r == Err(Canceled) ==> NewerHeader in replies
    ensures r.Ok? ==>
              && r.value.header == header
              && c.Weight(r.value.signers) >= c.Quorum()
              && forall a :: a in r.value.signers ==> SignedBy(c, header, self, replies, a)
    ensures r != Err(InvalidEpoch) && NewerHeader !in replies && ProperlySigned(c, header, replies) ==>
              (r.Ok? <==> c.Weight(Voters(c, header, self, replies)) >= c.Quorum())
    ensures r != Err(InvalidEpoch) && NewerHeader !in replies ==>
              var formed := Collect(c, header, self, replies).1;
              r == if formed.Some? then Ok(formed.value) else Err(NotFormed)
  {
    if header.Epoch() != c.epoch { return Err(InvalidEpoch); }
    var aggregator := new VotesAggregator();
    var own := Vote(header, header.Round(), header.Epoch(), header.author, self, Signature(self, header));
    FirstVote(c, header, self, aggregator.With(own));
    var certificate := aggregator.Append(own, c, header);
    var i := 0;
    while i < |replies| && certificate.value.None?
      invariant 0 <= i <= |replies| && aggregator.Valid(c) && fresh(aggregator)
      invariant certificate.Ok?
      invariant Progress(c, header, self, replies[..i], aggregator.votes, aggregator.seen, certificate.value)
    {
      if replies[i].NewerHeader? { return Err(Canceled); }
      certificate := TakeReply(aggregator, c, header, self, replies, i);
      i := i + 1;
    }
    Settled(c, header, self, replies, i, aggregator.votes, certificate.value);
    r := if certificate.value.Some? then Ok(certificate.value.value) else Err(NotFormed);
  }

  /** One reply: a vote that passes the checks of `request_vote` is appended, anything else is passed over. */
  method TakeReply(aggregator: VotesAggregator, c: Committee, header: Header, ghost self: AuthorityId,
                   replies: seq<Reply>, i: nat)
    returns (certificate: Result<Option<Certificate>, VoteError>)
    requires c.Valid() && aggregator.Valid(c) && DistinctPeers(self, replies) && i < |replies|
    requires Progress(c, header, self, replies[..i], aggregator.votes, aggregator.seen, None)
    modifies aggregator
    ensures aggregator.Valid(c)
    ensures certificate.Ok?
    ensures Progress(c, header, self, replies[..i + 1], aggregator.votes, aggregator.seen, certificate.value)
  {
    if replies[i].Replied? {
      var checked := CheckVote(c, header, replies[i].peer, replies[i].vote);
      CheckVoteIff(c, header, replies[i].peer, replies[i].vote);
      if checked.Ok? {
        VotePasses(c, header, self, replies, i, aggregator.votes, aggregator.seen);
        certificate := aggregator.Append(replies[i].vote, c, header);
        return;
      }
    }
    NotAVoter(c, header, self, replies, i, aggregator.votes, None);
    certificate := Ok(None);
  }

  /** How far the collection has come after some replies. */
  ghost predicate Progress(c: Committee, h: Header, self: AuthorityId, replies: seq<Reply>,
                           votes: seq<(AuthorityId, Signature)>, seen: set<AuthorityId>, cert: Option<Certificate>) {
    && seen == Voters(c, h, self, replies) && seen <= c.Ids() && Collected(c, h, self, replies, votes, cert)
    && Collect(c, h, self, replies) == (votes, cert)
  }

  /** The votes held and the certificate formed after the replies, the checks passed. */
  ghost function Collect(c: Committee, h: Header, self: AuthorityId, replies: seq<Reply>)
    : (seq<(AuthorityId, Signature)>, Option<Certificate>)
  {
    if replies == [] then Taken(AppendOutcome(c, h, [(self, Signature(self, h))]))
    else
      var last := replies[|replies| - 1];
      var (votes, cert) := Collect(c, h, self, replies[..|replies| - 1]);
      if cert.Some? || !Passes(c, h, last) then (votes, cert)
      else Taken(AppendOutcome(c, h, votes + [(last.peer, last.vote.signature)]))
  }

  ghost function Taken(o: (Result<Option<Certificate>, VoteError>, seq<(AuthorityId, Signature)>))
    : (seq<(AuthorityId, Signature)>, Option<Certificate>)
  {
    (o.1, if o.0.Ok? then o.0.value else None)
  }

  lemma {:induction false} CollectStays(c: Committee, h: Header, self: AuthorityId, replies: seq<Reply>, i: nat)
    requires i <= |replies| && Collect(c, h, self, replies[..i]).1.Some?
    ensures Collect(c, h, self, replies) == Collect(c, h, self, replies[..i])
  {
    if i == |replies| {
      assert replies[..i] == replies;
    } else {
      var n := |replies| - 1;
      assert replies[..n][..i] == replies[..i];
      CollectStays(c, h, self, replies[..n], i);
    }
  }

  lemma VotePasses(c: Committee, h: Header, self: AuthorityId, replies: seq<Reply>, i: nat,
                   votes: seq<(AuthorityId, Signature)>, seen: set<AuthorityId>)
    requires c.Valid() && DistinctPeers(self, replies) && i < |replies| && Passes(c, h, replies[i])
    requires Progress(c, h, self, replies[..i], votes, seen, None) && DistinctAuthors(votes) && Authors(votes) <= seen
    ensures replies[i].peer !in seen
    ensures var (r, votes') := AppendOutcome(c, h, votes + [(replies[i].peer, replies[i].vote.signature)]);
            r.Ok? && Progress(c, h, self, replies[..i + 1], votes', seen + {replies[i].peer}, r.value)
  {
    NewVoter(c, h, self, replies, i);
    assert replies[..i + 1][..i] == replies[..i];
    AppendedVotes(c, votes, seen, replies[i].vote);
    OneMoreVote(c, h, self, replies, i, votes, votes + [(replies[i].peer, replies[i].vote.signature)]);
  }

  ghost predicate DistinctPeers(self: AuthorityId, replies: seq<Reply>) {
    && (forall i :: 0 <= i < |replies| && replies[i].Replied? ==> replies[i].peer != self)
    && (forall i, j :: 0 <= i < j < |replies| && replies[i].Replied? && replies[j].Replied? ==>
          replies[i].peer != replies[j].peer)
  }

  ghost predicate Passes(c: Committee, h: Header, reply: Reply) {
    reply.Replied? && ProperVote(c, h, reply.peer, reply.vote)
  }

  /** The author and everyone whose vote passed the checks. */
  ghost function Voters(c: Committee, h: Header, self: AuthorityId, replies: seq<Reply>): set<AuthorityId> {
    if replies == [] then {self}
    else
      var last := replies[|replies| - 1];
      Voters(c, h, self, replies[..|replies| - 1]) + if Passes(c, h, last) then {last.peer} else {}
  }

  ghost predicate ProperlySigned(c: Committee, h: Header, replies: seq<Reply>) {
    forall i :: 0 <= i < |replies| && Passes(c, h, replies[i]) ==> CountedFrom(c, h, replies[i], replies[i].peer)
  }

  ghost predicate SignedBy(c: Committee, h: Header, self: AuthorityId, replies: seq<Reply>, a: AuthorityId) {
    a == self || exists i :: 0 <= i < |replies| && CountedFrom(c, h, replies[i], a)
  }

  /** What the aggregator holds after the replies so far, and the certificate if one formed. */
  ghost predicate Collected(c: Committee, h: Header, self: AuthorityId, replies: seq<Reply>,
                            votes: seq<(AuthorityId, Signature)>, cert: Option<Certificate>) {
    && (forall v :: v in votes && Good(v, h) ==> SignedBy(c, h, self, replies, v.0))
    && (ProperlySigned(c, h, replies) ==> AllGood(votes, h) && Authors(votes) == Voters(c, h, self, replies))
    && (cert.None? && ProperlySigned(c, h, replies) ==> WeightOfVotes(c, votes) < c.Quorum())
    && (cert.Some? ==>
          && cert.value.header == h && c.Weight(cert.value.signers) >= c.Quorum()
          && cert.value.signers == Authors(votes) && AllGood(votes, h))
  }

  lemma FirstVote(c: Committee, h: Header, self: AuthorityId, all: seq<(AuthorityId, Signature)>)
    requires c.Valid() && self in c.Ids() && all == [(self, Signature(self, h))]
    ensures var (r, votes) := AppendOutcome(c, h, all);
            r.Ok? && Collected(c, h, self, [], votes, r.value)
  {
    assert all[0] in all;
    assert Authors(all) == {self};
    WeightOfVotesIsWeight(c, all);
  }

  lemma {:induction false} VotersWereAsked(c: Committee, h: Header, self: AuthorityId, replies: seq<Reply>,
                                           a: AuthorityId)
    requires a in Voters(c, h, self, replies)
    ensures a == self || exists i :: 0 <= i < |replies| && replies[i].Replied? && replies[i].peer == a
  {
    if replies != [] {
      var n := |replies| - 1;
      if a in Voters(c, h, self, replies[..n]) { VotersWereAsked(c, h, self, replies[..n], a); }
    }
  }

  lemma {:induction false} VotersGrow(c: Committee, h: Header, self: AuthorityId, replies: seq<Reply>, i: nat)
    requires i <= |replies|
    ensures Voters(c, h, self, replies[..i]) <= Voters(c, h, self, replies)
  {
    if i == |replies| {
      assert replies[..i] == replies;
    } else {
      var n := |replies| - 1;
      VotersGrow(c, h, self, replies[..n], i);
      assert replies[..n][..i] == replies[..i];
    }
  }

  /** A reply that passes comes from a known authority not counted yet. */
  lemma NewVoter(c: Committee, h: Header, self: AuthorityId, replies: seq<Reply>, i: nat)
    requires DistinctPeers(self, replies) && i < |replies| && Passes(c, h, replies[i])
    ensures replies[i].peer !in Voters(c, h, self, replies[..i]) && replies[i].peer in c.Ids()
    ensures Voters(c, h, self, replies[..i + 1]) == Voters(c, h, self, replies[..i]) + {replies[i].peer}
  {
    var peer := replies[i].peer;
    if peer in Voters(c, h, self, replies[..i]) { VotersWereAsked(c, h, self, replies[..i], peer); }
    if peer !in c.Ids() { UnknownWeighsNothing(c.authorities, peer); }
    assert replies[..i + 1][..i] == replies[..i];
  }

  /** A reply that does not pass changes nothing. */
  lemma NotAVoter(c: Committee, h: Header, self: AuthorityId, replies: seq<Reply>, i: nat,
                  votes: seq<(AuthorityId, Signature)>, cert: Option<Certificate>)
    requires i < |replies| && !Passes(c, h, replies[i]) && Collected(c, h, self, replies[..i], votes, cert)
    ensures Voters(c, h, self, replies[..i + 1]) == Voters(c, h, self, replies[..i])
    ensures Collected(c, h, self, replies[..i + 1], votes, cert)
    ensures Collect(c, h, self, replies[..i + 1]) == Collect(c, h, self, replies[..i])
  {
    var now := replies[..i + 1];
    assert now[..i] == replies[..i];
    forall a | SignedBy(c, h, self, replies[..i], a) ensures SignedBy(c, h, self, now, a) {
      StillSigned(c, h, self, now, i, a);
    }
    if ProperlySigned(c, h, now) { StillProper(c, h, now, i); }
  }

  lemma StillSigned(c: Committee, h: Header, self: AuthorityId, replies: seq<Reply>, i: nat, a: AuthorityId)
    requires i <= |replies| && SignedBy(c, h, self, replies[..i], a)
    ensures SignedBy(c, h, self, replies, a)
  {
    if a != self {
      var j :| 0 <= j < i && CountedFrom(c, h, replies[..i][j], a);
      assert CountedFrom(c, h, replies[j], a);
    }
  }

  lemma StillProper(c: Committee, h: Header, replies: seq<Reply>, i: nat)
    requires i <= |replies| && ProperlySigned(c, h, replies)
    ensures ProperlySigned(c, h, replies[..i])
  {
    forall j | 0 <= j < i && Passes(c, h, replies[..i][j])
      ensures CountedFrom(c, h, replies[..i][j], replies[..i][j].peer)
    {
      assert replies[..i][j] == replies[j];
    }
  }

  /** A vote that passes joins those collected. */
  lemma OneMoreVote(c: Committee, h: Header, self: AuthorityId, replies: seq<Reply>, i: nat,
                    votes: seq<(AuthorityId, Signature)>, all: seq<(AuthorityId, Signature)>)
    requires c.Valid() && i < |replies| && Passes(c, h, replies[i])
    requires Collected(c, h, self, replies[..i], votes, None) && Authors(votes) <= c.Ids() && replies[i].peer in c.Ids()
    requires all == votes + [(replies[i].peer, replies[i].vote.signature)] && DistinctAuthors(all)
    requires Voters(c, h, self, replies[..i + 1]) == Voters(c, h, self, replies[..i]) + {replies[i].peer}
    ensures var (r, votes') := AppendOutcome(c, h, all);
            r.Ok? && Collected(c, h, self, replies[..i + 1], votes', r.value)
  {
    var now, peer := replies[..i + 1], replies[i].peer;
    assert now[i] == replies[i] && now[..i] == replies[..i];
    assert Authors(all) == Authors(votes) + {peer} by {
      assert all[|votes|] in all;
      assert forall v :: v in votes ==> v in all;
    }
    assert forall v :: v in all ==> v.0 in Authors(all);
    forall v | v in all && Good(v, h) ensures SignedBy(c, h, self, now, v.0) {
      if v in votes { StillSigned(c, h, self, now, i, v.0); } else { assert CountedFrom(c, h, now[i], peer); }
    }
    if ProperlySigned(c, h, now) {
      StillProper(c, h, now, i);
      assert CountedFrom(c, h, now[i], peer);
      assert AllGood(all, h);
    }
    KeepGoodFacts(all, h);
    WeightOfVotesIsWeight(c, all);
  }

  /** What was collected decides the outcome. */
  lemma Settled(c: Committee, h: Header, self: AuthorityId, replies: seq<Reply>, i: nat,
                votes: seq<(AuthorityId, Signature)>, cert: Option<Certificate>)
    requires c.Valid() && i <= |replies| && (cert.None? ==> i == |replies|)
    requires Collected(c, h, self, replies[..i], votes, cert) && DistinctAuthors(votes)
    requires Collect(c, h, self, replies[..i]) == (votes, cert)
    ensures Collect(c, h, self, replies).1 == cert
    ensures cert.Some? ==> forall a :: a in cert.value.signers ==> SignedBy(c, h, self, replies, a)
    ensures ProperlySigned(c, h, replies) ==> (cert.Some? <==> c.Weight(Voters(c, h, self, replies)) >= c.Quorum())
  {
    if cert.Some? {
      CollectStays(c, h, self, replies, i);
      forall a | a in cert.value.signers ensures SignedBy(c, h, self, replies, a) {
        var v :| v in votes && v.0 == a;
        StillSigned(c, h, self, replies, i, a);
      }
    } else {
      assert replies[..i] == replies;
    }
    if ProperlySigned(c, h, replies) {
      StillProper(c, h, replies, i);
      VotersGrow(c, h, self, replies, i);
      WeightMonotone(c.authorities, Voters(c, h, self, replies[..i]), Voters(c, h, self, replies));
      WeightOfVotesIsWeight(c, votes);
    }
  }

  /** The reply is a vote of `a` for this very header that passed every check, properly signed. */
  ghost predicate CountedFrom(c: Committee, h: Header, reply: Reply, a: AuthorityId) {
    reply.Replied? && reply.peer == a && ProperVote(c, h, a, reply.vote) && reply.vote.signature == Signature(a, h)
  }

  // ---------- when a certificate forms ----------

  /** The author and everyone whose counted vote is properly signed. */
  ghost function Signers(c: Committee, h: Header, self: AuthorityId, replies: seq<Reply>): set<AuthorityId> {
    if replies == [] then {self}
    else
      var last := replies[|replies| - 1];
      Signers(c, h, self, replies[..|replies| - 1])
      + if last.Replied? && CountedFrom(c, h, last, last.peer) then {last.peer} else {}
  }

  ghost function GoodAuthors(votes: seq<(AuthorityId, Signature)>, h: Header): set<AuthorityId> {
    set v | v in votes && Good(v, h) :: v.0
  }

  ghost predicate EqualPowers(c: Committee) {
    exists p: nat {:trigger AllHavePower(c, p)} :: p > 0 && AllHavePower(c, p)
  }

  ghost predicate AllHavePower(c: Committee, p: nat) { forall a :: a in c.Ids() ==> c.PowerOf(a) == p }

  /** What is held while no certificate has formed: every good vote, and either less than a quorum or, after bad
      votes were dropped, good votes only, of which one is needed for the quorum. */
  ghost predicate Short(c: Committee, h: Header, votes: seq<(AuthorityId, Signature)>) {
    || WeightOfVotes(c, votes) < c.Quorum()
    || (AllGood(votes, h) && exists a :: a in Authors(votes) && c.Weight(Authors(votes) - {a}) < c.Quorum())
  }

  ghost predicate Holding(c: Committee, h: Header, self: AuthorityId, replies: seq<Reply>,
                          votes: seq<(AuthorityId, Signature)>) {
    && DistinctAuthors(votes) && Authors(votes) <= Voters(c, h, self, replies) && Authors(votes) <= c.Ids()
    && GoodAuthors(votes, h) == Signers(c, h, self, replies)
    && Short(c, h, votes)
    && (EqualPowers(c) ==> WeightOfVotes(c, votes) < c.Quorum())
  }

  lemma GoodAuthorsSnoc(votes: seq<(AuthorityId, Signature)>, h: Header, v: (AuthorityId, Signature))
    ensures GoodAuthors(votes + [v], h) == GoodAuthors(votes, h) + if Good(v, h) then {v.0} else {}
    ensures Authors(votes + [v]) == Authors(votes) + {v.0}
  {
    var all := votes + [v];
    assert all[|votes|] == v && forall x :: x in all <==> x in votes || x == v;
  }

  lemma GoodOfKept(votes: seq<(AuthorityId, Signature)>, h: Header)
    ensures GoodAuthors(KeepGood(votes, h), h) == GoodAuthors(votes, h) == Authors(KeepGood(votes, h))
    ensures AllGood(KeepGood(votes, h), h)
  {
    KeepGoodFacts(votes, h);
  }

  lemma GoodIsAll(votes: seq<(AuthorityId, Signature)>, h: Header)
    requires AllGood(votes, h)
    ensures GoodAuthors(votes, h) == Authors(votes)
  {}

  /** Dropping bad votes of equal power takes off at least one vote's power. */
  lemma {:induction false} DroppedPower(c: Committee, p: nat, votes: seq<(AuthorityId, Signature)>, h: Header)
    requires AllHavePower(c, p) && Authors(votes) <= c.Ids()
    ensures WeightOfVotes(c, KeepGood(votes, h)) + (if AllGood(votes, h) then 0 else p) <= WeightOfVotes(c, votes)
  {
    if votes != [] {
      var n := |votes| - 1;
      var v, kept := votes[n], KeepGood(votes[..n], h);
      assert votes == votes[..n] + [v];
      assert v.0 in Authors(votes) by { assert v in votes; }
      assert c.PowerOf(v.0) == p;
      assert Authors(votes[..n]) <= Authors(votes);
      DroppedPower(c, p, votes[..n], h);
      assert AllGood(votes, h) <==> AllGood(votes[..n], h) && Good(v, h);
      assert KeepGood(votes, h) == if Good(v, h) then kept + [v] else kept;
      assert (kept + [v])[..|kept|] == kept;
    }
  }

  /** Good votes that were short of a quorum, with a good one added. */
  lemma ShortWithGood(c: Committee, h: Header, votes: seq<(AuthorityId, Signature)>, v: (AuthorityId, Signature))
    requires c.Valid() && DistinctAuthors(votes + [v]) && Good(v, h) && c.Weight(GoodAuthors(votes, h)) < c.Quorum()
    ensures Short(c, h, KeepGood(votes + [v], h))
  {
    var kept := KeepGood(votes + [v], h);
    GoodOfKept(votes + [v], h);
    GoodAuthorsSnoc(votes, h, v);
    NewAuthor(votes, v);
    GoodAuthorsAreAuthors(votes, h);
    assert Authors(kept) - {v.0} == GoodAuthors(votes, h);
    assert v.0 in Authors(kept);
  }

  /** The good votes held, when a bad one is added and dropped again. */
  lemma ShortWithBad(c: Committee, h: Header, votes: seq<(AuthorityId, Signature)>, v: (AuthorityId, Signature))
    requires c.Valid() && DistinctAuthors(votes + [v]) && !Good(v, h) && Short(c, h, votes) && DistinctAuthors(votes)
    ensures Short(c, h, KeepGood(votes + [v], h))
  {
    var kept := KeepGood(votes + [v], h);
    assert (votes + [v])[..|votes|] == votes;
    assert kept == KeepGood(votes, h);
    KeptVotes(votes, h);
    WeightOfVotesIsWeight(c, kept);
    WeightOfVotesIsWeight(c, votes);
    WeightMonotone(c.authorities, Authors(kept), Authors(votes));
    if WeightOfVotes(c, votes) >= c.Quorum() {
      GoodOfKept(votes, h);
      GoodIsAll(votes, h);
    }
  }

  /** One more vote that does not form a certificate. */
  lemma StillShort(c: Committee, h: Header, votes: seq<(AuthorityId, Signature)>, v: (AuthorityId, Signature))
    requires c.Valid() && DistinctAuthors(votes + [v]) && DistinctAuthors(votes) && Authors(votes + [v]) <= c.Ids()
    requires Short(c, h, votes) && AppendOutcome(c, h, votes + [v]).0 == Ok(None)
    ensures Short(c, h, AppendOutcome(c, h, votes + [v]).1)
  {
    var all := votes + [v];
    if WeightOfVotes(c, all) >= c.Quorum() {
      assert forall x :: x in all ==> x.0 in Authors(all);
      if Good(v, h) {
        assert c.Weight(GoodAuthors(votes, h)) < c.Quorum() by { NotAllGood(c, h, votes, v); }
        ShortWithGood(c, h, votes, v);
      } else {
        ShortWithBad(c, h, votes, v);
      }
    }
  }

  lemma NotAllGood(c: Committee, h: Header, votes: seq<(AuthorityId, Signature)>, v: (AuthorityId, Signature))
    requires c.Valid() && DistinctAuthors(votes) && Short(c, h, votes) && Good(v, h) && !AllGood(votes + [v], h)
    ensures c.Weight(GoodAuthors(votes, h)) < c.Quorum()
  {
    assert !AllGood(votes, h);
    GoodAuthorsAreAuthors(votes, h);
    WeightOfVotesIsWeight(c, votes);
    WeightMonotone(c.authorities, GoodAuthors(votes, h), Authors(votes));
  }

  lemma GoodAuthorsAreAuthors(votes: seq<(AuthorityId, Signature)>, h: Header)
    ensures GoodAuthors(votes, h) <= Authors(votes)
  {}

  lemma NewAuthor(votes: seq<(AuthorityId, Signature)>, v: (AuthorityId, Signature))
    requires DistinctAuthors(votes + [v])
    ensures v.0 !in Authors(votes)
  {
    var all := votes + [v];
    forall x | x in votes ensures x.0 != v.0 {
      var i :| 0 <= i < |votes| && votes[i] == x;
      assert all[i] == x && all[|votes|] == v;
    }
  }

  lemma EqualStillShort(c: Committee, h: Header, votes: seq<(AuthorityId, Signature)>, v: (AuthorityId, Signature))
    requires EqualPowers(c) && Authors(votes + [v]) <= c.Ids() && WeightOfVotes(c, votes) < c.Quorum()
    requires AppendOutcome(c, h, votes + [v]).0 == Ok(None)
    ensures WeightOfVotes(c, AppendOutcome(c, h, votes + [v]).1) < c.Quorum()
  {
    var p: nat :| p > 0 && AllHavePower(c, p);
    var all := votes + [v];
    assert v.0 in Authors(all) by { assert all[|votes|] in all; }
    assert all[..|votes|] == votes;
    DroppedPower(c, p, all, h);
  }

  lemma {:induction false} CollectHolds(c: Committee, h: Header, self: AuthorityId, replies: seq<Reply>)
    requires c.Valid() && self in c.Ids() && DistinctPeers(self, replies)
    ensures var (votes, cert) := Collect(c, h, self, replies);
            if cert.None? then Holding(c, h, self, replies, votes)
            else c.Weight(cert.value.signers) >= c.Quorum() && cert.value.signers <= Signers(c, h, self, replies)
  {
    if replies == [] {
      FirstHeld(c, h, self);
    } else {
      var n := |replies| - 1;
      CollectHolds(c, h, self, replies[..n]);
      var (votes, cert) := Collect(c, h, self, replies[..n]);
      assert replies[..n + 1] == replies;
      if cert.None? && Passes(c, h, replies[n]) {
        NewVoter(c, h, self, replies, n);
        OneMoreHeld(c, h, self, replies, votes);
      }
    }
  }

  lemma FirstHeld(c: Committee, h: Header, self: AuthorityId)
    requires c.Valid() && self in c.Ids()
    ensures var (votes, cert) := Collect(c, h, self, []);
            if cert.None? then Holding(c, h, self, [], votes)
            else c.Weight(cert.value.signers) >= c.Quorum() && cert.value.signers <= Signers(c, h, self, [])
  {
    var v := (self, Signature(self, h));
    assert [] + [v] == [v];
    GoodAuthorsSnoc([], h, v);
    assert AllGood([v], h);
    WeightOfVotesIsWeight(c, [v]);
  }

  lemma OneMoreHeld(c: Committee, h: Header, self: AuthorityId, replies: seq<Reply>,
                    votes: seq<(AuthorityId, Signature)>)
    requires c.Valid() && replies != [] && Passes(c, h, replies[|replies| - 1])
    requires Holding(c, h, self, replies[..|replies| - 1], votes)
    requires var peer := replies[|replies| - 1].peer;
             peer in c.Ids() && peer !in Voters(c, h, self, replies[..|replies| - 1])
    requires Collect(c, h, self, replies[..|replies| - 1]) == (votes, None)
    ensures var (votes', cert) := Collect(c, h, self, replies);
            if cert.None? then Holding(c, h, self, replies, votes')
            else c.Weight(cert.value.signers) >= c.Quorum() && cert.value.signers <= Signers(c, h, self, replies)
  {
    var last := replies[|replies| - 1];
    var v := (last.peer, last.vote.signature);
    var all := votes + [v];
    AppendedVotes(c, votes, Voters(c, h, self, replies[..|replies| - 1]), last.vote);
    GoodAuthorsSnoc(votes, h, v);
    assert Good(v, h) <==> CountedFrom(c, h, last, last.peer);
    assert GoodAuthors(all, h) == Signers(c, h, self, replies);
    assert Authors(all) <= Voters(c, h, self, replies);
    OutcomeOf(c, h, all);
    if AppendOutcome(c, h, all).0 == Ok(None) {
      StillShort(c, h, votes, v);
      if EqualPowers(c) { EqualStillShort(c, h, votes, v); }
    }
  }

  /** What an outcome keeps of the votes of distinct members. */
  lemma OutcomeOf(c: Committee, h: Header, all: seq<(AuthorityId, Signature)>)
    requires c.Valid() && DistinctAuthors(all) && Authors(all) <= c.Ids()
    ensures var (r, votes) := AppendOutcome(c, h, all);
            && r.Ok? && DistinctAuthors(votes) && Authors(votes) <= Authors(all)
            && GoodAuthors(votes, h) == GoodAuthors(all, h)
            && (r.value.Some? ==>
                  && c.Weight(r.value.value.signers) >= c.Quorum()
                  && r.value.value.signers == GoodAuthors(all, h))
  {
    assert forall x :: x in all ==> x.0 in Authors(all);
    WeightOfVotesIsWeight(c, all);
    GoodOfKept(all, h);
    KeptVotes(all, h);
    if AllGood(all, h) { GoodIsAll(all, h); }
  }

  /** Whatever bad votes come in between, a certificate needs signers that weigh a quorum, and forms if they
      still do without any one of them. */
  lemma FormsUnlessOneIsNeeded(c: Committee, h: Header, self: AuthorityId, replies: seq<Reply>)
    requires c.Valid() && self in c.Ids() && DistinctPeers(self, replies)
    ensures var formed, signers := Collect(c, h, self, replies).1.Some?, Signers(c, h, self, replies);
            && (formed ==> c.Weight(signers) >= c.Quorum())
            && ((forall a :: a in signers ==> c.Weight(signers - {a}) >= c.Quorum()) ==> formed)
  {
    CollectHolds(c, h, self, replies);
    var (votes, cert) := Collect(c, h, self, replies);
    var signers := Signers(c, h, self, replies);
    if cert.Some? {
      WeightMonotone(c.authorities, cert.value.signers, signers);
    } else {
      SelfSigns(c, h, self, replies);
      GoodAuthorsAreAuthors(votes, h);
      WeightOfVotesIsWeight(c, votes);
      if WeightOfVotes(c, votes) < c.Quorum() {
        WeightMonotone(c.authorities, signers - {self}, Authors(votes));
      } else {
        GoodIsAll(votes, h);
      }
    }
  }

  lemma {:induction false} SelfSigns(c: Committee, h: Header, self: AuthorityId, replies: seq<Reply>)
    ensures self in Signers(c, h, self, replies)
  {
    if replies != [] { SelfSigns(c, h, self, replies[..|replies| - 1]); }
  }

  /** With equal voting powers a certificate forms exactly when the proper signers weigh a quorum, whatever else
      was sent. */
  lemma EqualPowersFormIff(c: Committee, h: Header, self: AuthorityId, replies: seq<Reply>)
    requires c.Valid() && self in c.Ids() && DistinctPeers(self, replies) && EqualPowers(c)
    ensures Collect(c, h, self, replies).1.Some? <==> c.Weight(Signers(c, h, self, replies)) >= c.Quorum()
  {
    CollectHolds(c, h, self, replies);
    var (votes, cert) := Collect(c, h, self, replies);
    var signers := Signers(c, h, self, replies);
    if cert.Some? {
      WeightMonotone(c.authorities, cert.value.signers, signers);
    } else {
      GoodAuthorsAreAuthors(votes, h);
      WeightOfVotesIsWeight(c, votes);
      WeightMonotone(c.authorities, signers, Authors(votes));
    }
  }

  /** In between it can fail: a heavy good vote that reaches the quorum together with a bad one only gets the bad
      one dropped, and when it is the last to come, no certificate forms from signers that weigh a quorum. */
  lemma HeavyVoteAfterBadOne()
    ensures var c := Committee([Authority(0, 1), Authority(1, 1), Authority(2, 2)], 0);
            var h := Header(0, P.Header(1, 0, [], 0));
            var bad := Replied(1, Vote(h, 1, 0, 0, 1, Signature(2, h)));
            var good := Replied(2, Vote(h, 1, 0, 0, 2, Signature(2, h)));
            && c.Valid() && DistinctPeers(0, [bad, good])
            && c.Weight(Signers(c, h, 0, [bad, good])) >= c.Quorum() && Collect(c, h, 0, [bad, good]).1 == None
  {
    var c, h := Committee([Authority(0, 1), Authority(1, 1), Authority(2, 2)], 0), Header(0, P.Header(1, 0, [], 0));
    var bad := Replied(1, Vote(h, 1, 0, 0, 1, Signature(2, h)));
    var good := Replied(2, Vote(h, 1, 0, 0, 2, Signature(2, h)));
    ThreeAuthorities(c);
    assert Passes(c, h, bad) && Passes(c, h, good);
    OneBadOneGood(c, h, 0, bad, good);
    assert [bad, good][..1] == [bad] && [bad][..0] == [];
    assert Signers(c, h, 0, [bad]) == {0} && Signers(c, h, 0, [bad, good]) == {0, 2};
  }

  /** A bad vote that stays below the quorum, then a good one that reaches it. */
  lemma OneBadOneGood(c: Committee, h: Header, self: AuthorityId, bad: Reply, good: Reply)
    requires Passes(c, h, bad) && Passes(c, h, good) && !Good((bad.peer, bad.vote.signature), h)
    requires {self, bad.peer, good.peer} <= c.Ids()
    requires c.PowerOf(self) + c.PowerOf(bad.peer) < c.Quorum()
    requires c.PowerOf(self) + c.PowerOf(bad.peer) + c.PowerOf(good.peer) >= c.Quorum()
    ensures Collect(c, h, self, [bad, good]).1 == None
  {
    var own := [(self, Signature(self, h))];
    var two := own + [(bad.peer, bad.vote.signature)];
    var three := two + [(good.peer, good.vote.signature)];
    assert own[..0] == [] && two[..1] == own && three[..2] == two;
    assert WeightOfVotes(c, own) == c.PowerOf(self);
    assert WeightOfVotes(c, two) == c.PowerOf(self) + c.PowerOf(bad.peer);
    assert Collect(c, h, self, []) == (own, None);
    CollectNext(c, h, self, [], bad, own);
    CollectNext(c, h, self, [bad], good, two);
    assert [] + [bad] == [bad] && [bad] + [good] == [bad, good];
    assert three[1] in three && !Good(three[1], h);
    assert forall v :: v in three ==> v == three[0] || v == three[1] || v == three[2];
  }

  lemma CollectNext(c: Committee, h: Header, self: AuthorityId, replies: seq<Reply>, last: Reply,
                    votes: seq<(AuthorityId, Signature)>)
    requires Passes(c, h, last) && Collect(c, h, self, replies) == (votes, None)
    ensures Collect(c, h, self, replies + [last])
            == Taken(AppendOutcome(c, h, votes + [(last.peer, last.vote.signature)]))
  {
    assert (replies + [last])[..|replies|] == replies;
  }

  lemma ThreeAuthorities(c: Committee)
    requires c == Committee([Authority(0, 1), Authority(1, 1), Authority(2, 2)], 0)
    ensures c.Total() == 4 && c.Quorum() == 3 && c.Weight({0, 2}) == 3 && c.Ids() == {0, 1, 2}
    ensures c.PowerOf(0) == 1 && c.PowerOf(1) == 1 && c.PowerOf(2) == 2
  {
    var a := c.authorities;
    assert a[1..] == [Authority(1, 1), Authority(2, 2)];
    var b := a[1..];
    assert b[1..] == [Authority(2, 2)] && b[1..][1..] == [];
    assert TotalPower(b[1..]) == 2 && TotalPower(b) == 3;
    assert WeightOf(b[1..], {0, 2}) == 2 && WeightOf(b, {0, 2}) == 2;
    assert PowerById(b[1..], 2) == 2 && PowerById(b, 2) == 2;
    assert a[0] in a && a[1] in a && a[2] in a;
    assert forall x :: x in a ==> x == a[0] || x == a[1] || x == a[2];
  }

  // ---------- uniqueness ----------

  /** A certificate counts when a quorum signed its header; `signed` is what each authority ever signed. */
  ghost predicate Certified(c: Committee, signed: map<AuthorityId, set<Header>>, cert: Certificate) {
    && c.Weight(cert.signers) >= c.Quorum()
    && forall a :: a in cert.signers ==> a in signed && cert.header in signed[a]
  }

  /** What `ProposeHeader` returns counts, when signatures cannot be forged: a good one was made by its signer. */
  lemma CollectedIsCertified(c: Committee, self: AuthorityId, header: Header, replies: seq<Reply>, cert: Certificate,
                             signed: map<AuthorityId, set<Header>>)
    requires cert.header == header && c.Weight(cert.signers) >= c.Quorum()
    requires forall a :: a in cert.signers ==> SignedBy(c, header, self, replies, a)
    requires self in signed && header in signed[self]
    requires forall i :: 0 <= i < |replies| && replies[i].Replied? ==>
               var s := replies[i].vote.signature; s.signer in signed && s.header in signed[s.signer]
    ensures Certified(c, signed, cert)
  {}

  /** If the authorities that break the voting rule weigh less than the validity threshold, two
      certificates of one author, round and epoch certify the same header. */
  lemma CertificatesAreUnique(c: Committee, signed: map<AuthorityId, set<Header>>, faulty: set<AuthorityId>,
                              x: Certificate, y: Certificate)
    requires forall a :: a in signed && a !in faulty ==> OnePerSlot(signed[a])
    requires c.Weight(faulty) < c.Validity()
    requires Certified(c, signed, x) && Certified(c, signed, y) && SameSlot(x.header, y.header)
    ensures x.header == y.header
  {
    var both := x.signers * y.signers;
    QuorumsIntersect(c, x.signers, y.signers);
    if both <= faulty {
      WeightMonotone(c.authorities, both, faulty);
      assert false;
    }
    var a :| a in both && a !in faulty;
  }

  /** The bound is sharp: with the validity threshold's weight breaking the rule, both can be certified. */
  lemma FaultBoundIsSharp()
    ensures var c := Committee([Authority(0, 1), Authority(1, 1), Authority(2, 1), Authority(3, 1)], 0);
            exists signed, faulty, x, y ::
              && (forall a :: a in signed && a !in faulty ==> OnePerSlot(signed[a]))
              && c.Weight(faulty) == c.Validity()
              && Certified(c, signed, x) && Certified(c, signed, y)
              && SameSlot(x.header, y.header) && x.header != y.header
  {
    var c := Committee([Authority(0, 1), Authority(1, 1), Authority(2, 1), Authority(3, 1)], 0);
    var g, h := Header(0, P.Header(1, 0, [], 0)), Header(0, P.Header(1, 0, [], 1));
    var signed: map<AuthorityId, set<Header>> := map[0 := {g, h}, 1 := {g, h}, 2 := {g}, 3 := {h}];
    var x, y := Certificate(g, {0, 1, 2}), Certificate(h, {0, 1, 3});
    FourAuthorities(c, {0, 1});
    FourAuthorities(c, {0, 1, 2});
    FourAuthorities(c, {0, 1, 3});
    assert Certified(c, signed, x) && Certified(c, signed, y);
    assert SameSlot(x.header, y.header) && x.header != y.header;
    assert forall a :: a in signed && a !in {0, 1} ==> OnePerSlot(signed[a]);
  }

  lemma FourAuthorities(c: Committee, s: set<AuthorityId>)
    requires c == Committee([Authority(0, 1), Authority(1, 1), Authority(2, 1), Authority(3, 1)], 0)
    ensures c.Total() == 4 && c.Quorum() == 3 && c.Validity() == 2
    ensures c.Weight(s) == (if 0 in s then 1 else 0) + (if 1 in s then 1 else 0)
                           + (if 2 in s then 1 else 0) + (if 3 in s then 1 else 0)
  {
    var a := c.authorities;
    assert a[1..] == [Authority(1, 1), Authority(2, 1), Authority(3, 1)];
    var b := a[1..];
    assert b[1..] == [Authority(2, 1), Authority(3, 1)];
    var d := b[1..];
    assert d[1..] == [Authority(3, 1)];
    assert d[1..][1..] == [];
    assert WeightOf(d[1..], s) == if 3 in s then 1 else 0;
    assert WeightOf(d, s) == (if 2 in s then 1 else 0) + WeightOf(d[1..], s);
    assert WeightOf(b, s) == (if 1 in s then 1 else 0) + WeightOf(d, s);
  }
}
