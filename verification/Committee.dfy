/** Voting power and the two thresholds of a committee.
    Source: crates/types/src/committee.rs */
module Committees {

  type AuthorityId = nat

  datatype Authority = Authority(id: AuthorityId, power: nat)

  datatype Committee = Committee(authorities: seq<Authority>, epoch: nat) {

    /** What `Committee::new` asserts: ids are distinct and there is more than one of them. */
    ghost predicate Valid() {
      && |authorities| > 1
      && DistinctIds(authorities)
    }

    function Ids(): set<AuthorityId> { set a | a in authorities :: a.id }

    function Total(): nat { TotalPower(authorities) }

    function Quorum(): nat { 2 * Total() / 3 + 1 }

    function Validity(): nat { if Total() == 0 then 1 else (Total() + 2) / 3 }

    function PowerOf(id: AuthorityId): nat { PowerById(authorities, id) }

    /** The voting power of a set of authorities; ids outside the committee weigh nothing. */
    function Weight(s: set<AuthorityId>): nat { WeightOf(authorities, s) }
  }

  ghost predicate DistinctIds(a: seq<Authority>) {
    forall i, j :: 0 <= i < j < |a| ==> a[i].id != a[j].id
  }

  function TotalPower(a: seq<Authority>): nat {
    if a == [] then 0 else a[0].power + TotalPower(a[1..])
  }

  /** `voting_power_by_id`: zero for an unknown authority. */
  function PowerById(a: seq<Authority>, id: AuthorityId): nat {
    if a == [] then 0 else if a[0].id == id then a[0].power else PowerById(a[1..], id)
  }

  function WeightOf(a: seq<Authority>, s: set<AuthorityId>): nat {
    if a == [] then 0 else (if a[0].id in s then a[0].power else 0) + WeightOf(a[1..], s)
  }

  lemma {:induction false} InclusionExclusion(a: seq<Authority>, s: set<AuthorityId>, t: set<AuthorityId>)
    ensures WeightOf(a, s) + WeightOf(a, t) == WeightOf(a, s + t) + WeightOf(a, s * t)
  {
    if a != [] { InclusionExclusion(a[1..], s, t); }
  }

  lemma {:induction false} WeightMonotone(a: seq<Authority>, s: set<AuthorityId>, t: set<AuthorityId>)
    requires s <= t
    ensures WeightOf(a, s) <= WeightOf(a, t) <= TotalPower(a)
  {
    if a != [] { WeightMonotone(a[1..], s, t); }
  }

  lemma {:induction false} WeightEmpty(a: seq<Authority>)
    ensures WeightOf(a, {}) == 0
  {
    if a != [] { WeightEmpty(a[1..]); }
  }

  lemma {:induction false} WeightSingleton(a: seq<Authority>, id: AuthorityId)
    requires DistinctIds(a)
    ensures WeightOf(a, {id}) == PowerById(a, id)
  {
    if a != [] {
      WeightSingleton(a[1..], id);
      if a[0].id == id { UnknownWeighsNothing(a[1..], id); }
    }
  }

  lemma {:induction false} UnknownWeighsNothing(a: seq<Authority>, id: AuthorityId)
    requires forall x :: x in a ==> x.id != id
    ensures PowerById(a, id) == 0
  {
    if a != [] { assert a[0] in a; UnknownWeighsNothing(a[1..], id); }
  }

  lemma {:induction false} WeightOfAll(a: seq<Authority>, s: set<AuthorityId>)
    requires forall x :: x in a ==> x.id in s
    ensures WeightOf(a, s) == TotalPower(a)
  {
    if a != [] { assert a[0] in a; WeightOfAll(a[1..], s); }
  }

  /** Counting one more authority adds exactly its own power. */
  lemma AddAuthority(c: Committee, s: set<AuthorityId>, id: AuthorityId)
    requires DistinctIds(c.authorities) && id !in s
    ensures c.Weight(s + {id}) == c.Weight(s) + c.PowerOf(id)
  {
    InclusionExclusion(c.authorities, s, {id});
    assert s * {id} == {};
    WeightEmpty(c.authorities);
    WeightSingleton(c.authorities, id);
  }

  /** The two thresholds are the documented f + 1 and N - f, with f the largest tolerated fault weight,
      and together they exceed the total by exactly one. */
  lemma ThresholdsAreComplementary(c: Committee)
    requires c.Total() > 0
    ensures var f := (c.Total() - 1) / 3;
            c.Validity() == f + 1 && c.Quorum() == c.Total() - f
    ensures c.Quorum() + c.Validity() == c.Total() + 1
  {
    var t := c.Total();
    var f := (t - 1) / 3;
    var k := t - 3 * f - 1;
    assert t == 3 * f + 1 + k && 0 <= k < 3;
    assert 2 * t / 3 == 2 * f + (2 + 2 * k) / 3;
  }

  /** Any two quorums share at least the validity threshold, for every assignment of weights. */
  lemma QuorumsIntersect(c: Committee, s: set<AuthorityId>, t: set<AuthorityId>)
    requires c.Weight(s) >= c.Quorum() && c.Weight(t) >= c.Quorum()
    ensures c.Weight(s * t) >= c.Validity()
  {
    InclusionExclusion(c.authorities, s, t);
    WeightMonotone(c.authorities, s + t, s + t);
    WeightMonotone(c.authorities, s, s + t);
    ThresholdsAreComplementary(c);
  }

  /** A quorum and a validity set always share an authority. */
  lemma QuorumMeetsValidity(c: Committee, s: set<AuthorityId>, t: set<AuthorityId>) returns (id: AuthorityId)
    requires c.Weight(s) >= c.Quorum() && c.Weight(t) >= c.Validity()
    ensures id in s && id in t
  {
    InclusionExclusion(c.authorities, s, t);
    WeightMonotone(c.authorities, s, s + t);
    ThresholdsAreComplementary(c);
    WeightEmpty(c.authorities);
    assert s * t != {};
    id :| id in s * t;
  }

  /** `CommitteeInner`: the index by id and the cached thresholds that `load` fills in. */
  class CommitteeInner {
    const committee: Committee
    var byId: map<AuthorityId, nat>
    var quorumThreshold: nat
    var validityThreshold: nat

    constructor (c: Committee)
      requires c.Valid()
      ensures committee == c && Loaded()
    {
      committee := c;
      byId, quorumThreshold, validityThreshold := map[], 0, 0;
      new;
      Load();
    }

    ghost predicate Loaded() reads this {
      && quorumThreshold == committee.Quorum()
      && validityThreshold == committee.Validity()
      && byId.Keys == committee.Ids()
      && forall id :: id in byId ==> byId[id] == committee.PowerOf(id)
    }

    method Load()
      requires committee.Valid()
      modifies this
      ensures Loaded()
    {
      var total, i := 0, 0;
      byId := map[];
      while i < |committee.authorities|
        invariant 0 <= i <= |committee.authorities|
        invariant total + TotalPower(committee.authorities[i..]) == committee.Total()
        invariant byId.Keys == set a | a in committee.authorities[..i] :: a.id
        invariant forall id :: id in byId ==> byId[id] == committee.PowerOf(id)
      {
        var a := committee.authorities[i];
        IndexById(committee.authorities, i);
        byId := byId[a.id := a.power];
        total := total + a.power;
        assert committee.authorities[..i + 1] == committee.authorities[..i] + [a];
        i := i + 1;
      }
      assert committee.authorities[..i] == committee.authorities;
      validityThreshold := if total == 0 then 1 else (total + 2) / 3;
      quorumThreshold := 2 * total / 3 + 1;
    }

    method VotingPowerById(id: AuthorityId) returns (power: nat)
      requires committee.Valid() && Loaded()
      ensures power == committee.PowerOf(id)
      ensures id !in committee.Ids() ==> power == 0
    {
      power := if id in byId then byId[id] else 0;
      if id !in byId { UnknownWeighsNothing(committee.authorities, id); }
    }
  }

  lemma {:induction false} IndexById(a: seq<Authority>, i: nat)
    requires DistinctIds(a) && i < |a|
    ensures PowerById(a, a[i].id) == a[i].power
  {
    if i > 0 { IndexById(a[1..], i - 1); }
  }
}
