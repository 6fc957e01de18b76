/** The voter's check of a header's parents, and why the certificates that exist form the world Bullshark
    relies on.
    Source: crates/consensus/primary/src/network/handler.rs */
module ParentChecks {
  import opened Basics
  import opened Committees
  import opened Voting
  import opened Certification
  import BM = BullsharkModel

  function StakeOf(c: Committee, parents: seq<BM.Cert>): nat {
    if parents == [] then 0 else StakeOf(c, parents[..|parents| - 1]) + c.PowerOf(parents[|parents| - 1].author)
  }

  function AuthorsOf(parents: seq<BM.Cert>): set<AuthorityId> { set p | p in parents :: p.author }

  ghost predicate DistinctParents(parents: seq<BM.Cert>) {
    forall i, j :: 0 <= i < j < |parents| ==> parents[i].author != parents[j].author
  }

  /** What the voter demands of the parents: from the round before, not created later, by distinct
      authorities, and a quorum. */
  ghost predicate ParentsPass(c: Committee, created: BM.Cert -> nat, x: BM.Cert) {
    && (forall p :: p in x.parents ==> p.round + 1 == x.round && created(p) <= created(x))
    && DistinctParents(x.parents)
    && StakeOf(c, x.parents) >= c.Quorum()
  }

  /** The loop of `vote` over the parents it read. */
  method VerifyParents(c: Committee, created: BM.Cert -> nat, x: BM.Cert) returns (ok: bool)
    ensures ok <==> ParentsPass(c, created, x)
  {
    var authorities: set<AuthorityId>, stake, i := {}, 0, 0;
    var parents := x.parents;
    while i < |parents|
      invariant 0 <= i <= |parents|
      invariant forall j :: 0 <= j < i ==> parents[j].round + 1 == x.round && created(parents[j]) <= created(x)
      invariant DistinctParents(parents[..i]) && stake == StakeOf(c, parents[..i])
      invariant forall a :: a in authorities <==> exists j :: 0 <= j < i && parents[j].author == a
    {
      var parent := parents[i];
      if parent.round + 1 != x.round || created(x) < created(parent) {
        assert parent in parents;
        return false;
      }
      if parent.author in authorities { return false; }
      authorities := authorities + {parent.author};
      assert parents[..i + 1][..i] == parents[..i];
      stake := stake + c.PowerOf(parent.author);
      i := i + 1;
    }
    assert parents[..i] == parents;
    ok := stake >= c.Quorum();
  }

  lemma {:induction false} StakeIsWeight(c: Committee, parents: seq<BM.Cert>)
    requires DistinctIds(c.authorities) && DistinctParents(parents)
    ensures StakeOf(c, parents) == c.Weight(AuthorsOf(parents))
  {
    if parents == [] {
      WeightEmpty(c.authorities);
      assert AuthorsOf(parents) == {};
    } else {
      var n := |parents| - 1;
      StakeIsWeight(c, parents[..n]);
      assert parents == parents[..n] + [parents[n]];
      assert AuthorsOf(parents) == AuthorsOf(parents[..n]) + {parents[n].author};
      AddAuthority(c, AuthorsOf(parents[..n]), parents[n].author);
    }
  }

  /** What an honest node has made sure of before it signs: the parents pass, and were read from its store of
      accepted certificates, or are the genesis certificates below round one. */
  ghost predicate Checked(c: Committee, created: BM.Cert -> nat, u: set<BM.Cert>, x: BM.Cert) {
    && ParentsPass(c, created, x)
    && (forall p :: p in x.parents ==> p in u || (p.round == 0 && p.parents == []))
  }

  lemma CheckedIsSound(c: Committee, created: BM.Cert -> nat, u: set<BM.Cert>, x: BM.Cert)
    requires DistinctIds(c.authorities) && Checked(c, created, u, x) && forall z :: z in u ==> z.round > 0
    ensures BM.SoundParents(c, u, x)
  {
    if x.parents == [] { assert false; }
    assert x.parents[0] in x.parents;
    StakeIsWeight(c, x.parents);
    assert AuthorsOf(x.parents) == BM.Authors(BM.ParentSet(x));
  }

  /** Below the fault bound, an honest node signed every certified header. */
  lemma HonestSigner(c: Committee, signed: map<AuthorityId, set<Header>>, faulty: set<AuthorityId>, cert: Certificate)
    returns (a: AuthorityId)
    requires c.Weight(faulty) < c.Validity() && Certified(c, signed, cert)
    ensures a in signed && a !in faulty && cert.header in signed[a]
  {
    if cert.signers <= faulty {
      WeightMonotone(c.authorities, cert.signers, faulty);
      assert false;
    }
    a :| a in cert.signers && a !in faulty;
  }

  /** Each certificate that exists was certified, for a header that determines it. */
  ghost predicate AllCertified(c: Committee, signed: map<AuthorityId, set<Header>>, u: set<BM.Cert>,
                               certified: BM.Cert -> Certificate) {
    && (forall z :: z in u ==>
          var h := certified(z).header;
          && Certified(c, signed, certified(z))
          && h.author == z.author && h.Round() == z.round && h.Epoch() == c.epoch && z.round > 0)
    && (forall z, w :: z in u && w in u && certified(z).header == certified(w).header ==> z == w)
  }

  /** Certification gives Bullshark its world: if the authorities that break the voting rule weigh less than
      the validity threshold and the others sign one header per slot and only checked ones, then there is
      one certificate per author and round, each naming a quorum of the round before. */
  lemma CertifiedWorld(c: Committee, created: BM.Cert -> nat, signed: map<AuthorityId, set<Header>>,
                       faulty: set<AuthorityId>, u: set<BM.Cert>, certified: BM.Cert -> Certificate)
    requires DistinctIds(c.authorities) && c.Weight(faulty) < c.Validity() && AllCertified(c, signed, u, certified)
    requires forall a :: a in signed && a !in faulty ==> OnePerSlot(signed[a])
    requires forall z, a :: z in u && a in signed && a !in faulty && certified(z).header in signed[a] ==>
               Checked(c, created, u, z)
    ensures BM.World(c, u)
  {
    forall x, y | x in u && y in u && BM.SameSlot(x, y) ensures x == y {
      CertificatesAreUnique(c, signed, faulty, certified(x), certified(y));
    }
    forall x | x in u ensures BM.SoundParents(c, u, x) {
      var a := HonestSigner(c, signed, faulty, certified(x));
      CheckedIsSound(c, created, u, x);
    }
  }
}
