/** Bullshark's commit rule on certificates as values: which leader is committed next, why every node
    picks the same one, and the total order of sub-dags that follows.
    Source: crates/consensus/primary/src/consensus/bullshark.rs, utils.rs, state.rs, leader_schedule.rs */
module BullsharkModel {
  import opened Basics
  import opened Committees

  /** A certificate is identified with its digest, so its parents are the certificates themselves, in
      the order of the header's sorted set. */
  datatype Cert = Cert(round: nat, author: AuthorityId, parents: seq<Cert>, content: nat)

  datatype SubDag = SubDag(leader: Cert, certificates: seq<Cert>)

  function Authors(certs: set<Cert>): set<AuthorityId> { set x | x in certs :: x.author }

  function ParentSet(x: Cert): set<Cert> { set p | p in x.parents }

  // ---------- the certificates that exist ----------

  ghost predicate SoundParents(c: Committee, u: set<Cert>, x: Cert) {
    && x.round > 0
    && (forall p :: p in x.parents ==> p.round == x.round - 1)
    && (x.round == 1 ==> forall p :: p in x.parents ==> p.parents == [])
    && (x.round >= 2 ==> ParentSet(x) <= u && c.Weight(Authors(ParentSet(x))) >= c.Quorum())
  }

  predicate SameSlot(x: Cert, y: Cert) { x.round == y.round && x.author == y.author }

  /** One certificate per author and round, each naming a quorum of the round before. */
  ghost predicate World(c: Committee, u: set<Cert>) {
    && (forall x, y {:trigger SameSlot(x, y)} :: x in u && y in u && SameSlot(x, y) ==> x == y)
    && (forall x {:trigger SoundParents(c, u, x)} :: x in u ==> SoundParents(c, u, x))
  }

  // ---------- paths ----------

  ghost predicate Reach(x: Cert, y: Cert)
    decreases x
  {
    x == y || exists i :: 0 <= i < |x.parents| && Reach(x.parents[i], y)
  }

  lemma ReachParent(x: Cert, p: Cert, y: Cert)
    requires p in x.parents && Reach(p, y)
    ensures Reach(x, y)
  {
    var i :| 0 <= i < |x.parents| && x.parents[i] == p;
  }

  lemma {:induction false} ReachTransitive(x: Cert, y: Cert, z: Cert)
    requires Reach(x, y) && Reach(y, z)
    ensures Reach(x, z)
    decreases x
  {
    if x != y {
      var i :| 0 <= i < |x.parents| && Reach(x.parents[i], y);
      ReachTransitive(x.parents[i], y, z);
    }
  }

  /** From a certificate that exists, everything reached above round zero exists, and rounds go down. */
  lemma {:induction false} ReachInWorld(c: Committee, u: set<Cert>, x: Cert, y: Cert)
    requires World(c, u) && x in u && Reach(x, y)
    ensures y.round <= x.round && (y.round == x.round ==> y == x) && (y.round > 0 ==> y in u)
    decreases x
  {
    if x != y {
      var i :| 0 <= i < |x.parents| && Reach(x.parents[i], y);
      var p := x.parents[i];
      assert p in x.parents && SoundParents(c, u, x);
      if x.round >= 2 {
        assert p in ParentSet(x);
        ReachInWorld(c, u, p, y);
      }
    }
  }

  /** The search for an ancestor by round and author. */
  function Find(x: Cert, round: nat, author: AuthorityId): Option<Cert>
    decreases x, 0
  {
    if x.round == round && x.author == author then Some(x) else FindIn(x, |x.parents|, round, author)
  }

  function FindIn(x: Cert, n: nat, round: nat, author: AuthorityId): Option<Cert>
    requires n <= |x.parents|
    decreases x, 0, n
  {
    if n == 0 then None
    else
      var found := Find(x.parents[n - 1], round, author);
      if found.Some? then found else FindIn(x, n - 1, round, author)
  }

  lemma {:induction false} FoundIsReached(x: Cert, round: nat, author: AuthorityId)
    requires Find(x, round, author).Some?
    ensures var y := Find(x, round, author).value; Reach(x, y) && y.round == round && y.author == author
    decreases x, 0
  {
    if !(x.round == round && x.author == author) { FoundInIsReached(x, |x.parents|, round, author); }
  }

  lemma {:induction false} FoundInIsReached(x: Cert, n: nat, round: nat, author: AuthorityId)
    requires n <= |x.parents| && FindIn(x, n, round, author).Some?
    ensures var y := FindIn(x, n, round, author).value; Reach(x, y) && y.round == round && y.author == author
    decreases x, 0, n
  {
    if Find(x.parents[n - 1], round, author).Some? {
      FoundIsReached(x.parents[n - 1], round, author);
    } else {
      FoundInIsReached(x, n - 1, round, author);
    }
  }

  lemma {:induction false} ReachedIsFound(x: Cert, y: Cert)
    requires Reach(x, y)
    ensures Find(x, y.round, y.author).Some?
    decreases x
  {
    if x != y {
      var i :| 0 <= i < |x.parents| && Reach(x.parents[i], y);
      ReachedIsFound(x.parents[i], y);
      FoundAmong(x, i, |x.parents|, y.round, y.author);
    }
  }

  lemma {:induction false} FoundAmong(x: Cert, i: nat, n: nat, round: nat, author: AuthorityId)
    requires i < n <= |x.parents| && Find(x.parents[i], round, author).Some?
    ensures FindIn(x, n, round, author).Some?
  {
    if i < n - 1 { FoundAmong(x, i, n - 1, round, author); }
  }

  /** Where certificates are unique, the search finds exactly the ancestor there is. */
  lemma FindIffReach(c: Committee, u: set<Cert>, x: Cert, y: Cert)
    requires World(c, u) && x in u && y in u
    ensures Find(x, y.round, y.author) == Some(y) <==> Reach(x, y)
    ensures Find(x, y.round, y.author).Some? ==> Find(x, y.round, y.author) == Some(y)
  {
    var found := Find(x, y.round, y.author);
    if found.Some? {
      FoundIsReached(x, y.round, y.author);
      assert SoundParents(c, u, y);
      ReachInWorld(c, u, x, found.value);
      assert SameSlot(found.value, y);
    }
    if Reach(x, y) { ReachedIsFound(x, y); }
  }

  // ---------- support ----------

  /** `supporters` are certificates of the next round naming `leader`, weighing the validity threshold. */
  ghost predicate Supports(c: Committee, u: set<Cert>, leader: Cert, supporters: set<Cert>) {
    && supporters <= u
    && (forall s :: s in supporters ==> s.round == leader.round + 1 && leader in s.parents)
    && c.Weight(Authors(supporters)) >= c.Validity()
  }

  /** Two rounds above a supported leader, every certificate has a path to it. */
  lemma {:induction false} SupportedIsReached(c: Committee, u: set<Cert>, leader: Cert, supporters: set<Cert>, x: Cert)
    requires World(c, u) && x in u && x.round >= leader.round + 2
    requires Supports(c, u, leader, supporters)
    ensures Reach(x, leader)
    decreases x
  {
    assert SoundParents(c, u, x);
    var id := QuorumMeetsValidity(c, Authors(ParentSet(x)), Authors(supporters));
    var p :| p in ParentSet(x) && p.author == id;
    if x.round == leader.round + 2 {
      var s :| s in supporters && s.author == id;
      assert SameSlot(p, s);
      ReachParent(p, leader, leader);
    } else {
      SupportedIsReached(c, u, leader, supporters, p);
    }
    ReachParent(x, p, leader);
  }

  // ---------- the commit rule ----------

  /** `elect` is the leader election under the swap table computed from a list of committed sub-dags. */
  datatype Config = Config(committee: Committee, gcDepth: nat, epoch: nat, perSchedule: nat,
                           elect: (seq<SubDag>, nat) -> AuthorityId)

  /** Whether a sub-dag closes its schedule window; its index is the leader's nonce. */
  predicate FinalOfSchedule(cfg: Config, s: SubDag) {
    cfg.perSchedule > 0 && ((cfg.epoch * 0x1_0000_0000 + s.leader.round) / 2 + 1) % cfg.perSchedule == 0
  }

  /** Where, from a leader round on, the window closes. */
  function FinalOffset(cfg: Config, first: nat): (k: nat)
    requires cfg.perSchedule > 0
    ensures k < cfg.perSchedule
  {
    var r := (cfg.epoch * 0x8000_0000 + first + 1) % cfg.perSchedule;
    if r == 0 then 0 else cfg.perSchedule - r
  }

  /** Of any `perSchedule` consecutive leader rounds exactly one closes a window. */
  lemma OneFinalPerWindow(cfg: Config, first: nat, s: SubDag, j: nat)
    requires j < cfg.perSchedule && s.leader.round == 2 * (first + j)
    ensures FinalOfSchedule(cfg, s) <==> j == FinalOffset(cfg, first)
  {
    var base := cfg.epoch * 0x8000_0000 + first + 1;
    assert (cfg.epoch * 0x1_0000_0000 + s.leader.round) / 2 + 1 == base + j;
    OneMultiple(base, cfg.perSchedule, j, FinalOffset(cfg, first));
  }

  lemma OneMultiple(base: nat, n: nat, j: nat, k: nat)
    requires n > 0 && j < n && k == if base % n == 0 then 0 else n - base % n
    ensures (base + j) % n == 0 <==> j == k
  {
    var q, r := base / n, base % n;
    assert base == n * q + r;
    var t := r + j;
    if t < n {
      assert base + j == n * q + t;
      SmallRemainder(n, q, t);
    } else {
      assert base + j == n * (q + 1) + (t - n);
      SmallRemainder(n, q + 1, t - n);
    }
  }

  lemma SmallRemainder(n: nat, q: nat, r: nat)
    requires r < n
    ensures (n * q + r) % n == r
  {
    var x := n * q + r;
    OneRemainder(n, q, r, x / n, x % n);
  }

  lemma OneRemainder(n: nat, q: nat, r: nat, a: nat, b: nat)
    requires r < n && b < n && n * q + r == n * a + b
    ensures r == b
  {
    if a > q {
      AtLeastOnce(n, q, a);
    } else if q > a {
      AtLeastOnce(n, a, q);
    }
  }

  lemma AtLeastOnce(n: nat, q: nat, a: nat)
    requires a > q
    ensures n * a >= n * q + n
  {
    assert n * a == n * (q + 1) + n * (a - q - 1);
    assert n * (q + 1) == n * q + n;
  }

  /** The committed sub-dags the active swap table was computed from. */
  function ActiveTable(cfg: Config, h: seq<SubDag>): seq<SubDag> {
    if h == [] then [] else if FinalOfSchedule(cfg, h[|h| - 1]) then h else ActiveTable(cfg, h[..|h| - 1])
  }

  /** They are those up to the last one that closed a window. */
  lemma {:induction false} ActiveTableIsLastWindow(cfg: Config, h: seq<SubDag>)
    ensures var n := |ActiveTable(cfg, h)|;
            && n <= |h| && ActiveTable(cfg, h) == h[..n]
            && (n > 0 ==> FinalOfSchedule(cfg, h[n - 1]))
            && forall i :: n <= i < |h| ==> !FinalOfSchedule(cfg, h[i])
  {
    if h != [] {
      var m := |h| - 1;
      if FinalOfSchedule(cfg, h[m]) {
        assert h[..|h|] == h;
      } else {
        ActiveTableIsLastWindow(cfg, h[..m]);
        var n := |ActiveTable(cfg, h[..m])|;
        assert h[..m][..n] == h[..n];
        forall i | n <= i < |h| ensures !FinalOfSchedule(cfg, h[i]) { if i < m { assert h[i] == h[..m][i]; } }
      }
    }
  }

  function LeaderOf(cfg: Config, h: seq<SubDag>, round: nat): AuthorityId { cfg.elect(ActiveTable(cfg, h), round) }

  function CommittedRound(h: seq<SubDag>): nat { if h == [] then 0 else h[|h| - 1].leader.round }

  /** `order_leaders` from `cur` down: the leaders of rounds `r`, `r - 2`, … above `floor` that the last one
      found has a path to, lowest round first. */
  function Leaders(cfg: Config, table: seq<SubDag>, cur: Cert, r: nat, floor: nat): (ls: seq<Cert>)
    ensures ls != [] && ls[|ls| - 1] == cur
    decreases r
  {
    if r <= floor || r < 2 then [cur]
    else
      var prev := Find(cur, r, cfg.elect(table, r));
      if prev.Some? then Leaders(cfg, table, prev.value, r - 2, floor) + [cur]
      else Leaders(cfg, table, cur, r - 2, floor)
  }

  function Below(round: nat): nat { if round < 2 then 0 else round - 2 }

  /** The leader committed next when `top` is found supported. */
  function NextLeader(cfg: Config, h: seq<SubDag>, top: Cert): Cert {
    Leaders(cfg, ActiveTable(cfg, h), top, Below(top.round), CommittedRound(h))[0]
  }

  /** `top` is the elected and supported leader of an even round above everything committed. */
  ghost predicate Committable(cfg: Config, u: set<Cert>, h: seq<SubDag>, top: Cert, supporters: set<Cert>) {
    && top in u && top.round % 2 == 0 && top.round > CommittedRound(h)
    && top.author == LeaderOf(cfg, h, top.round)
    && Supports(cfg.committee, u, top, supporters)
  }

  lemma SupportedIsFound(c: Committee, u: set<Cert>, leader: Cert, supporters: set<Cert>, x: Cert)
    requires World(c, u) && x in u && leader in u && x.round >= leader.round + 2 && Supports(c, u, leader, supporters)
    ensures leader.round > 0 && Find(x, leader.round, leader.author) == Some(leader)
  {
    assert SoundParents(c, u, leader);
    SupportedIsReached(c, u, leader, supporters, x);
    FindIffReach(c, u, x, leader);
  }

  lemma FoundExists(c: Committee, u: set<Cert>, x: Cert, round: nat, author: AuthorityId)
    requires World(c, u) && x in u && round > 0 && Find(x, round, author).Some?
    ensures Find(x, round, author).value in u && Find(x, round, author).value.round == round
  {
    FoundIsReached(x, round, author);
    ReachInWorld(c, u, x, Find(x, round, author).value);
  }

  /** Walking down from a certificate two or more rounds above a supported leader leads through it. */
  lemma {:induction false} WalkMeetsSupported(cfg: Config, u: set<Cert>, table: seq<SubDag>, leader: Cert,
                                              supporters: set<Cert>, cur: Cert, r: nat, floor: nat)
    requires World(cfg.committee, u) && cur in u && leader in u && Supports(cfg.committee, u, leader, supporters)
    requires leader.round % 2 == 0 && leader.round > floor && leader.author == cfg.elect(table, leader.round)
    requires r % 2 == 0 && leader.round <= r && cur.round >= r + 2
    ensures Leaders(cfg, table, cur, r, floor)[0] == Leaders(cfg, table, leader, Below(leader.round), floor)[0]
    decreases r
  {
    var prev := Find(cur, r, cfg.elect(table, r));
    if r == leader.round {
      SupportedIsFound(cfg.committee, u, leader, supporters, cur);
    } else if prev.Some? {
      FoundExists(cfg.committee, u, cur, r, cfg.elect(table, r));
      WalkMeetsSupported(cfg, u, table, leader, supporters, prev.value, r - 2, floor);
    } else {
      WalkMeetsSupported(cfg, u, table, leader, supporters, cur, r - 2, floor);
    }
  }

  /** The heart of agreement: after the same commits, whichever supported leaders two nodes start from,
      they commit the same leader next. */
  lemma NextLeaderIsUnique(cfg: Config, u: set<Cert>, h: seq<SubDag>, x: Cert, sx: set<Cert>, y: Cert, sy: set<Cert>)
    requires World(cfg.committee, u)
    requires Committable(cfg, u, h, x, sx) && Committable(cfg, u, h, y, sy)
    ensures NextLeader(cfg, h, x) == NextLeader(cfg, h, y)
  {
    var table, floor := ActiveTable(cfg, h), CommittedRound(h);
    if x.round < y.round {
      WalkMeetsSupported(cfg, u, table, x, sx, y, y.round - 2, floor);
    } else if y.round < x.round {
      WalkMeetsSupported(cfg, u, table, y, sy, x, x.round - 2, floor);
    } else {
      assert SameSlot(x, y);
    }
  }

  /** After its first leader is committed, the rest of the list is the list from the new floor. */
  lemma {:induction false} LeadersTail(cfg: Config, u: set<Cert>, table: seq<SubDag>, cur: Cert, r: nat, floor: nat)
    requires World(cfg.committee, u) && cur in u && cur.round >= r + 2
    requires |Leaders(cfg, table, cur, r, floor)| > 1
    ensures var ls := Leaders(cfg, table, cur, r, floor);
            ls[0].round <= r && Leaders(cfg, table, cur, r, ls[0].round) == ls[1..]
    decreases r
  {
    var prev := Find(cur, r, cfg.elect(table, r));
    if prev.Some? {
      FoundIsReached(cur, r, cfg.elect(table, r));
      ReachInWorld(cfg.committee, u, cur, prev.value);
      var rest := Leaders(cfg, table, prev.value, r - 2, floor);
      if |rest| > 1 {
        LeadersTail(cfg, u, table, prev.value, r - 2, floor);
        assert (rest + [cur])[1..] == rest[1..] + [cur];
      } else {
        assert rest == [prev.value];
      }
    } else {
      LeadersTail(cfg, u, table, cur, r - 2, floor);
    }
  }

  /** Every leader on the list exists, has an even round above the floor and was elected for it. */
  lemma {:induction false} LeadersAreElected(cfg: Config, u: set<Cert>, table: seq<SubDag>, cur: Cert, r: nat,
                                             floor: nat, i: nat)
    requires World(cfg.committee, u) && cur in u && r % 2 == 0 && cur.round % 2 == 0 && cur.round > floor
    requires cur.author == cfg.elect(table, cur.round)
    requires i < |Leaders(cfg, table, cur, r, floor)|
    ensures var l := Leaders(cfg, table, cur, r, floor)[i];
            l in u && l.round % 2 == 0 && l.round > floor && l.author == cfg.elect(table, l.round) && Reach(cur, l)
    decreases r
  {
    if r > floor && r >= 2 {
      var prev := Find(cur, r, cfg.elect(table, r));
      if prev.Some? {
        FoundIsReached(cur, r, cfg.elect(table, r));
        ReachInWorld(cfg.committee, u, cur, prev.value);
        if i < |Leaders(cfg, table, prev.value, r - 2, floor)| {
          LeadersAreElected(cfg, u, table, prev.value, r - 2, floor, i);
          ReachTransitive(cur, prev.value, Leaders(cfg, table, prev.value, r - 2, floor)[i]);
        }
      } else {
        LeadersAreElected(cfg, u, table, cur, r - 2, floor, i);
      }
    }
  }

  /** No leader is skipped: an elected ancestor of a leader on the list, above the floor, is never above the
      next lower leader of the list. */
  lemma {:induction false} NoLeaderSkipped(cfg: Config, u: set<Cert>, table: seq<SubDag>, cur: Cert, r: nat,
                                           floor: nat, i: nat, y: Cert)
    requires World(cfg.committee, u) && cur in u && r % 2 == 0 && r < cur.round
    requires y.round % 2 == 0 && y.round > floor && y.author == cfg.elect(table, y.round)
    requires i < |Leaders(cfg, table, cur, r, floor)|
    requires var l := Leaders(cfg, table, cur, r, floor)[i]; Reach(l, y) && y.round < l.round
    requires i == |Leaders(cfg, table, cur, r, floor)| - 1 ==> y.round <= r
    ensures i > 0 && Leaders(cfg, table, cur, r, floor)[i - 1].round >= y.round
    decreases r
  {
    if r > floor && r >= 2 {
      var prev := Find(cur, r, cfg.elect(table, r));
      if prev.Some? {
        FoundExists(cfg.committee, u, cur, r, cfg.elect(table, r));
        if i < |Leaders(cfg, table, prev.value, r - 2, floor)| {
          NoLeaderSkipped(cfg, u, table, prev.value, r - 2, floor, i, y);
        }
      } else {
        if i == |Leaders(cfg, table, cur, r, floor)| - 1 { ReachedIsFound(cur, y); }
        NoLeaderSkipped(cfg, u, table, cur, r - 2, floor, i, y);
      }
    }
  }

  // ---------- flattening a sub-dag ----------

  type LastRounds = map<AuthorityId, nat>

  function Update(last: LastRounds, x: Cert): LastRounds {
    last[x.author := if x.author in last && last[x.author] > x.round then last[x.author] else x.round]
  }

  function UpdateAll(last: LastRounds, xs: seq<Cert>): LastRounds {
    if xs == [] then last else Update(UpdateAll(last, xs[..|xs| - 1]), xs[|xs| - 1])
  }

  /** The last committed round of each authority after a list of commits. */
  function LastCommitted(h: seq<SubDag>): LastRounds {
    if h == [] then map[] else UpdateAll(LastCommitted(h[..|h| - 1]), h[|h| - 1].certificates)
  }

  /** Committed already, or never to be committed, for its author. */
  predicate Done(last: LastRounds, x: Cert) { x.author in last && x.round <= last[x.author] }

  function Size(x: Cert): nat
    decreases x, 0
  {
    1 + SizeOfParents(x, |x.parents|)
  }

  function SizeOfParents(x: Cert, n: nat): nat
    requires n <= |x.parents|
    decreases x, 0, n
  {
    if n == 0 then 0 else SizeOfParents(x, n - 1) + Size(x.parents[n - 1])
  }

  function StackSize(stack: seq<Cert>): nat {
    if stack == [] then 0 else StackSize(stack[..|stack| - 1]) + Size(stack[|stack| - 1])
  }

  /** Pushing the first `n` parents of `x`, skipping those seen or done. */
  function Push(x: Cert, n: nat, stack: seq<Cert>, seen: set<Cert>, last: LastRounds): (seq<Cert>, set<Cert>)
    requires n <= |x.parents|
  {
    if n == 0 then (stack, seen)
    else
      var (stack', seen') := Push(x, n - 1, stack, seen, last);
      var p := x.parents[n - 1];
      if p in seen' || Done(last, p) then (stack', seen') else (stack' + [p], seen' + {p})
  }

  lemma {:induction false} PushedSize(x: Cert, n: nat, stack: seq<Cert>, seen: set<Cert>, last: LastRounds)
    requires n <= |x.parents|
    ensures StackSize(Push(x, n, stack, seen, last).0) <= StackSize(stack) + SizeOfParents(x, n)
  {
    if n > 0 {
      PushedSize(x, n - 1, stack, seen, last);
      var (stack', seen') := Push(x, n - 1, stack, seen, last);
      assert (stack' + [x.parents[n - 1]])[..|stack'|] == stack';
    }
  }

  /** One turn of the search: what is left to visit once `x` is ordered. */
  function Expand(x: Cert, rest: seq<Cert>, seen: set<Cert>, last: LastRounds, gc: nat): (seq<Cert>, set<Cert>) {
    if x.round == gc + 1 then (rest, seen) else Push(x, |x.parents|, rest, seen, last)
  }

  /** The depth-first search of `order_dag`. */
  function Search(stack: seq<Cert>, seen: set<Cert>, ordered: seq<Cert>, last: LastRounds, gc: nat): seq<Cert>
    decreases StackSize(stack)
  {
    if stack == [] then ordered
    else
      var x, rest := stack[|stack| - 1], stack[..|stack| - 1];
      var (stack', seen') := Expand(x, rest, seen, last, gc);
      PushedSize(x, |x.parents|, rest, seen, last);
      Search(stack', seen', ordered + [x], last, gc)
  }

  function InsertByRound(s: seq<Cert>, x: Cert): seq<Cert> {
    if s == [] || s[|s| - 1].round <= x.round then s + [x]
    else InsertByRound(s[..|s| - 1], x) + [s[|s| - 1]]
  }

  /** The stable sort by round. */
  function SortByRound(xs: seq<Cert>): seq<Cert> {
    if xs == [] then [] else InsertByRound(SortByRound(xs[..|xs| - 1]), xs[|xs| - 1])
  }

  function GcRound(round: nat, depth: nat): nat { if round < depth then 0 else round - depth }

  function SubDagOf(cfg: Config, h: seq<SubDag>, leader: Cert): SubDag {
    SubDag(leader, SortByRound(Search([leader], {}, [], LastCommitted(h), GcRound(leader.round, cfg.gcDepth))))
  }

  ghost predicate SortedByRound(s: seq<Cert>) {
    forall i, j :: 0 <= i < j < |s| ==> s[i].round <= s[j].round
  }

  function OfRound(s: seq<Cert>, r: nat): seq<Cert> {
    if s == [] then [] else OfRound(s[..|s| - 1], r) + if s[|s| - 1].round == r then [s[|s| - 1]] else []
  }

  lemma {:induction false} InsertFacts(s: seq<Cert>, x: Cert)
    requires SortedByRound(s)
    ensures SortedByRound(InsertByRound(s, x)) && multiset(InsertByRound(s, x)) == multiset(s) + multiset{x}
  {
    if s != [] {
      var n := |s| - 1;
      assert s == s[..n] + [s[n]];
      if s[n].round > x.round {
        InsertFacts(s[..n], x);
        var t := InsertByRound(s[..n], x);
        forall i | 0 <= i < |t| ensures t[i].round <= s[n].round {
          assert t[i] in multiset(t);
          assert t[i] in multiset(s[..n]) || t[i] == x;
        }
      }
    }
  }

  lemma OfRoundSnoc(s: seq<Cert>, x: Cert, r: nat)
    ensures OfRound(s + [x], r) == OfRound(s, r) + if x.round == r then [x] else []
  {
    assert (s + [x])[..|s|] == s;
  }

  lemma {:induction false} InsertIsStable(s: seq<Cert>, x: Cert, r: nat)
    ensures OfRound(InsertByRound(s, x), r) == OfRound(s, r) + if x.round == r then [x] else []
  {
    if s == [] || s[|s| - 1].round <= x.round {
      OfRoundSnoc(s, x, r);
    } else {
      var n := |s| - 1;
      InsertIsStable(s[..n], x, r);
      OfRoundSnoc(InsertByRound(s[..n], x), s[n], r);
    }
  }

  /** The sort is by round, loses and adds nothing, and keeps the search's order within a round. */
  lemma {:induction false} SortFacts(xs: seq<Cert>, r: nat)
    ensures SortedByRound(SortByRound(xs)) && multiset(SortByRound(xs)) == multiset(xs)
    ensures OfRound(SortByRound(xs), r) == OfRound(xs, r)
  {
    if xs != [] {
      var n := |xs| - 1;
      assert xs == xs[..n] + [xs[n]];
      SortFacts(xs[..n], r);
      InsertFacts(SortByRound(xs[..n]), xs[n]);
      InsertIsStable(SortByRound(xs[..n]), xs[n], r);
    }
  }

  // ---------- what the search visits ----------

  /** The reference: `y` hangs below `x` by parents that are not done, above the garbage-collected rounds. */
  ghost predicate Hangs(x: Cert, y: Cert, last: LastRounds, gc: nat)
    decreases x
  {
    || x == y
    || (x.round > gc + 1
        && exists i :: 0 <= i < |x.parents| && !Done(last, x.parents[i]) && Hangs(x.parents[i], y, last, gc))
  }

  lemma {:induction false} HangsExtends(x: Cert, y: Cert, p: Cert, last: LastRounds, gc: nat)
    requires Hangs(x, y, last, gc) && y.round > gc + 1 && p in y.parents && !Done(last, p)
    ensures Hangs(x, p, last, gc)
    decreases x
  {
    if x == y {
      var i :| 0 <= i < |y.parents| && y.parents[i] == p;
      assert Hangs(y.parents[i], p, last, gc);
    } else {
      var i :| 0 <= i < |x.parents| && !Done(last, x.parents[i]) && Hangs(x.parents[i], y, last, gc);
      HangsExtends(x.parents[i], y, p, last, gc);
    }
  }

  lemma {:induction false} HangsIsReach(x: Cert, y: Cert, last: LastRounds, gc: nat)
    requires Hangs(x, y, last, gc)
    ensures Reach(x, y)
    decreases x
  {
    if x != y {
      var i :| 0 <= i < |x.parents| && !Done(last, x.parents[i]) && Hangs(x.parents[i], y, last, gc);
      HangsIsReach(x.parents[i], y, last, gc);
    }
  }

  function Count(b: bool): nat { if b then 1 else 0 }

  lemma {:induction false} Pushed(x: Cert, n: nat, stack: seq<Cert>, seen: set<Cert>, last: LastRounds, y: Cert)
    requires n <= |x.parents|
    ensures var (stack', seen') := Push(x, n, stack, seen, last);
            && seen <= seen'
            && (y in seen' && y !in seen ==> y in x.parents && !Done(last, y))
            && (y in x.parents[..n] ==> y in seen' || Done(last, y))
            && multiset(stack')[y] == multiset(stack)[y] + Count(y in seen' && y !in seen)
  {
    if n > 0 {
      Pushed(x, n - 1, stack, seen, last, y);
      assert x.parents[..n] == x.parents[..n - 1] + [x.parents[n - 1]];
    }
  }

  lemma Expanded(x: Cert, rest: seq<Cert>, seen: set<Cert>, last: LastRounds, gc: nat, y: Cert)
    requires x.round > gc
    ensures var (stack', seen') := Expand(x, rest, seen, last, gc);
            && seen <= seen'
            && (y in seen' && y !in seen ==> y in x.parents && !Done(last, y) && x.round > gc + 1)
            && (y in x.parents && x.round > gc + 1 ==> y in seen' || Done(last, y))
            && multiset(stack')[y] == multiset(rest)[y] + Count(y in seen' && y !in seen)
  {
    Pushed(x, |x.parents|, rest, seen, last, y);
    assert x.parents[..|x.parents|] == x.parents;
  }

  /** Every certificate met is on the stack or ordered, exactly once. */
  ghost predicate MetOnce(leader: Cert, stack: seq<Cert>, seen: set<Cert>, ordered: seq<Cert>) {
    leader !in seen && forall y :: multiset(ordered)[y] + multiset(stack)[y] == Count(y == leader || y in seen)
  }

  /** All of them hang below the leader. */
  ghost predicate AllHang(leader: Cert, seen: set<Cert>, last: LastRounds, gc: nat) {
    forall y :: y in seen ==> Hangs(leader, y, last, gc)
  }

  /** The parents of what is ordered have been met or are done. */
  ghost predicate ParentsMet(ordered: seq<Cert>, seen: set<Cert>, last: LastRounds, gc: nat) {
    forall y, p :: y in ordered && p in y.parents && y.round > gc + 1 ==> p in seen || Done(last, p)
  }

  ghost predicate SearchInv(leader: Cert, stack: seq<Cert>, seen: set<Cert>, ordered: seq<Cert>, last: LastRounds,
                            gc: nat) {
    MetOnce(leader, stack, seen, ordered) && AllHang(leader, seen, last, gc) && ParentsMet(ordered, seen, last, gc)
  }

  lemma ExpandKeepsMetOnce(leader: Cert, stack: seq<Cert>, seen: set<Cert>, ordered: seq<Cert>, last: LastRounds,
                           gc: nat)
    requires stack != [] && MetOnce(leader, stack, seen, ordered)
    requires stack[|stack| - 1].round > gc && leader !in stack[|stack| - 1].parents
    ensures var n := |stack| - 1;
            var (stack', seen') := Expand(stack[n], stack[..n], seen, last, gc);
            MetOnce(leader, stack', seen', ordered + [stack[n]])
  {
    var n := |stack| - 1;
    var x, rest := stack[n], stack[..n];
    assert stack == rest + [x];
    var (stack', seen') := Expand(x, rest, seen, last, gc);
    Expanded(x, rest, seen, last, gc, leader);
    forall y ensures multiset(ordered + [x])[y] + multiset(stack')[y] == Count(y == leader || y in seen') {
      Expanded(x, rest, seen, last, gc, y);
      assert multiset(stack)[y] == multiset(rest)[y] + Count(y == x);
      assert multiset(ordered + [x])[y] == multiset(ordered)[y] + Count(y == x);
    }
  }

  lemma ExpandKeepsHangs(leader: Cert, x: Cert, rest: seq<Cert>, seen: set<Cert>, ordered: seq<Cert>,
                         last: LastRounds, gc: nat)
    requires AllHang(leader, seen, last, gc) && ParentsMet(ordered, seen, last, gc)
    requires Hangs(leader, x, last, gc) && x.round > gc
    ensures var (stack', seen') := Expand(x, rest, seen, last, gc);
            AllHang(leader, seen', last, gc) && ParentsMet(ordered + [x], seen', last, gc)
  {
    var (stack', seen') := Expand(x, rest, seen, last, gc);
    forall y | y in seen' ensures Hangs(leader, y, last, gc) {
      Expanded(x, rest, seen, last, gc, y);
      if y !in seen { HangsExtends(leader, x, y, last, gc); }
    }
    forall y, p | y in ordered + [x] && p in y.parents && y.round > gc + 1 ensures p in seen' || Done(last, p) {
      Expanded(x, rest, seen, last, gc, p);
    }
  }

  lemma ExpandKeepsInv(c: Committee, u: set<Cert>, leader: Cert, stack: seq<Cert>, seen: set<Cert>,
                       ordered: seq<Cert>, last: LastRounds, gc: nat)
    requires World(c, u) && leader in u && leader.round > gc && stack != []
    requires SearchInv(leader, stack, seen, ordered, last, gc)
    ensures var n := |stack| - 1;
            var (stack', seen') := Expand(stack[n], stack[..n], seen, last, gc);
            SearchInv(leader, stack', seen', ordered + [stack[n]], last, gc)
  {
    var n := |stack| - 1;
    var x := stack[n];
    assert multiset(stack)[x] > 0;
    assert x == leader || x in seen;
    OnPath(c, u, leader, x, last, gc);
    ExpandKeepsMetOnce(leader, stack, seen, ordered, last, gc);
    ExpandKeepsHangs(leader, x, stack[..n], seen, ordered, last, gc);
  }

  lemma OnPath(c: Committee, u: set<Cert>, leader: Cert, x: Cert, last: LastRounds, gc: nat)
    requires World(c, u) && leader in u && leader.round > gc && Hangs(leader, x, last, gc)
    ensures x in u && gc < x.round <= leader.round && leader !in x.parents
  {
    HangsIsReach(leader, x, last, gc);
    HangsAboveGc(c, u, leader, x, last, gc);
    ReachInWorld(c, u, leader, x);
    assert SoundParents(c, u, x);
  }

  lemma {:induction false} HangsAboveGc(c: Committee, u: set<Cert>, x: Cert, y: Cert, last: LastRounds, gc: nat)
    requires World(c, u) && x in u && x.round > gc && Hangs(x, y, last, gc)
    ensures y.round > gc
    decreases x
  {
    if x != y {
      var i :| 0 <= i < |x.parents| && !Done(last, x.parents[i]) && Hangs(x.parents[i], y, last, gc);
      assert SoundParents(c, u, x) && x.parents[i] in ParentSet(x);
      HangsAboveGc(c, u, x.parents[i], y, last, gc);
    }
  }

  /** When the search ends, what it ordered is exactly what hangs below the leader, each once. */
  lemma {:induction false} SearchFinds(c: Committee, u: set<Cert>, leader: Cert, stack: seq<Cert>, seen: set<Cert>,
                                       ordered: seq<Cert>, last: LastRounds, gc: nat, y: Cert)
    requires World(c, u) && leader in u && leader.round > gc
    requires SearchInv(leader, stack, seen, ordered, last, gc)
    ensures multiset(Search(stack, seen, ordered, last, gc))[y] == Count(Hangs(leader, y, last, gc))
    decreases StackSize(stack)
  {
    if stack == [] {
      assert multiset(ordered)[y] + multiset(stack)[y] == Count(y == leader || y in seen);
      if Hangs(leader, y, last, gc) { ClosedUnderHangs(leader, leader, y, seen, ordered, last, gc); }
    } else {
      var n := |stack| - 1;
      PushedSize(stack[n], |stack[n].parents|, stack[..n], seen, last);
      var (stack', seen') := Expand(stack[n], stack[..n], seen, last, gc);
      ExpandKeepsInv(c, u, leader, stack, seen, ordered, last, gc);
      SearchFinds(c, u, leader, stack', seen', ordered + [stack[n]], last, gc, y);
    }
  }

  lemma {:induction false} ClosedUnderHangs(leader: Cert, x: Cert, y: Cert, seen: set<Cert>, ordered: seq<Cert>,
                                            last: LastRounds, gc: nat)
    requires MetOnce(leader, [], seen, ordered) && ParentsMet(ordered, seen, last, gc)
    requires (x == leader || x in seen) && Hangs(x, y, last, gc)
    ensures y == leader || y in seen
    decreases x
  {
    if x != y {
      var i :| 0 <= i < |x.parents| && !Done(last, x.parents[i]) && Hangs(x.parents[i], y, last, gc);
      var none: seq<Cert> := [];
      assert multiset(ordered)[x] + multiset(none)[x] == 1;
      assert x in ordered && x.parents[i] in x.parents;
      ClosedUnderHangs(leader, x.parents[i], y, seen, ordered, last, gc);
    }
  }

  /** A committed sub-dag is exactly what hangs below its leader, each certificate once, in rising rounds. */
  lemma SubDagIsWhatHangs(cfg: Config, u: set<Cert>, h: seq<SubDag>, leader: Cert, y: Cert)
    requires World(cfg.committee, u) && leader in u && cfg.gcDepth > 0
    ensures var s := SubDagOf(cfg, h, leader).certificates;
            && SortedByRound(s)
            && multiset(s)[y] == Count(Hangs(leader, y, LastCommitted(h), GcRound(leader.round, cfg.gcDepth)))
  {
    var last, gc := LastCommitted(h), GcRound(leader.round, cfg.gcDepth);
    assert SoundParents(cfg.committee, u, leader);
    assert SearchInv(leader, [leader], {}, [], last, gc);
    SearchFinds(cfg.committee, u, leader, [leader], {}, [], last, gc, y);
    SortFacts(Search([leader], {}, [], last, gc), 0);
  }

  // ---------- histories ----------

  /** One commit: some leader of an even round was found supported, and the lowest leader below it that
      is still to come was committed with everything that hangs below it. */
  ghost predicate CommitStep(cfg: Config, u: set<Cert>, h: seq<SubDag>, s: SubDag) {
    exists top, supporters :: Committable(cfg, u, h, top, supporters) && s == SubDagOf(cfg, h, NextLeader(cfg, h, top))
  }

  ghost predicate StepAt(cfg: Config, u: set<Cert>, h: seq<SubDag>, i: nat)
    requires i < |h|
  {
    CommitStep(cfg, u, h[..i], h[i])
  }

  /** Every sub-dag of the history was committed by the commit rule after the ones before it. */
  ghost predicate ValidHistory(cfg: Config, u: set<Cert>, h: seq<SubDag>) {
    forall i {:trigger StepAt(cfg, u, h, i)} :: 0 <= i < |h| ==> StepAt(cfg, u, h, i)
  }

  lemma HistoryPrefix(cfg: Config, u: set<Cert>, h: seq<SubDag>, n: nat)
    requires ValidHistory(cfg, u, h) && n <= |h|
    ensures ValidHistory(cfg, u, h[..n])
  {
    forall i | 0 <= i < n ensures StepAt(cfg, u, h[..n], i) {
      assert StepAt(cfg, u, h, i) && h[..n][..i] == h[..i];
    }
  }

  lemma HistorySnoc(cfg: Config, u: set<Cert>, h: seq<SubDag>, s: SubDag)
    requires ValidHistory(cfg, u, h) && CommitStep(cfg, u, h, s)
    ensures ValidHistory(cfg, u, h + [s])
  {
    forall i | 0 <= i < |h + [s]| ensures StepAt(cfg, u, h + [s], i) {
      assert (h + [s])[..i] == h[..i];
      if i < |h| { assert StepAt(cfg, u, h, i); } else { assert h[..i] == h; }
    }
  }

  lemma StepsAgree(cfg: Config, u: set<Cert>, h: seq<SubDag>, s: SubDag, t: SubDag)
    requires World(cfg.committee, u) && CommitStep(cfg, u, h, s) && CommitStep(cfg, u, h, t)
    ensures s == t
  {
    var x, sx :| Committable(cfg, u, h, x, sx) && s == SubDagOf(cfg, h, NextLeader(cfg, h, x));
    var y, sy :| Committable(cfg, u, h, y, sy) && t == SubDagOf(cfg, h, NextLeader(cfg, h, y));
    NextLeaderIsUnique(cfg, u, h, x, sx, y, sy);
  }

  /** Agreement: of any two nodes' committed sequences, one is a prefix of the other. */
  lemma {:induction false} Agreement(cfg: Config, u: set<Cert>, g: seq<SubDag>, h: seq<SubDag>)
    requires World(cfg.committee, u) && ValidHistory(cfg, u, g) && ValidHistory(cfg, u, h) && |g| <= |h|
    ensures g <= h
    decreases |g|
  {
    if g != [] {
      var n := |g| - 1;
      HistoryPrefix(cfg, u, g, n);
      Agreement(cfg, u, g[..n], h);
      assert StepAt(cfg, u, g, n) && StepAt(cfg, u, h, n) && g[..n] == h[..n];
      StepsAgree(cfg, u, g[..n], g[n], h[n]);
      assert g == g[..n] + [g[n]];
    }
  }

  lemma NextLeaderFacts(cfg: Config, u: set<Cert>, h: seq<SubDag>, top: Cert, supporters: set<Cert>)
    requires World(cfg.committee, u) && Committable(cfg, u, h, top, supporters)
    ensures var l := NextLeader(cfg, h, top); l in u && l.round % 2 == 0 && l.round > CommittedRound(h)
  {
    LeadersAreElected(cfg, u, ActiveTable(cfg, h), top, Below(top.round), CommittedRound(h), 0);
  }

  /** The leader of the last commit, above everything committed before. */
  lemma LastLeader(cfg: Config, u: set<Cert>, h: seq<SubDag>) returns (l: Cert)
    requires World(cfg.committee, u) && ValidHistory(cfg, u, h) && h != []
    ensures l in u && l.round > CommittedRound(h[..|h| - 1]) && h[|h| - 1] == SubDagOf(cfg, h[..|h| - 1], l)
  {
    var g, s := h[..|h| - 1], h[|h| - 1];
    assert StepAt(cfg, u, h, |h| - 1);
    var top, supporters :| Committable(cfg, u, g, top, supporters) && s == SubDagOf(cfg, g, NextLeader(cfg, g, top));
    l := NextLeader(cfg, g, top);
    NextLeaderFacts(cfg, u, g, top, supporters);
  }

  /** A certificate of a sub-dag hangs below its leader, and is the leader or not done before. */
  lemma InSubDag(cfg: Config, u: set<Cert>, h: seq<SubDag>, leader: Cert, y: Cert)
    requires World(cfg.committee, u) && leader in u && cfg.gcDepth > 0
    requires y in SubDagOf(cfg, h, leader).certificates
    ensures Hangs(leader, y, LastCommitted(h), GcRound(leader.round, cfg.gcDepth))
    ensures y.round <= leader.round && (y == leader || !Done(LastCommitted(h), y))
    ensures multiset(SubDagOf(cfg, h, leader).certificates)[y] == 1
  {
    SubDagIsWhatHangs(cfg, u, h, leader, y);
    assert multiset(SubDagOf(cfg, h, leader).certificates)[y] > 0;
    assert SoundParents(cfg.committee, u, leader);
    OnPath(cfg.committee, u, leader, y, LastCommitted(h), GcRound(leader.round, cfg.gcDepth));
    HangingIsNotDone(leader, y, LastCommitted(h), GcRound(leader.round, cfg.gcDepth));
  }

  lemma {:induction false} UpdateAllFacts(last: LastRounds, xs: seq<Cert>, y: Cert)
    ensures y in xs || Done(last, y) ==> Done(UpdateAll(last, xs), y)
  {
    if xs != [] {
      var n := |xs| - 1;
      UpdateAllFacts(last, xs[..n], y);
      assert xs == xs[..n] + [xs[n]];
    }
  }

  /** Everything committed is done and at most as high as the last leader. */
  lemma {:induction false} CommittedIsDone(cfg: Config, u: set<Cert>, h: seq<SubDag>, i: nat, y: Cert)
    requires World(cfg.committee, u) && cfg.gcDepth > 0 && ValidHistory(cfg, u, h)
    requires i < |h| && y in h[i].certificates
    ensures Done(LastCommitted(h), y) && y.round <= CommittedRound(h)
    decreases |h|
  {
    var n := |h| - 1;
    var l := LastLeader(cfg, u, h);
    HistoryPrefix(cfg, u, h, n);
    if i < n { CommittedIsDone(cfg, u, h[..n], i, y); } else { InSubDag(cfg, u, h[..n], l, y); }
    UpdateAllFacts(LastCommitted(h[..n]), h[n].certificates, y);
  }

  ghost predicate InHistory(h: seq<SubDag>, i: nat, y: Cert) { i < |h| && y in h[i].certificates }

  lemma {:induction false} UpdateAllIff(last: LastRounds, xs: seq<Cert>, x: Cert)
    ensures Done(UpdateAll(last, xs), x) <==>
              Done(last, x) || exists y :: y in xs && y.author == x.author && x.round <= y.round
  {
    if xs != [] {
      var n := |xs| - 1;
      UpdateAllIff(last, xs[..n], x);
      assert xs == xs[..n] + [xs[n]];
      assert xs[n] in xs;
      assert forall y :: y in xs <==> y in xs[..n] || y == xs[n];
    }
  }

  /** A certificate counts as done exactly when one of its author of that round or a later one was committed. */
  lemma {:induction false} DoneIff(h: seq<SubDag>, x: Cert)
    ensures Done(LastCommitted(h), x) <==>
              exists i: nat, y :: InHistory(h, i, y) && y.author == x.author && x.round <= y.round
  {
    if h != [] {
      var n := |h| - 1;
      DoneIff(h[..n], x);
      UpdateAllIff(LastCommitted(h[..n]), h[n].certificates, x);
      if i: nat, y :| InHistory(h[..n], i, y) && y.author == x.author && x.round <= y.round {
        assert InHistory(h, i, y);
      }
      if y :| y in h[n].certificates && y.author == x.author && x.round <= y.round { assert InHistory(h, n, y); }
      if i: nat, y :| InHistory(h, i, y) && y.author == x.author && x.round <= y.round {
        if i < n { assert InHistory(h[..n], i, y); }
      }
    }
  }

  /** No certificate is committed twice: not in two sub-dags, nor twice in one. */
  lemma {:induction false} NoDoubleCommit(cfg: Config, u: set<Cert>, h: seq<SubDag>, i: nat, j: nat, y: Cert)
    requires World(cfg.committee, u) && cfg.gcDepth > 0 && ValidHistory(cfg, u, h)
    requires i <= j < |h| && y in h[i].certificates && y in h[j].certificates
    ensures i == j && multiset(h[j].certificates)[y] == 1
    decreases |h|
  {
    var n := |h| - 1;
    HistoryPrefix(cfg, u, h, n);
    if j < n {
      NoDoubleCommit(cfg, u, h[..n], i, j, y);
    } else {
      var l := LastLeader(cfg, u, h);
      InSubDag(cfg, u, h[..n], l, y);
      if i < n { CommittedIsDone(cfg, u, h[..n], i, y); }
    }
  }

  lemma {:induction false} HangingIsNotDone(x: Cert, y: Cert, last: LastRounds, gc: nat)
    requires Hangs(x, y, last, gc)
    ensures x == y || !Done(last, y)
    decreases x
  {
    if x != y {
      var i :| 0 <= i < |x.parents| && !Done(last, x.parents[i]) && Hangs(x.parents[i], y, last, gc);
      HangingIsNotDone(x.parents[i], y, last, gc);
    }
  }

  /** Causal order: each parent of a committed certificate, above the garbage-collected rounds, comes no
      later: in the same sub-dag at a lower round, or its author was committed to that round before. */
  lemma CommitsAreCausal(cfg: Config, u: set<Cert>, h: seq<SubDag>, leader: Cert, x: Cert, p: Cert)
    requires World(cfg.committee, u) && leader in u && cfg.gcDepth > 0
    requires x in SubDagOf(cfg, h, leader).certificates && p in x.parents
    requires x.round > GcRound(leader.round, cfg.gcDepth) + 1
    ensures p in SubDagOf(cfg, h, leader).certificates || Done(LastCommitted(h), p)
    ensures p.round < x.round
  {
    var last, gc := LastCommitted(h), GcRound(leader.round, cfg.gcDepth);
    InSubDag(cfg, u, h, leader, x);
    SubDagIsWhatHangs(cfg, u, h, leader, p);
    assert SoundParents(cfg.committee, u, leader);
    OnPath(cfg.committee, u, leader, x, last, gc);
    assert SoundParents(cfg.committee, u, x);
    if !Done(last, p) { HangsExtends(leader, x, p, last, gc); }
  }
}
