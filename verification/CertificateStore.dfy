/** The certificate store: the certificates by digest and two indexes over them, kept in the byte-keyed
    tables of the database.
    Source: crates/storage/src/stores/certificate_store.rs */
module CertificateStores {
  import opened Basics
  import opened SortedSets
  import opened KeyCodec
  import opened MemDb

  const MAX_ROUND: nat := 0xFFFF_FFFF
  const ROUNDS_TO_KEEP: nat := 64

  type Round = n: nat | n <= MAX_ROUND
  type Origin = o: Bytes | |o| < Pow256(8)
  type Digest = Bytes

  datatype Slot = Slot(origin: Origin, round: Round)

  /** `content` stands for what a certificate holds besides its slot. */
  datatype Certificate = Certificate(slot: Slot, digest: Digest, content: nat)

  datatype Value = Body(certificate: Certificate) | Name(digest: Digest)

  type Database = MemDatabase<Value>

  // ---------- keys ----------

  function EncodeRound(n: Round): (r: Bytes)
    ensures |r| == 4 && DecodeInt(r) == n
  {
    assert Pow256(1) == 256 && Pow256(2) == 65536 && Pow256(4) == 0x1_0000_0000;
    KeyRoundTrip(n, 4);
    EncodeInt(n, 4)
  }

  /** An identifier is written with its length in front. */
  function EncodeOrigin(o: Origin): (r: Bytes)
    ensures |r| == 8 + |o|
  {
    EncodeInt(|o|, 8) + o
  }

  function RoundKey(s: Slot): Bytes { EncodeRound(s.round) + EncodeOrigin(s.origin) }

  function OriginKey(s: Slot): Bytes { EncodeOrigin(s.origin) + EncodeRound(s.round) }

  /** Encoded identifiers of different lengths differ in the length. */
  lemma LengthsCompare(a: Origin, b: Origin, x: Bytes, y: Bytes)
    requires |a| != |b|
    ensures LexLess(EncodeOrigin(a) + x, EncodeOrigin(b) + y) <==> |a| < |b|
    ensures EncodeOrigin(a) + x != EncodeOrigin(b) + y
  {
    var la, lb := EncodeInt(|a|, 8), EncodeInt(|b|, 8);
    EncodingKeepsOrder(|a|, |b|, 8);
    PairsSortByParts(la, a + x, lb, b + y);
    assert EncodeOrigin(a) + x == la + (a + x) && EncodeOrigin(b) + y == lb + (b + y);
  }

  /** Whatever follows, encoded identifiers of any lengths are compared before it. */
  lemma OriginsCompare(a: Origin, b: Origin, x: Bytes, y: Bytes)
    ensures LexLess(EncodeOrigin(a) + x, EncodeOrigin(b) + y)
            <==> LexLess(EncodeOrigin(a), EncodeOrigin(b)) || (a == b && LexLess(x, y))
    ensures EncodeOrigin(a) + x == EncodeOrigin(b) + y <==> a == b && x == y
    ensures EncodeOrigin(a) == EncodeOrigin(b) <==> a == b
  {
    if |a| == |b| {
      PairsSortByParts(EncodeInt(|a|, 8), a, EncodeInt(|b|, 8), b);
      PairsSortByParts(EncodeOrigin(a), x, EncodeOrigin(b), y);
    } else {
      LengthsCompare(a, b, x, y);
      LengthsCompare(a, b, [], []);
      assert EncodeOrigin(a) + [] == EncodeOrigin(a) && EncodeOrigin(b) + [] == EncodeOrigin(b);
    }
  }

  /** The index by origin sorts by origin and then round, the index by round the other way about. */
  lemma KeysSortByParts(a: Slot, b: Slot)
    ensures LexLess(OriginKey(a), OriginKey(b))
            <==> LexLess(EncodeOrigin(a.origin), EncodeOrigin(b.origin)) || (a.origin == b.origin && a.round < b.round)
    ensures LexLess(RoundKey(a), RoundKey(b))
            <==> a.round < b.round || (a.round == b.round && LexLess(EncodeOrigin(a.origin), EncodeOrigin(b.origin)))
    ensures OriginKey(a) == OriginKey(b) <==> a == b
    ensures RoundKey(a) == RoundKey(b) <==> a == b
  {
    assert Pow256(1) == 256 && Pow256(2) == 65536 && Pow256(4) == 0x1_0000_0000;
    EncodingKeepsOrder(a.round, b.round, 4);
    OriginsCompare(a.origin, b.origin, EncodeRound(a.round), EncodeRound(b.round));
    PairsSortByParts(EncodeRound(a.round), EncodeOrigin(a.origin), EncodeRound(b.round), EncodeOrigin(b.origin));
  }

  function DecodeRoundKey(k: Bytes, ghost s: Slot): (r: Slot)
    requires k == RoundKey(s)
    ensures r == s
  {
    assert k[..4] == EncodeRound(s.round) && k[12..] == s.origin;
    Slot(k[12..], DecodeInt(k[..4]))
  }

  function DecodeOriginKey(k: Bytes, ghost s: Slot): (r: Slot)
    requires k == OriginKey(s)
    ensures r == s
  {
    var n := |k| - 4;
    assert k[n..] == EncodeRound(s.round) && k[8..n] == s.origin;
    Slot(k[8..n], DecodeInt(k[n..]))
  }

  // ---------- the tables as typed maps ----------

  datatype Tables = Tables(certs: map<Digest, Certificate>, byRound: map<Slot, Digest>, byOrigin: map<Slot, Digest>)

  const EMPTY := Tables(map[], map[], map[])

  ghost predicate HasRow(rows: map<Bytes, Value>, k: Bytes, d: Digest) { k in rows && rows[k] == Name(d) }

  ghost predicate IsRow(index: map<Slot, Digest>, key: Slot -> Bytes, k: Bytes) {
    exists s :: s in index && key(s) == k
  }

  ghost predicate IndexRows(rows: map<Bytes, Value>, index: map<Slot, Digest>, key: Slot -> Bytes) {
    && (forall s {:trigger HasRow(rows, key(s), index[s])} :: s in index ==> HasRow(rows, key(s), index[s]))
    && (forall k {:trigger IsRow(index, key, k)} :: k in rows ==> IsRow(index, key, k))
  }

  ghost predicate Injective(key: Slot -> Bytes) { forall a, b :: key(a) == key(b) ==> a == b }

  function Bodies(certs: map<Digest, Certificate>): map<Bytes, Value> { map d | d in certs :: Body(certs[d]) }

  /** The database holds exactly these tables. */
  ghost predicate Mirrors(store: map<TableName, map<Bytes, Value>>, t: Tables) {
    && Certificates in store && CertificateDigestByRound in store && CertificateDigestByOrigin in store
    && store[Certificates] == Bodies(t.certs)
    && IndexRows(store[CertificateDigestByRound], t.byRound, RoundKey)
    && IndexRows(store[CertificateDigestByOrigin], t.byOrigin, OriginKey)
  }

  lemma KeysAreInjective()
    ensures Injective(RoundKey) && Injective(OriginKey)
  {
    forall a, b ensures RoundKey(a) == RoundKey(b) ==> a == b { KeysSortByParts(a, b); }
    forall a, b ensures OriginKey(a) == OriginKey(b) ==> a == b { KeysSortByParts(a, b); }
  }

  lemma PutRow(rows: map<Bytes, Value>, index: map<Slot, Digest>, key: Slot -> Bytes, s: Slot, d: Digest)
    requires IndexRows(rows, index, key) && Injective(key)
    ensures IndexRows(rows[key(s) := Name(d)], index[s := d], key)
  {
    var rows', index' := rows[key(s) := Name(d)], index[s := d];
    forall a | a in index' ensures HasRow(rows', key(a), index'[a]) {
      if a != s { assert HasRow(rows, key(a), index[a]) && key(a) != key(s); }
    }
    forall k | k in rows' ensures IsRow(index', key, k) {
      if k == key(s) {
        assert s in index';
      } else {
        assert IsRow(index, key, k);
        var a :| a in index && key(a) == k;
        assert a in index';
      }
    }
  }

  lemma DropRow(rows: map<Bytes, Value>, index: map<Slot, Digest>, key: Slot -> Bytes, s: Slot)
    requires IndexRows(rows, index, key) && Injective(key)
    ensures IndexRows(rows - {key(s)}, index - {s}, key)
  {
    var rows', index' := rows - {key(s)}, index - {s};
    forall a | a in index' ensures HasRow(rows', key(a), index'[a]) {
      assert HasRow(rows, key(a), index[a]) && key(a) != key(s);
    }
    forall k | k in rows' ensures IsRow(index', key, k) {
      assert IsRow(index, key, k);
      var a :| a in index && key(a) == k;
      assert a in index';
    }
  }

  // ---------- writing ----------

  function Save(t: Tables, c: Certificate): Tables {
    Tables(t.certs[c.digest := c], t.byRound[c.slot := c.digest], t.byOrigin[c.slot := c.digest])
  }

  function SaveAll(t: Tables, cs: seq<Certificate>): Tables {
    if cs == [] then t else Save(SaveAll(t, cs[..|cs| - 1]), cs[|cs| - 1])
  }

  function MaxRound(cs: seq<Certificate>): Round {
    if cs == [] then 0
    else
      var (m, n) := (MaxRound(cs[..|cs| - 1]), cs[|cs| - 1].slot.round);
      if m < n then n else m
  }

  function Removed(t: Tables, expired: set<Slot>): Tables
    requires expired <= t.byRound.Keys
  {
    Tables(t.certs - (set s | s in expired :: t.byRound[s]), t.byRound - expired, t.byOrigin - expired)
  }

  function Old(t: Tables, target: nat): set<Slot> { set s | s in t.byRound && s.round < target }

  /** Rows more than `ROUNDS_TO_KEEP` below the round are dropped, with the certificates they name. */
  function Gc(t: Tables, round: Round): Tables {
    if round <= ROUNDS_TO_KEEP then t else Removed(t, Old(t, round - ROUNDS_TO_KEEP))
  }

  /** The row by origin stays. */
  function Deleted(t: Tables, id: Digest): Tables {
    if id !in t.certs then t
    else Tables(t.certs - {id}, t.byRound - {t.certs[id].slot}, t.byOrigin)
  }

  method Open() returns (db: Database)
    ensures fresh(db) && Mirrors(db.store, EMPTY)
  {
    db := new MemDatabase<Value>();
    db.OpenTable(Certificates);
    db.OpenTable(CertificateDigestByRound);
    db.OpenTable(CertificateDigestByOrigin);
  }

  lemma PutBody(certs: map<Digest, Certificate>, c: Certificate)
    ensures Bodies(certs)[c.digest := Body(c)] == Bodies(certs[c.digest := c])
  {}

  method SaveCert(db: Database, c: Certificate, ghost t: Tables)
    requires Mirrors(db.store, t)
    modifies db
    ensures Mirrors(db.store, Save(t, c))
  {
    KeysAreInjective();
    PutBody(t.certs, c);
    PutRow(db.store[CertificateDigestByRound], t.byRound, RoundKey, c.slot, c.digest);
    PutRow(db.store[CertificateDigestByOrigin], t.byOrigin, OriginKey, c.slot, c.digest);
    db.Insert(Certificates, c.digest, Body(c));
    db.Insert(CertificateDigestByRound, RoundKey(c.slot), Name(c.digest));
    db.Insert(CertificateDigestByOrigin, OriginKey(c.slot), Name(c.digest));
  }

  // ---------- reading the index by round ----------

  ghost predicate IsEntry(t: Tables, e: (Slot, Digest)) { e.0 in t.byRound && t.byRound[e.0] == e.1 }

  ghost predicate RowOf(t: Tables, row: (Bytes, Value), e: (Slot, Digest)) {
    IsEntry(t, e) && row.0 == RoundKey(e.0) && row.1 == Name(e.1)
  }

  ghost predicate Before(a: Slot, b: Slot) {
    a.round < b.round || (a.round == b.round && LexLess(EncodeOrigin(a.origin), EncodeOrigin(b.origin)))
  }

  ghost predicate InOrder(found: seq<(Slot, Digest)>) {
    forall i, j {:trigger Before(found[i].0, found[j].0)} ::
      0 <= i < j < |found| ==> Before(found[i].0, found[j].0)
  }

  ghost predicate Among(s: Slot, found: seq<(Slot, Digest)>) { exists j :: 0 <= j < |found| && found[j].0 == s }

  /** Every row from the key on is there. */
  ghost predicate Complete(t: Tables, start: Bytes, found: seq<(Slot, Digest)>) {
    forall s {:trigger Among(s, found)} :: s in t.byRound && !LexLess(RoundKey(s), start) ==> Among(s, found)
  }

  ghost predicate AreEntries(t: Tables, found: seq<(Slot, Digest)>) {
    forall j {:trigger IsEntry(t, found[j])} :: 0 <= j < |found| ==> IsEntry(t, found[j])
  }

  ghost predicate InTable(table: map<Bytes, Value>, row: (Bytes, Value)) { row.0 in table && table[row.0] == row.1 }

  ghost predicate AreRows(t: Tables, rows: seq<(Bytes, Value)>, found: seq<(Slot, Digest)>) {
    && |found| == |rows|
    && forall j {:trigger RowOf(t, rows[j], found[j])} :: 0 <= j < |found| ==> RowOf(t, rows[j], found[j])
  }

  lemma RowsSnoc(t: Tables, rows: seq<(Bytes, Value)>, found: seq<(Slot, Digest)>, row: (Bytes, Value),
                 e: (Slot, Digest))
    requires AreRows(t, rows, found) && RowOf(t, row, e)
    ensures AreRows(t, rows + [row], found + [e])
  {
    forall j | 0 <= j < |found + [e]| ensures RowOf(t, (rows + [row])[j], (found + [e])[j]) {
      if j < |found| { assert RowOf(t, rows[j], found[j]); }
    }
  }

  method DecodeRow(table: map<Bytes, Value>, row: (Bytes, Value), ghost t: Tables) returns (e: (Slot, Digest))
    requires IndexRows(table, t.byRound, RoundKey) && InTable(table, row)
    ensures RowOf(t, row, e)
  {
    assert IsRow(t.byRound, RoundKey, row.0);
    ghost var s :| s in t.byRound && RoundKey(s) == row.0;
    assert HasRow(table, RoundKey(s), t.byRound[s]);
    e := (DecodeRoundKey(row.0, s), row.1.digest);
  }

  method DecodeRows(table: map<Bytes, Value>, rows: seq<(Bytes, Value)>, ghost t: Tables)
    returns (found: seq<(Slot, Digest)>)
    requires IndexRows(table, t.byRound, RoundKey)
    requires forall j {:trigger InTable(table, rows[j])} :: 0 <= j < |rows| ==> InTable(table, rows[j])
    ensures AreRows(t, rows, found)
  {
    found := [];
    for i := 0 to |rows|
      invariant AreRows(t, rows[..i], found)
    {
      assert InTable(table, rows[i]) && rows[..i + 1] == rows[..i] + [rows[i]];
      var e := DecodeRow(table, rows[i], t);
      RowsSnoc(t, rows[..i], found, rows[i], e);
      found := found + [e];
    }
    assert rows[..|rows|] == rows;
  }

  lemma DecodedRows(table: map<Bytes, Value>, start: Bytes, rows: seq<(Bytes, Value)>, t: Tables,
                    found: seq<(Slot, Digest)>)
    requires IndexRows(table, t.byRound, RoundKey) && IsSkipTo(table, start, rows) && AreRows(t, rows, found)
    ensures InOrder(found) && AreEntries(t, found) && Complete(t, start, found)
  {
    forall j | 0 <= j < |found| ensures IsEntry(t, found[j]) { assert RowOf(t, rows[j], found[j]); }
    forall i, j | 0 <= i < j < |found| ensures Before(found[i].0, found[j].0) {
      assert RowOf(t, rows[i], found[i]) && RowOf(t, rows[j], found[j]);
      KeysSortByParts(found[i].0, found[j].0);
    }
    forall s | s in t.byRound && !LexLess(RoundKey(s), start) ensures Among(s, found) {
      assert HasRow(table, RoundKey(s), t.byRound[s]);
      var j :| 0 <= j < |rows| && rows[j].0 == RoundKey(s);
      assert RowOf(t, rows[j], found[j]);
      KeysSortByParts(s, found[j].0);
    }
  }

  /** The index by round from a key on, decoded. */
  method ReadFrom(db: Database, start: Bytes, ghost t: Tables) returns (found: seq<(Slot, Digest)>)
    requires Mirrors(db.store, t)
    ensures InOrder(found) && AreEntries(t, found) && Complete(t, start, found)
  {
    var table := db.store[CertificateDigestByRound];
    var skipped := db.SkipTo(CertificateDigestByRound, start);
    found := DecodeRows(table, skipped.value, t);
    DecodedRows(table, start, skipped.value, t, found);
  }

  /** The rows below the target, read in key order up to the first that is not. */
  method Expired(db: Database, target: nat, ghost t: Tables) returns (expired: seq<(Slot, Digest)>)
    requires Mirrors(db.store, t)
    ensures forall j :: 0 <= j < |expired| ==> IsEntry(t, expired[j]) && expired[j].0.round < target
    ensures forall s :: s in t.byRound && s.round < target ==> Among(s, expired)
  {
    var found := ReadFrom(db, [], t);
    var i := 0;
    while i < |found| && found[i].0.round < target
      invariant 0 <= i <= |found|
      invariant forall j :: 0 <= j < i ==> found[j].0.round < target
    {
      i := i + 1;
    }
    expired := found[..i];
    forall s | s in t.byRound && s.round < target ensures Among(s, expired) {
      assert Among(s, found);
      var j :| 0 <= j < |found| && found[j].0 == s;
      assert i < j ==> Before(found[i].0, found[j].0);
      assert expired[j].0 == s;
    }
  }

  // ---------- garbage collection ----------

  lemma RemovedOneMore(t: Tables, done: set<Slot>, s: Slot)
    requires done <= t.byRound.Keys && s in t.byRound
    ensures var r := Removed(t, done);
            Removed(t, done + {s}) == Tables(r.certs - {t.byRound[s]}, r.byRound - {s}, r.byOrigin - {s})
  {
    var named, named' := set x | x in done :: t.byRound[x], set x | x in done + {s} :: t.byRound[x];
    assert named' == named + {t.byRound[s]};
    var r, r' := Removed(t, done), Removed(t, done + {s});
    assert r'.certs == r.certs - {t.byRound[s]};
    assert r'.byRound == r.byRound - {s};
    assert r'.byOrigin == r.byOrigin - {s};
  }

  lemma DropBody(certs: map<Digest, Certificate>, d: Digest)
    ensures Bodies(certs) - {d} == Bodies(certs - {d})
  {}

  /** The three rows of one certificate go. */
  method RemoveRows(db: Database, s: Slot, d: Digest, ghost t: Tables)
    requires Mirrors(db.store, t)
    modifies db
    ensures Mirrors(db.store, Tables(t.certs - {d}, t.byRound - {s}, t.byOrigin - {s}))
  {
    KeysAreInjective();
    DropBody(t.certs, d);
    DropRow(db.store[CertificateDigestByRound], t.byRound, RoundKey, s);
    DropRow(db.store[CertificateDigestByOrigin], t.byOrigin, OriginKey, s);
    db.Remove(Certificates, d);
    db.Remove(CertificateDigestByRound, RoundKey(s));
    db.Remove(CertificateDigestByOrigin, OriginKey(s));
  }

  method GcRounds(db: Database, round: Round, ghost t: Tables)
    requires Mirrors(db.store, t)
    modifies db
    ensures Mirrors(db.store, Gc(t, round))
  {
    if round <= ROUNDS_TO_KEEP { return; }
    var expired := Expired(db, round - ROUNDS_TO_KEEP, t);
    ghost var done: set<Slot> := {};
    assert Removed(t, {}) == t;
    for i := 0 to |expired|
      invariant done == set j | 0 <= j < i :: expired[j].0
      invariant done <= t.byRound.Keys && Mirrors(db.store, Removed(t, done))
    {
      assert IsEntry(t, expired[i]);
      RemovedOneMore(t, done, expired[i].0);
      RemoveRows(db, expired[i].0, expired[i].1, Removed(t, done));
      done := done + {expired[i].0};
    }
    forall s ensures s in done <==> s in Old(t, round - ROUNDS_TO_KEEP) {
      assert s in t.byRound && s.round < round - ROUNDS_TO_KEEP ==> Among(s, expired);
    }
    assert done == Old(t, round - ROUNDS_TO_KEEP);
  }

  // ---------- the store's operations ----------

  function Written(t: Tables, c: Certificate): Tables { Gc(Save(t, c), c.slot.round) }

  function WrittenAll(t: Tables, cs: seq<Certificate>): Tables { Gc(SaveAll(t, cs), MaxRound(cs)) }

  method Write(db: Database, c: Certificate, ghost t: Tables)
    requires Mirrors(db.store, t)
    modifies db
    ensures Mirrors(db.store, Written(t, c))
  {
    SaveCert(db, c, t);
    GcRounds(db, c.slot.round, Save(t, c));
  }

  method WriteAll(db: Database, cs: seq<Certificate>, ghost t: Tables)
    requires Mirrors(db.store, t)
    modifies db
    ensures Mirrors(db.store, WrittenAll(t, cs))
  {
    var round: Round := 0;
    assert cs[..0] == [];
    for i := 0 to |cs|
      invariant round == MaxRound(cs[..i]) && Mirrors(db.store, SaveAll(t, cs[..i]))
    {
      assert cs[..i + 1][..i] == cs[..i];
      round := if round < cs[i].slot.round then cs[i].slot.round else round;
      SaveCert(db, cs[i], SaveAll(t, cs[..i]));
    }
    assert cs[..|cs|] == cs;
    GcRounds(db, round, SaveAll(t, cs));
  }

  method Read(db: Database, id: Digest, ghost t: Tables) returns (r: Option<Certificate>)
    requires Mirrors(db.store, t)
    ensures r == if id in t.certs then Some(t.certs[id]) else None
  {
    var rows := db.store[Certificates];
    r := if id in rows then Some(rows[id].certificate) else None;
  }

  /** A certificate that is not held is left alone; the row by origin of one that is stays behind. */
  method Delete(db: Database, id: Digest, ghost t: Tables)
    requires Mirrors(db.store, t)
    modifies db
    ensures Mirrors(db.store, Deleted(t, id))
  {
    var held := Read(db, id, t);
    if held.None? { return; }
    KeysAreInjective();
    DropBody(t.certs, id);
    DropRow(db.store[CertificateDigestByRound], t.byRound, RoundKey, held.value.slot);
    db.Remove(Certificates, id);
    db.Remove(CertificateDigestByRound, RoundKey(held.value.slot));
  }

  method Clear(db: Database, ghost t: Tables)
    requires Mirrors(db.store, t)
    modifies db
    ensures Mirrors(db.store, EMPTY)
  {
    db.ClearTable(Certificates);
    db.ClearTable(CertificateDigestByRound);
    db.ClearTable(CertificateDigestByOrigin);
  }

  // ---------- queries ----------

  function StartKey(round: Round, least: Origin): Bytes {
    if round > 0 then RoundKey(Slot(least, round - 1)) else []
  }

  /** The rows of the index by round at or after a round, in key order. */
  ghost predicate IndexFrom(t: Tables, round: Round, found: seq<(Slot, Digest)>) {
    && InOrder(found) && AreEntries(t, found)
    && (forall j :: 0 <= j < |found| ==> found[j].0.round >= round)
    && (forall s {:trigger Among(s, found)} :: s in t.byRound && s.round >= round ==> Among(s, found))
  }

  lemma StartIsEarly(s: Slot, round: Round, least: Origin)
    requires s.round >= round
    ensures !LexLess(RoundKey(s), StartKey(round, least))
  {
    if round > 0 { KeysSortByParts(s, Slot(least, round - 1)); }
  }

  /** Drops what the skip landed on too early. */
  method DropEarly(all: seq<(Slot, Digest)>, round: Round, ghost t: Tables) returns (found: seq<(Slot, Digest)>)
    requires InOrder(all) && AreEntries(t, all)
    requires forall s {:trigger Among(s, all)} :: s in t.byRound && s.round >= round ==> Among(s, all)
    ensures IndexFrom(t, round, found)
  {
    found := [];
    for i := 0 to |all|
      invariant InOrder(found) && AreEntries(t, found)
      invariant forall a :: 0 <= a < |found| ==> found[a].0.round >= round
      invariant forall a, b {:trigger Before(found[a].0, all[b].0)} ::
                  0 <= a < |found| && i <= b < |all| ==> Before(found[a].0, all[b].0)
      invariant forall b :: 0 <= b < i && all[b].0.round >= round ==> Among(all[b].0, found)
    {
      if all[i].0.round >= round {
        ghost var was := found;
        found := found + [all[i]];
        assert IsEntry(t, all[i]);
        forall b | 0 <= b < i && all[b].0.round >= round ensures Among(all[b].0, found) {
          assert Among(all[b].0, was);
          var j :| 0 <= j < |was| && was[j].0 == all[b].0;
          assert found[j].0 == all[b].0;
        }
        assert found[|was|].0 == all[i].0;
      }
    }
    forall s | s in t.byRound && s.round >= round ensures Among(s, found) {
      assert Among(s, all);
      var b :| 0 <= b < |all| && all[b].0 == s;
    }
  }

  method FromRound(db: Database, round: Round, least: Origin, ghost t: Tables) returns (found: seq<(Slot, Digest)>)
    requires Mirrors(db.store, t)
    ensures IndexFrom(t, round, found)
  {
    var all := ReadFrom(db, StartKey(round, least), t);
    forall s | s in t.byRound && s.round >= round ensures Among(s, all) { StartIsEarly(s, round, least); }
    found := DropEarly(all, round, t);
  }

  /** `after_round`: the certificates the index names from the round on, or the invariant violation when one of
      them is not held. */
  method AfterRound(db: Database, round: Round, least: Origin, ghost t: Tables)
    returns (r: Option<seq<Certificate>>, ghost found: seq<(Slot, Digest)>)
    requires Mirrors(db.store, t)
    ensures IndexFrom(t, round, found)
    ensures r.None? <==> exists j :: 0 <= j < |found| && found[j].1 !in t.certs
    ensures r.Some? ==> |r.value| == |found| && forall j :: 0 <= j < |found| ==> r.value[j] == t.certs[found[j].1]
  {
    var rows := FromRound(db, round, least, t);
    found := rows;
    var certs := [];
    for i := 0 to |rows|
      invariant |certs| == i
      invariant forall j :: 0 <= j < i ==> found[j].1 in t.certs && certs[j] == t.certs[found[j].1]
    {
      var c := Read(db, rows[i].1, t);
      if c.None? { return None, found; }
      certs := certs + [c.value];
    }
    r := Some(certs);
  }

  ghost predicate Lists(r: map<Round, seq<Origin>>, s: Slot) { s.round in r && s.origin in r[s.round] }

  predicate OriginLess(a: Origin, b: Origin) { LexLess(EncodeOrigin(a), EncodeOrigin(b)) }

  function Pushed(r: map<Round, seq<Origin>>, s: Slot): map<Round, seq<Origin>> {
    r[s.round := (if s.round in r then r[s.round] else []) + [s.origin]]
  }

  lemma PushLists(r: map<Round, seq<Origin>>, s: Slot, x: Slot)
    ensures Lists(Pushed(r, s), x) <==> Lists(r, x) || x == s
  {}

  /** Only what was listed before, and each round's origins in ascending order. */
  ghost predicate ListsExactly(r: map<Round, seq<Origin>>, found: seq<(Slot, Digest)>, i: nat)
    requires i <= |found|
  {
    && (forall n: Round :: n in r ==> r[n] != [] && Ascending(r[n], OriginLess))
    && (forall x: Slot {:trigger Lists(r, x)} :: Lists(r, x) <==> exists j :: 0 <= j < i && found[j].0 == x)
  }

  lemma PushKeepsLists(r: map<Round, seq<Origin>>, found: seq<(Slot, Digest)>, i: nat)
    requires i < |found| && InOrder(found) && ListsExactly(r, found, i)
    ensures ListsExactly(Pushed(r, found[i].0), found, i + 1)
  {
    var s := found[i].0;
    var r' := Pushed(r, s);
    forall n: Round | n in r' ensures r'[n] != [] && Ascending(r'[n], OriginLess) {
      if n == s.round && n in r {
        forall k | 0 <= k < |r[n]| ensures OriginLess(r[n][k], s.origin) {
          assert Lists(r, Slot(r[n][k], n));
          var j :| 0 <= j < i && found[j].0 == Slot(r[n][k], n);
          assert Before(found[j].0, found[i].0);
        }
      }
    }
    forall x: Slot ensures Lists(r', x) <==> exists j :: 0 <= j < i + 1 && found[j].0 == x {
      PushLists(r, s, x);
      assert Lists(r, x) <==> exists j :: 0 <= j < i && found[j].0 == x;
    }
  }

  /** `origins_after_round`: exactly the slots indexed at or after the round, each round's origins in order. */
  method OriginsAfterRound(db: Database, round: Round, least: Origin, ghost t: Tables)
    returns (r: map<Round, seq<Origin>>)
    requires Mirrors(db.store, t)
    ensures forall n: Round :: n in r ==> r[n] != [] && Ascending(r[n], OriginLess)
    ensures forall x: Slot {:trigger Lists(r, x)} :: Lists(r, x) <==> x in t.byRound && x.round >= round
  {
    var found := FromRound(db, round, least, t);
    r := map[];
    for i := 0 to |found|
      invariant ListsExactly(r, found, i)
    {
      PushKeepsLists(r, found, i);
      r := Pushed(r, found[i].0);
    }
    forall x: Slot ensures Lists(r, x) <==> x in t.byRound && x.round >= round {
      assert x in t.byRound && x.round >= round ==> Among(x, found);
      if Lists(r, x) {
        var j :| 0 <= j < |found| && found[j].0 == x;
        assert IsEntry(t, found[j]);
      }
    }
  }

  /** The greatest round the index has for the origin, leaving out the last round there is. */
  ghost predicate IsNewest(index: map<Slot, Digest>, o: Origin, r: Option<Round>) {
    && (r.Some? ==> r.value < MAX_ROUND && Slot(o, r.value) in index)
    && (forall n: Round :: n < MAX_ROUND && Slot(o, n) in index ==> r.Some? && n <= r.value)
  }

  lemma PriorIsNewest(rows: map<Bytes, Value>, index: map<Slot, Digest>, p: Slot, o: Origin, n: Round)
    requires IndexRows(rows, index, OriginKey) && IsPriorRow(rows, OriginKey(Slot(o, MAX_ROUND)), OriginKey(p))
    requires Slot(o, n) in index && n < MAX_ROUND
    ensures p.origin == o && n <= p.round
  {
    var s, top := Slot(o, n), Slot(o, MAX_ROUND);
    assert HasRow(rows, OriginKey(s), index[s]);
    KeysSortByParts(s, top);
    KeysSortByParts(p, top);
    KeysSortByParts(s, p);
    if LexLess(EncodeOrigin(o), EncodeOrigin(p.origin)) && LexLess(EncodeOrigin(p.origin), EncodeOrigin(o)) {
      LexTransitive(EncodeOrigin(o), EncodeOrigin(p.origin), EncodeOrigin(o));
    }
    LexTrichotomy(EncodeOrigin(o), EncodeOrigin(o));
  }

  /** The row just below (origin, last round), when it is one of the origin's. */
  method PriorOfOrigin(db: Database, o: Origin, ghost t: Tables) returns (r: Option<(Round, Digest)>)
    requires Mirrors(db.store, t)
    ensures IsNewest(t.byOrigin, o, if r.Some? then Some(r.value.0) else None)
    ensures r.Some? ==> t.byOrigin[Slot(o, r.value.0)] == r.value.1
  {
    ghost var rows := db.store[CertificateDigestByOrigin];
    var top := Slot(o, MAX_ROUND);
    var last := db.RecordPriorTo(CertificateDigestByOrigin, OriginKey(top));
    r := None;
    if last.Some? {
      var k := last.value.0;
      assert IsRow(t.byOrigin, OriginKey, k);
      ghost var p :| p in t.byOrigin && OriginKey(p) == k;
      assert HasRow(rows, OriginKey(p), t.byOrigin[p]);
      KeysSortByParts(p, top);
      LexTrichotomy(EncodeOrigin(o), EncodeOrigin(o));
      var slot := DecodeOriginKey(k, p);
      if slot.origin == o { r := Some((slot.round, last.value.1.digest)); }
      forall n: Round | n < MAX_ROUND && Slot(o, n) in t.byOrigin ensures p.origin == o && n <= p.round {
        PriorIsNewest(rows, t.byOrigin, p, o, n);
      }
    } else {
      forall n: Round | Slot(o, n) in t.byOrigin ensures n == MAX_ROUND {
        assert HasRow(rows, OriginKey(Slot(o, n)), t.byOrigin[Slot(o, n)]);
        KeysSortByParts(Slot(o, n), top);
      }
    }
  }

  method LastRoundNumber(db: Database, o: Origin, ghost t: Tables) returns (r: Option<Round>)
    requires Mirrors(db.store, t)
    ensures IsNewest(t.byOrigin, o, r)
  {
    var prior := PriorOfOrigin(db, o, t);
    r := if prior.Some? then Some(prior.value.0) else None;
  }

  /** `last_round`: what the newest row by origin names, which may not be held any more. */
  method LastRound(db: Database, o: Origin, ghost t: Tables) returns (r: Option<Certificate>, ghost n: Option<Round>)
    requires Mirrors(db.store, t)
    ensures IsNewest(t.byOrigin, o, n)
    ensures n.None? ==> r == None
    ensures n.Some? ==> var d := t.byOrigin[Slot(o, n.value)]; r == if d in t.certs then Some(t.certs[d]) else None
  {
    var prior := PriorOfOrigin(db, o, t);
    if prior.None? { return None, None; }
    n := Some(prior.value.0);
    r := Read(db, prior.value.1, t);
  }
}
