/** The in-memory tables: byte-keyed ordered maps, and the ordered queries over them.
    Source: crates/storage/src/mem_db.rs */
module MemDb {
  import opened Basics
  import opened SortedSets
  import opened KeyCodec

  datatype TableName = Certificates | CertificateDigestByRound | CertificateDigestByOrigin | Other(name: string)

  ghost predicate IsLastRow<V>(rows: map<Bytes, V>, k: Bytes) {
    k in rows && forall j :: j in rows && j != k ==> LexLess(j, k)
  }

  /** `k` is the greatest key below `key`. */
  ghost predicate IsPriorRow<V>(rows: map<Bytes, V>, key: Bytes, k: Bytes) {
    && k in rows && LexLess(k, key)
    && forall j :: j in rows && LexLess(j, key) && j != k ==> LexLess(j, k)
  }

  /** Exactly the rows from `key` on, ascending. */
  ghost predicate IsSkipTo<V>(rows: map<Bytes, V>, key: Bytes, r: seq<(Bytes, V)>) {
    && (forall i, j :: 0 <= i < j < |r| ==> LexLess(r[i].0, r[j].0))
    && (forall i :: 0 <= i < |r| ==> r[i].0 in rows && rows[r[i].0] == r[i].1 && !LexLess(r[i].0, key))
    && (forall k :: k in rows && !LexLess(k, key) ==> exists i :: 0 <= i < |r| && r[i].0 == k)
  }

  function SortedRows<V>(rows: map<Bytes, V>): (r: seq<Bytes>)
    ensures Ascending(r, LexLess)
    ensures forall k :: k in r <==> k in rows
  {
    LexIsTotalOrder();
    Sorted(rows.Keys, LexLess)
  }

  /** The keys below `key` are the first `n`. */
  ghost predicate SplitAt(keys: seq<Bytes>, key: Bytes, n: nat) {
    && n <= |keys|
    && (forall j :: 0 <= j < n ==> LexLess(keys[j], key))
    && (forall j :: n <= j < |keys| ==> !LexLess(keys[j], key))
  }

  lemma BelowIsAPrefix(keys: seq<Bytes>, key: Bytes, i: nat)
    requires Ascending(keys, LexLess) && i < |keys| && !LexLess(keys[i], key)
    ensures forall j :: i <= j < |keys| ==> !LexLess(keys[j], key)
  {
    forall j | i <= j < |keys| ensures !LexLess(keys[j], key) {
      if i < j && LexLess(keys[j], key) { LexTransitive(keys[i], keys[j], key); }
    }
  }

  lemma LastOfPrefixIsPrior<V>(rows: map<Bytes, V>, keys: seq<Bytes>, key: Bytes, i: nat)
    requires Ascending(keys, LexLess) && (forall k :: k in keys <==> k in rows)
    requires SplitAt(keys, key, i)
    ensures i == 0 ==> forall k :: k in rows ==> !LexLess(k, key)
    ensures i > 0 ==> IsPriorRow(rows, key, keys[i - 1])
  {
    forall k | k in rows && LexLess(k, key) ensures i > 0 && (k == keys[i - 1] || LexLess(k, keys[i - 1])) {
      assert k in keys;
      var j :| 0 <= j < |keys| && keys[j] == k;
      assert j < i;
      if j < i - 1 { assert LexLess(keys[j], keys[i - 1]); }
    }
    if i > 0 { assert keys[i - 1] in keys; }
  }

  lemma SuffixIsSkipTo<V>(rows: map<Bytes, V>, keys: seq<Bytes>, key: Bytes, i: nat, r: seq<(Bytes, V)>)
    requires Ascending(keys, LexLess) && (forall k :: k in keys <==> k in rows)
    requires SplitAt(keys, key, i)
    requires |r| == |keys| - i
    requires forall n :: 0 <= n < |r| ==> r[n].0 == keys[i + n] && keys[i + n] in rows && r[n].1 == rows[keys[i + n]]
    ensures IsSkipTo(rows, key, r)
  {
    forall k | k in rows && !LexLess(k, key) ensures exists n :: 0 <= n < |r| && r[n].0 == k {
      assert k in keys;
      var m :| 0 <= m < |keys| && keys[m] == k;
      assert r[m - i].0 == k;
    }
  }

  function Entries<V>(rows: map<Bytes, V>, keys: seq<Bytes>): (r: seq<(Bytes, V)>)
    requires forall k :: k in keys ==> k in rows
    ensures |r| == |keys|
    ensures forall i :: 0 <= i < |keys| ==> r[i].0 == keys[i] && keys[i] in rows && r[i].1 == rows[keys[i]]
  {
    seq(|keys|, i requires 0 <= i < |keys| => (keys[i], rows[keys[i]]))
  }

  /** Walks the keys in order up to the first that is not below `key`. */
  method CountBelow(keys: seq<Bytes>, key: Bytes) returns (n: nat)
    requires Ascending(keys, LexLess)
    ensures SplitAt(keys, key, n)
  {
    n := 0;
    while n < |keys| && LexLess(keys[n], key)
      invariant 0 <= n <= |keys|
      invariant forall j :: 0 <= j < n ==> LexLess(keys[j], key)
    {
      n := n + 1;
    }
    if n < |keys| { BelowIsAPrefix(keys, key, n); }
  }

  class MemDatabase<V> {
    var store: map<TableName, map<Bytes, V>>

    constructor ()
      ensures store == map[]
    {
      store := map[];
    }

    method OpenTable(t: TableName)
      modifies this
      ensures store == old(store)[t := map[]]
    {
      store := store[t := map[]];
    }

    method Insert(t: TableName, k: Bytes, v: V)
      modifies this
      ensures store == if t in old(store) then old(store)[t := old(store)[t][k := v]] else old(store)
    {
      if t in store { store := store[t := store[t][k := v]]; }
    }

    method Remove(t: TableName, k: Bytes)
      modifies this
      ensures store == if t in old(store) then old(store)[t := old(store)[t] - {k}] else old(store)
    {
      if t in store { store := store[t := store[t] - {k}]; }
    }

    method ClearTable(t: TableName)
      modifies this
      ensures store == if t in old(store) then old(store)[t := map[]] else old(store)
    {
      if t in store { store := store[t := map[]]; }
    }

    method LastRecord(t: TableName) returns (r: Option<(Bytes, V)>)
      ensures r.None? <==> t !in store || store[t] == map[]
      ensures r.Some? ==> IsLastRow(store[t], r.value.0) && store[t][r.value.0] == r.value.1
    {
      if t !in store { return None; }
      var keys := SortedRows(store[t]);
      if keys == [] {
        assert store[t] == map[];
        return None;
      }
      var k := keys[|keys| - 1];
      r := Some((k, store[t][k]));
    }

    method RecordPriorTo(t: TableName, key: Bytes) returns (r: Option<(Bytes, V)>)
      ensures r.None? <==> t !in store || forall k :: k in store[t] ==> !LexLess(k, key)
      ensures r.Some? ==> IsPriorRow(store[t], key, r.value.0) && store[t][r.value.0] == r.value.1
    {
      if t !in store { return None; }
      var keys := SortedRows(store[t]);
      var n := CountBelow(keys, key);
      LastOfPrefixIsPrior(store[t], keys, key, n);
      r := if n == 0 then None else Some((keys[n - 1], store[t][keys[n - 1]]));
    }

    /** None stands for the "Invalid table" error. */
    method SkipTo(t: TableName, key: Bytes) returns (r: Option<seq<(Bytes, V)>>)
      ensures r.None? <==> t !in store
      ensures r.Some? ==> IsSkipTo(store[t], key, r.value)
    {
      if t !in store { return None; }
      var rows := store[t];
      var keys := SortedRows(rows);
      var n := CountBelow(keys, key);
      var rest := Entries(rows, keys[n..]);
      SuffixIsSkipTo(rows, keys, key, n, rest);
      r := Some(rest);
    }
  }

  // ---------- typed integer keys ----------

  /** The table that holds the typed map `m` under `w`-byte integer keys. */
  ghost predicate Holds<V>(rows: map<Bytes, V>, m: map<nat, V>, w: nat) {
    && (forall n :: n in m ==> n < Pow256(w))
    && (forall n :: n in m ==> EncodeInt(n, w) in rows && rows[EncodeInt(n, w)] == m[n])
    && (forall k :: k in rows ==> exists n :: n in m && k == EncodeInt(n, w))
  }

  lemma RowKey<V>(rows: map<Bytes, V>, m: map<nat, V>, w: nat, k: Bytes)
    requires Holds(rows, m, w) && k in rows
    ensures var n := DecodeInt(k); n < Pow256(w) && n in m && k == EncodeInt(n, w) && rows[k] == m[n]
  {
    var n :| n in m && k == EncodeInt(n, w);
    KeyRoundTrip(n, w);
  }

  /** The last row is the greatest typed key. */
  lemma LastRowIsGreatestKey<V>(rows: map<Bytes, V>, m: map<nat, V>, w: nat, k: Bytes)
    requires Holds(rows, m, w) && IsLastRow(rows, k)
    ensures DecodeInt(k) in m && rows[k] == m[DecodeInt(k)]
    ensures forall n :: n in m ==> n <= DecodeInt(k)
  {
    RowKey(rows, m, w, k);
    forall n | n in m ensures n <= DecodeInt(k) { EncodingKeepsOrder(n, DecodeInt(k), w); }
  }

  /** The prior row is the greatest typed key below the given one. */
  lemma PriorRowIsGreatestSmallerKey<V>(rows: map<Bytes, V>, m: map<nat, V>, w: nat, key: nat, k: Bytes)
    requires Holds(rows, m, w) && key < Pow256(w) && IsPriorRow(rows, EncodeInt(key, w), k)
    ensures DecodeInt(k) in m && rows[k] == m[DecodeInt(k)] && DecodeInt(k) < key
    ensures forall n :: n in m && n < key ==> n <= DecodeInt(k)
  {
    RowKey(rows, m, w, k);
    EncodingKeepsOrder(DecodeInt(k), key, w);
    forall n | n in m && n < key ensures n <= DecodeInt(k) { NotAbovePrior(rows, m, w, key, k, n); }
  }

  lemma NotAbovePrior<V>(rows: map<Bytes, V>, m: map<nat, V>, w: nat, key: nat, k: Bytes, n: nat)
    requires Holds(rows, m, w) && key < Pow256(w) && IsPriorRow(rows, EncodeInt(key, w), k)
    requires n in m && n < key
    ensures n <= DecodeInt(k)
  {
    RowKey(rows, m, w, k);
    var e := EncodeInt(n, w);
    assert e in rows;
    EncodingKeepsOrder(n, key, w);
    assert LexLess(e, EncodeInt(key, w));
    EncodingKeepsOrder(n, DecodeInt(k), w);
  }

  lemma SkippedRow<V>(rows: map<Bytes, V>, m: map<nat, V>, w: nat, key: nat, r: seq<(Bytes, V)>, i: nat)
    requires Holds(rows, m, w) && key < Pow256(w) && IsSkipTo(rows, EncodeInt(key, w), r) && i < |r|
    ensures var n := DecodeInt(r[i].0); n in m && n >= key && m[n] == r[i].1
  {
    RowKey(rows, m, w, r[i].0);
    EncodingKeepsOrder(DecodeInt(r[i].0), key, w);
  }

  lemma SkippedOrder<V>(rows: map<Bytes, V>, m: map<nat, V>, w: nat, key: nat, r: seq<(Bytes, V)>, i: nat, j: nat)
    requires Holds(rows, m, w) && key < Pow256(w) && IsSkipTo(rows, EncodeInt(key, w), r) && i < j < |r|
    ensures DecodeInt(r[i].0) < DecodeInt(r[j].0)
  {
    RowKey(rows, m, w, r[i].0);
    RowKey(rows, m, w, r[j].0);
    EncodingKeepsOrder(DecodeInt(r[i].0), DecodeInt(r[j].0), w);
  }

  lemma NotSkipped<V>(rows: map<Bytes, V>, m: map<nat, V>, w: nat, key: nat, r: seq<(Bytes, V)>, n: nat)
    returns (i: nat)
    requires Holds(rows, m, w) && key < Pow256(w) && IsSkipTo(rows, EncodeInt(key, w), r) && n in m && n >= key
    ensures i < |r| && DecodeInt(r[i].0) == n
  {
    EncodingKeepsOrder(n, key, w);
    KeyRoundTrip(n, w);
    i :| 0 <= i < |r| && r[i].0 == EncodeInt(n, w);
  }

  /** Skipping to a key yields exactly the typed entries at or above it, ascending. */
  lemma SkipToIsTypedTail<V>(rows: map<Bytes, V>, m: map<nat, V>, w: nat, key: nat, r: seq<(Bytes, V)>)
    requires Holds(rows, m, w) && key < Pow256(w) && IsSkipTo(rows, EncodeInt(key, w), r)
    ensures forall i, j :: 0 <= i < j < |r| ==> DecodeInt(r[i].0) < DecodeInt(r[j].0)
    ensures forall i :: 0 <= i < |r| ==>
              var n := DecodeInt(r[i].0); n in m && n >= key && m[n] == r[i].1
    ensures forall n :: n in m && n >= key ==> exists i :: 0 <= i < |r| && DecodeInt(r[i].0) == n
  {
    forall i | 0 <= i < |r| ensures var n := DecodeInt(r[i].0); n in m && n >= key && m[n] == r[i].1 {
      SkippedRow(rows, m, w, key, r, i);
    }
    forall i, j | 0 <= i < j < |r| ensures DecodeInt(r[i].0) < DecodeInt(r[j].0) {
      SkippedOrder(rows, m, w, key, r, i, j);
    }
    forall n | n in m && n >= key ensures exists i :: 0 <= i < |r| && DecodeInt(r[i].0) == n {
      var i := NotSkipped(rows, m, w, key, r, n);
    }
  }
}
