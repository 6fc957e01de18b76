/** Database keys as bytes: big-endian fixed-width integers, concatenated for pairs.
    Source: crates/types/src/codec.rs */
module KeyCodec {
  import opened Basics
  import opened SortedSets

  type Byte = b: int | 0 <= b < 256
  type Bytes = seq<Byte>

  /** The order of byte vectors that the stores sort by. */
  predicate LexLess(a: Bytes, b: Bytes) {
    if b == [] then false
    else if a == [] then true
    else a[0] < b[0] || (a[0] == b[0] && LexLess(a[1..], b[1..]))
  }

  function Pow256(w: nat): (p: nat)
    ensures p > 0
  {
    if w == 0 then 1 else 256 * Pow256(w - 1)
  }

  /** The `w`-byte big-endian form: the last byte is the remainder by 256. */
  function EncodeInt(n: nat, w: nat): (r: Bytes)
    requires n < Pow256(w)
    ensures |r| == w
  {
    if w == 0 then [] else EncodeInt(n / 256, w - 1) + [n % 256]
  }

  function DecodeInt(b: Bytes): (n: nat)
    ensures n < Pow256(|b|)
  {
    if b == [] then 0 else 256 * DecodeInt(b[..|b| - 1]) + b[|b| - 1]
  }

  /** `try_decode_key` at an integer type of `w` bytes: anything but exactly `w` bytes is refused. */
  function TryDecodeKey(b: Bytes, w: nat): Option<nat> {
    if |b| == w then Some(DecodeInt(b)) else None
  }

  lemma {:induction false} KeyRoundTrip(n: nat, w: nat)
    requires n < Pow256(w)
    ensures TryDecodeKey(EncodeInt(n, w), w) == Some(n)
  {
    if w > 0 {
      KeyRoundTrip(n / 256, w - 1);
      assert EncodeInt(n, w)[..w - 1] == EncodeInt(n / 256, w - 1);
    }
  }

  lemma {:induction false} BytesRoundTrip(b: Bytes)
    ensures EncodeInt(DecodeInt(b), |b|) == b
  {
    if b != [] {
      var n := |b| - 1;
      BytesRoundTrip(b[..n]);
      assert b == b[..n] + [b[n]];
    }
  }

  /** Concatenating parts of fixed length sorts by the first part, then by the second. */
  lemma {:induction false} PairsSortByParts(a: Bytes, b: Bytes, c: Bytes, d: Bytes)
    requires |a| == |c|
    ensures LexLess(a + b, c + d) <==> LexLess(a, c) || (a == c && LexLess(b, d))
    ensures a + b == c + d <==> a == c && b == d
  {
    if a == [] {
      assert a + b == b && c + d == d;
    } else {
      PairsSortByParts(a[1..], b, c[1..], d);
      assert (a + b)[1..] == a[1..] + b && (c + d)[1..] == c[1..] + d;
      assert (a + b)[0] == a[0] && (c + d)[0] == c[0];
      if a + b == c + d { assert a == [a[0]] + a[1..] && c == [c[0]] + c[1..]; }
    }
  }

  /** Encoded integers sort as bytes exactly as they sort as numbers. */
  lemma {:induction false} EncodingKeepsOrder(a: nat, b: nat, w: nat)
    requires a < Pow256(w) && b < Pow256(w)
    ensures LexLess(EncodeInt(a, w), EncodeInt(b, w)) <==> a < b
    ensures EncodeInt(a, w) == EncodeInt(b, w) <==> a == b
  {
    if w > 0 {
      EncodingKeepsOrder(a / 256, b / 256, w - 1);
      PairsSortByParts(EncodeInt(a / 256, w - 1), [a % 256], EncodeInt(b / 256, w - 1), [b % 256]);
    }
  }

  lemma {:induction false} LexTransitive(a: Bytes, b: Bytes, c: Bytes)
    requires LexLess(a, b) && LexLess(b, c)
    ensures LexLess(a, c)
  {
    if a != [] && a[0] == b[0] && b[0] == c[0] { LexTransitive(a[1..], b[1..], c[1..]); }
  }

  lemma {:induction false} LexTrichotomy(a: Bytes, b: Bytes)
    ensures !LexLess(a, a)
    ensures a != b ==> LexLess(a, b) || LexLess(b, a)
  {
    if a != [] {
      LexTrichotomy(a[1..], if b == [] then [] else b[1..]);
      if b != [] && a[0] == b[0] { assert a == [a[0]] + a[1..] && b == [b[0]] + b[1..]; }
    }
  }

  lemma LexIsTotalOrder()
    ensures StrictTotalOrder(LexLess)
  {
    forall a, b, c | LexLess(a, b) && LexLess(b, c) ensures LexLess(a, c) { LexTransitive(a, b, c); }
    forall a, b ensures !LexLess(a, a) && (a != b ==> LexLess(a, b) || LexLess(b, a)) { LexTrichotomy(a, b); }
  }
}
