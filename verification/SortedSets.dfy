/** The iteration order of the source's ordered maps and sets (BTreeMap, BTreeSet):
    a finite set laid out as its one ascending sequence. */
module SortedSets {

  ghost predicate StrictTotalOrder<T(!new)>(less: (T, T) -> bool) {
    && (forall x :: !less(x, x))
    && (forall x, y, z :: less(x, y) && less(y, z) ==> less(x, z))
    && (forall x, y :: x != y ==> less(x, y) || less(y, x))
  }

  ghost predicate Ascending<T>(s: seq<T>, less: (T, T) -> bool) {
    forall i, j :: 0 <= i < j < |s| ==> less(s[i], s[j])
  }

  ghost predicate IsLeast<T>(m: T, s: set<T>, less: (T, T) -> bool) {
    m in s && forall y :: y in s && y != m ==> less(m, y)
  }

  lemma {:induction false} LeastExists<T(!new)>(s: set<T>, less: (T, T) -> bool) returns (m: T)
    requires StrictTotalOrder(less) && s != {}
    ensures IsLeast(m, s, less)
    decreases |s|
  {
    m :| m in s;
    if s != {m} {
      var rest := s - {m};
      assert rest != {};
      var n := LeastExists(rest, less);
      if less(n, m) { m := n; }
    }
  }

  function Least<T(!new)>(s: set<T>, less: (T, T) -> bool): (m: T)
    requires StrictTotalOrder(less) && s != {}
    ensures IsLeast(m, s, less)
  {
    ghost var w := LeastOf(s, less);
    assert IsLeast(w, s, less);
    var m :| m in s && forall y :: y in s && y != m ==> less(m, y);
    m
  }

  ghost function LeastOf<T(!new)>(s: set<T>, less: (T, T) -> bool): (m: T)
    requires StrictTotalOrder(less) && s != {}
    ensures IsLeast(m, s, less)
  {
    assert exists m :: IsLeast(m, s, less) by { var m := LeastExists(s, less); }
    var m :| IsLeast(m, s, less);
    m
  }

  /** The elements of `s`, each once, in ascending order. */
  function Sorted<T(!new)>(s: set<T>, less: (T, T) -> bool): (r: seq<T>)
    requires StrictTotalOrder(less)
    ensures Ascending(r, less)
    ensures forall x :: x in r <==> x in s
    ensures |r| == |s|
    decreases |s|
  {
    if s == {} then [] else
      var m := Least(s, less);
      [m] + Sorted(s - {m}, less)
  }

  predicate NatLess(x: nat, y: nat) { x < y }

  function SortedNats(s: set<nat>): (r: seq<nat>)
    ensures Ascending(r, NatLess)
    ensures forall x :: x in r <==> x in s
    ensures |r| == |s|
  {
    Sorted(s, NatLess)
  }
}
