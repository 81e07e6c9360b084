/** Sequence helpers: filtering, counting, first-occurrence removal, subsequences. */
module Lists {

  /** The elements of `s` that satisfy `p`, in order. */
  function Filter<T(!new)>(s: seq<T>, p: T -> bool): (r: seq<T>)
    ensures |r| <= |s|
  {
    if s == [] then []
    else Filter(s[..|s| - 1], p) + (if p(s[|s| - 1]) then [s[|s| - 1]] else [])
  }

  /** The elements of `s` that do not satisfy `p`, in order. */
  function Reject<T(!new)>(s: seq<T>, p: T -> bool): (r: seq<T>)
    ensures |r| + Count(s, p) == |s|
    ensures forall x :: x in r <==> x in s && !p(x)
  {
    if s == [] then []
    else Reject(s[..|s| - 1], p) + (if p(s[|s| - 1]) then [] else [s[|s| - 1]])
  }

  /** How many elements of `s` satisfy `p`. */
  function Count<T>(s: seq<T>, p: T -> bool): (n: nat)
    ensures n <= |s|
  {
    if s == [] then 0
    else Count(s[..|s| - 1], p) + (if p(s[|s| - 1]) then 1 else 0)
  }

  /** Python's `list.remove(x)`: drop the first occurrence of `x`, if any. */
  function RemoveFirst<T(==)>(s: seq<T>, x: T): seq<T> {
    if s == [] then []
    else if s[0] == x then s[1..]
    else [s[0]] + RemoveFirst(s[1..], x)
  }

  /** `c` is `s` with some elements left out, the rest kept in order. */
  predicate IsSubsequence<T(==)>(c: seq<T>, s: seq<T>)
    decreases |s|
  {
    if c == [] then true
    else if s == [] then false
    else if c[0] == s[0] then IsSubsequence(c[1..], s[1..])
    else IsSubsequence(c, s[1..])
  }

  lemma {:induction false} RemoveFirstAt<T>(a: seq<T>, x: T, b: seq<T>)
    requires x !in a
    ensures RemoveFirst(a + [x] + b, x) == a + b
    decreases |a|
  {
    if a == [] {
      assert (a + [x] + b)[1..] == b;
    } else {
      assert (a + [x] + b)[1..] == a[1..] + [x] + b;
      RemoveFirstAt(a[1..], x, b);
      assert a == [a[0]] + a[1..];
    }
  }

  lemma {:induction false} FilterAppend<T(!new)>(a: seq<T>, b: seq<T>, p: T -> bool)
    ensures Filter(a + b, p) == Filter(a, p) + Filter(b, p)
    decreases |b|
  {
    if b == [] {
      assert a + b == a;
    } else {
      var b' := b[..|b| - 1];
      assert (a + b)[..|a + b| - 1] == a + b';
      FilterAppend(a, b', p);
    }
  }

  /** Filtering from the front: the first element, then the rest. */
  lemma FilterCons<T(!new)>(s: seq<T>, p: T -> bool)
    requires s != []
    ensures Filter(s, p) == (if p(s[0]) then [s[0]] else []) + Filter(s[1..], p)
  {
    var h, t := [s[0]], s[1..];
    assert s == h + t;
    FilterAppend(h, t, p);
    assert h[..0] == [];
    assert Filter(h, p) == [] + (if p(s[0]) then [s[0]] else []);
  }

  /** Putting an extra element in front of the longer list keeps a subsequence. */
  lemma {:induction false} SubsequenceSkip<T>(c: seq<T>, x: T, s: seq<T>)
    requires IsSubsequence(c, s)
    ensures IsSubsequence(c, [x] + s)
    decreases |s|, 1
  {
    assert ([x] + s)[1..] == s;
    if c != [] && c[0] == x {
      SubsequenceDrop(c, s);
    }
  }

  /** Dropping the first element of the shorter list keeps a subsequence. */
  lemma {:induction false} SubsequenceDrop<T>(c: seq<T>, s: seq<T>)
    requires c != [] && IsSubsequence(c, s)
    ensures IsSubsequence(c[1..], s)
    decreases |s|, 0
  {
    if c[0] != s[0] {
      SubsequenceDrop(c, s[1..]);
    }
    if c[1..] != [] {
      SubsequenceSkip(c[1..], s[0], s[1..]);
      assert [s[0]] + s[1..] == s;
    }
  }

  /** No element occurs twice. */
  predicate Distinct<T(==)>(s: seq<T>) {
    forall i, j :: 0 <= i < j < |s| ==> s[i] != s[j]
  }

  /** Rejecting keeps a list free of duplicates. */
  lemma {:induction false} RejectDistinct<T(!new)>(s: seq<T>, p: T -> bool)
    requires Distinct(s)
    ensures Distinct(Reject(s, p))
    decreases |s|
  {
    if s != [] {
      var init, last := s[..|s| - 1], s[|s| - 1];
      assert Distinct(init);
      RejectDistinct(init, p);
      if !p(last) {
        var r := Reject(init, p);
        assert last !in init by {
          forall i | 0 <= i < |init| ensures init[i] != last {
            assert s[i] == init[i];
          }
        }
        assert last !in r;
        assert Reject(s, p) == r + [last];
        forall i, j | 0 <= i < j < |r + [last]| ensures (r + [last])[i] != (r + [last])[j] {
          if j == |r| {
            assert (r + [last])[i] == r[i];
            assert r[i] in r;
          }
        }
      }
    }
  }

  /**
   * Rejecting by `p` removes exactly the elements `p` counts: when `p`
   * implies `q`, the `q`-elements left plus those removed are all the
   * `q`-elements there were.
   */
  lemma {:induction false} RejectCountWithin<T(!new)>(s: seq<T>, p: T -> bool, q: T -> bool)
    requires forall x :: p(x) ==> q(x)
    ensures Count(Reject(s, p), q) + Count(s, p) == Count(s, q)
    decreases |s|
  {
    if s != [] {
      var init, last := s[..|s| - 1], s[|s| - 1];
      RejectCountWithin(init, p, q);
      var r := Reject(init, p);
      assert Count(s, p) == Count(init, p) + (if p(last) then 1 else 0);
      assert Count(s, q) == Count(init, q) + (if q(last) then 1 else 0);
      if p(last) {
        assert Reject(s, p) == r + [];
        assert r + [] == r;
      } else {
        assert Reject(s, p) == r + [last];
        CountSnoc(r, last, q);
      }
    }
  }

  /** Rejecting by `p` leaves the count of a disjoint `q` as it was. */
  lemma {:induction false} RejectCountOutside<T(!new)>(s: seq<T>, p: T -> bool, q: T -> bool)
    requires forall x :: p(x) ==> !q(x)
    ensures Count(Reject(s, p), q) == Count(s, q)
    decreases |s|
  {
    if s != [] {
      var init, last := s[..|s| - 1], s[|s| - 1];
      RejectCountOutside(init, p, q);
      var r := Reject(init, p);
      assert Count(s, q) == Count(init, q) + (if q(last) then 1 else 0);
      if p(last) {
        assert Reject(s, p) == r + [];
        assert r + [] == r;
      } else {
        assert Reject(s, p) == r + [last];
        CountSnoc(r, last, q);
      }
    }
  }

  /** Rejecting twice by the same predicate removes nothing more, and nothing rejectable is left. */
  lemma {:induction false} RejectTwice<T(!new)>(s: seq<T>, p: T -> bool)
    ensures Reject(Reject(s, p), p) == Reject(s, p)
    ensures Count(Reject(s, p), p) == 0
    decreases |s|
  {
    if s != [] {
      var init, last := s[..|s| - 1], s[|s| - 1];
      RejectTwice(init, p);
      var r := Reject(init, p);
      if p(last) {
        assert Reject(s, p) == r + [];
        assert r + [] == r;
      } else {
        var r' := r + [last];
        assert Reject(s, p) == r';
        assert r'[..|r'| - 1] == r;
        assert r'[|r'| - 1] == last;
        assert Reject(r', p) == Reject(r, p) + [last];
        CountSnoc(r, last, p);
      }
    }
  }

  /** Counting over a list extended at the back. */
  lemma CountSnoc<T>(s: seq<T>, x: T, q: T -> bool)
    ensures Count(s + [x], q) == Count(s, q) + (if q(x) then 1 else 0)
  {
    assert (s + [x])[..|s + [x]| - 1] == s;
  }

  /**
   * A pass over a snapshot `s` that removes each element matching `p` from
   * the live list with `RemoveFirst`, after its first `i` elements: the
   * matches among those are gone, the rest of the snapshot is untouched.
   */
  function Swept<T(!new)>(s: seq<T>, i: nat, p: T -> bool): seq<T>
    requires i <= |s|
  {
    Reject(s[..i], p) + s[i..]
  }

  /** The pass starts from the snapshot and ends with the matches rejected. */
  lemma SweptEnds<T(!new)>(s: seq<T>, p: T -> bool)
    ensures Swept(s, 0, p) == s && Count(s[..0], p) == 0
    ensures Swept(s, |s|, p) == Reject(s, p) && Count(s[..|s|], p) == Count(s, p)
  {
    assert s[..0] == [] && s[0..] == s;
    assert s[..|s|] == s && s[|s|..] == [];
  }

  /** A sweep only removes: what is absent from the list stays absent. */
  lemma SweptWithout<T(!new)>(s: seq<T>, i: nat, p: T -> bool, x: T)
    requires i <= |s| && x !in s
    ensures x !in Swept(s, i, p)
  {
    assert s == s[..i] + s[i..];
    assert x !in s[..i] && x !in s[i..];
  }

  /**
   * One step of the pass: handling element `i` (removing it when it
   * matches) turns the state after `i` elements into the state after
   * `i + 1`, and counts the match.
   */
  lemma SweepStep<T(!new)>(s: seq<T>, i: nat, p: T -> bool)
    requires Distinct(s) && i < |s|
    ensures Swept(s, i + 1, p) == if p(s[i]) then RemoveFirst(Swept(s, i, p), s[i]) else Swept(s, i, p)
  {
    if p(s[i]) {
      SweepRemoves(s, i, p);
    } else {
      SweepKeeps(s, i, p);
    }
  }

  lemma SweepRemoves<T(!new)>(s: seq<T>, i: nat, p: T -> bool)
    requires Distinct(s) && i < |s| && p(s[i])
    ensures Swept(s, i + 1, p) == RemoveFirst(Swept(s, i, p), s[i])
  {
    var a, x, b := s[..i], s[i], s[i + 1..];
    assert s[..i + 1][..i] == a;
    assert s[i..] == [x] + b;
    var r := Reject(a, p);
    DistinctFresh(s, i);
    RemoveFirstAt(r, x, b);
    assert r + [x] + b == r + ([x] + b);
    assert Reject(s[..i + 1], p) == r + [];
    assert r + [] == r;
  }

  /** In a list without duplicates, an element does not occur before its own position. */
  lemma DistinctFresh<T>(s: seq<T>, i: nat)
    requires Distinct(s) && i < |s|
    ensures s[i] !in s[..i]
  {
    forall k | 0 <= k < i ensures s[..i][k] != s[i] {
      assert s[..i][k] == s[k];
    }
  }

  lemma SweepKeeps<T(!new)>(s: seq<T>, i: nat, p: T -> bool)
    requires i < |s| && !p(s[i])
    ensures Swept(s, i + 1, p) == Swept(s, i, p)
  {
    var a, x, b := s[..i], s[i], s[i + 1..];
    assert s[..i + 1][..i] == a;
    assert s[i..] == [x] + b;
    var r := Reject(a, p);
    assert Reject(s[..i + 1], p) == r + [x];
    assert r + [x] + b == r + ([x] + b);
  }

  /** Counting over one more element of a prefix. */
  lemma CountStep<T>(s: seq<T>, i: nat, p: T -> bool)
    requires i < |s|
    ensures Count(s[..i + 1], p) == Count(s[..i], p) + (if p(s[i]) then 1 else 0)
  {
    assert s[..i + 1][..i] == s[..i];
  }
}
