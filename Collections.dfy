/**
 * Queries over a collection held as a map from id to record. Because ids grow
 * with insertion, scanning ids in increasing order visits the records in the
 * collection's natural order, which is the order `find` and `findOne` use.
 */
module Collections {
  import opened Wrappers
  import opened ObjectIds

  /** `find(p)`: the ids in [lo, hi) whose record satisfies `p`, in increasing order. */
  function Select<T>(m: map<Id, T>, p: (Id, T) -> bool, lo: nat, hi: nat): (r: seq<Id>)
    ensures forall k :: k in r <==> lo <= k < hi && k in m && p(k, m[k])
    ensures forall i, j :: 0 <= i < j < |r| ==> r[i] < r[j]
    decreases hi - lo
  {
    if lo >= hi then []
    else
      var t := Select(m, p, lo + 1, hi);
      if lo in m && p(lo, m[lo]) then
        assert forall j :: 0 <= j < |t| ==> lo < t[j] by {
          forall j | 0 <= j < |t| ensures lo < t[j] { assert t[j] in t; }
        }
        [lo] + t
      else t
  }

  /** `findOne(p)`: the first id in [lo, hi) whose record satisfies `p`. */
  function First<T>(m: map<Id, T>, p: (Id, T) -> bool, lo: nat, hi: nat): (r: Option<Id>)
    ensures r.Some? ==> lo <= r.value < hi && r.value in m && p(r.value, m[r.value])
    ensures r.Some? ==> forall k :: lo <= k < r.value && k in m ==> !p(k, m[k])
    ensures r.None? ==> forall k :: lo <= k < hi && k in m ==> !p(k, m[k])
  {
    var s := Select(m, p, lo, hi);
    if s == [] then None
    else
      assert s[0] in s;
      assert forall k :: lo <= k < s[0] && k in m ==> !p(k, m[k]) by {
        forall k | lo <= k < s[0] && k in m ensures !p(k, m[k]) {
          if p(k, m[k]) {
            assert false;
          }
        }
      }
      Some(s[0])
  }

  ghost predicate SortedDesc(s: seq<Id>, key: Id -> int) {
    forall i, j :: 0 <= i < j < |s| ==> key(s[i]) >= key(s[j])
  }

  /** An element whose key bounds every key of a sorted sequence can go in front of it. */
  lemma ConsSorted(a: Id, t: seq<Id>, key: Id -> int)
    requires SortedDesc(t, key)
    requires forall k :: k in t ==> key(a) >= key(k)
    ensures SortedDesc([a] + t, key)
  {
    forall i, j | 0 <= i < j < |[a] + t| ensures key(([a] + t)[i]) >= key(([a] + t)[j]) {
      if i == 0 { assert t[j - 1] in t; }
    }
  }

  /** Puts `x` in front of the first element whose key is smaller than its own. */
  function InsertDesc(x: Id, s: seq<Id>, key: Id -> int): (r: seq<Id>)
    requires SortedDesc(s, key)
    ensures SortedDesc(r, key)
    ensures multiset(r) == multiset(s) + multiset{x}
  {
    if s == [] || key(x) >= key(s[0]) then
      FrontBounds(x, s, key);
      ConsSorted(x, s, key);
      [x] + s
    else
      var t := InsertDesc(x, s[1..], key);
      TailBounds(x, s, t, key);
      ConsSorted(s[0], t, key);
      assert s == [s[0]] + s[1..];
      [s[0]] + t
  }

  /** An element whose key bounds the head of a sorted sequence bounds all of it. */
  lemma FrontBounds(x: Id, s: seq<Id>, key: Id -> int)
    requires SortedDesc(s, key)
    requires s == [] || key(x) >= key(s[0])
    ensures forall k :: k in s ==> key(x) >= key(k)
  {
    forall k | k in s ensures key(x) >= key(k) {
      var j :| 0 <= j < |s| && s[j] == k;
    }
  }

  /** The head of a sorted sequence bounds whatever `x`, whose key is below it, is inserted among the rest. */
  lemma TailBounds(x: Id, s: seq<Id>, t: seq<Id>, key: Id -> int)
    requires SortedDesc(s, key) && s != [] && key(x) < key(s[0])
    requires multiset(t) == multiset(s[1..]) + multiset{x}
    ensures forall k :: k in t ==> key(s[0]) >= key(k)
  {
    forall k | k in t ensures key(s[0]) >= key(k) {
      assert k in multiset(t);
      if k != x {
        assert k in multiset(s[1..]);
        var j :| 0 <= j < |s[1..]| && s[1..][j] == k;
        assert s[j + 1] == k;
      }
    }
  }

  /** `sort({ key: -1 })`: the same ids, ordered by key from largest to smallest. */
  function SortDesc(s: seq<Id>, key: Id -> int): (r: seq<Id>)
    ensures SortedDesc(r, key)
    ensures multiset(r) == multiset(s)
  {
    if s == [] then []
    else
      assert s == [s[0]] + s[1..];
      InsertDesc(s[0], SortDesc(s[1..], key), key)
  }

  /** A strictly increasing sequence holds each value at most once. */
  lemma {:induction false} IncreasingCountsOne(s: seq<Id>, x: Id)
    requires forall i, j :: 0 <= i < j < |s| ==> s[i] < s[j]
    ensures multiset(s)[x] <= 1
  {
    if s != [] {
      assert s == [s[0]] + s[1..];
      IncreasingCountsOne(s[1..], x);
      if s[0] == x {
        assert x !in s[1..] by {
          forall j | 0 <= j < |s[1..]| ensures s[1..][j] != x {
            assert s[1..][j] == s[j + 1];
          }
        }
      }
    }
  }

  /** A rearrangement of a strictly increasing sequence repeats no value. */
  lemma PermutationDistinct(s: seq<Id>, r: seq<Id>)
    requires forall i, j :: 0 <= i < j < |s| ==> s[i] < s[j]
    requires multiset(r) == multiset(s)
    ensures forall i, j :: 0 <= i < j < |r| ==> r[i] != r[j]
  {
    forall i, j | 0 <= i < j < |r| ensures r[i] != r[j] {
      if r[i] == r[j] {
        assert r == r[..j] + r[j..];
        assert r[i] in r[..j];
        assert r[j..][0] == r[i];
        assert multiset(r)[r[i]] == multiset(r[..j])[r[i]] + multiset(r[j..])[r[i]];
        IncreasingCountsOne(s, r[i]);
        assert false;
      }
    }
  }
}
