/** Python's ordering of `str` values (code point by code point, a proper prefix first) and
    `sorted()` of a set of strings, which the indexer, the query tool and the repository
    configuration all use to make their listings deterministic. */
module Order {

  /** `a < b` on Python strings. */
  predicate Less(a: string, b: string)
    decreases |a|
  {
    if a == [] then b != []
    else if b == [] then false
    else if a[0] != b[0] then a[0] < b[0]
    else Less(a[1..], b[1..])
  }

  predicate LessEq(a: string, b: string) {
    a == b || Less(a, b)
  }

  lemma {:induction false} LessIrreflexive(a: string)
    ensures !Less(a, a)
    decreases |a|
  {
    if a != [] {
      LessIrreflexive(a[1..]);
    }
  }

  lemma {:induction false} LessTransitive(a: string, b: string, c: string)
    requires Less(a, b) && Less(b, c)
    ensures Less(a, c)
    decreases |a|
  {
    if a != [] && a[0] == b[0] && b[0] == c[0] {
      LessTransitive(a[1..], b[1..], c[1..]);
    }
  }

  /** Any two different strings are ordered one way or the other, and only one way. */
  lemma {:induction false} LessTotal(a: string, b: string)
    ensures a != b ==> (Less(a, b) <==> !Less(b, a))
    decreases |a|
  {
    if a != [] && b != [] && a[0] == b[0] {
      LessTotal(a[1..], b[1..]);
      if a[1..] == b[1..] {
        assert a == [a[0]] + a[1..] && b == [b[0]] + b[1..];
      }
    }
  }

  /** `m` is the least element of `s`. */
  predicate IsLeast(m: string, s: set<string>) {
    m in s && forall x :: x in s ==> LessEq(m, x)
  }

  lemma {:induction false} LeastExists(s: set<string>)
    requires s != {}
    ensures exists m :: IsLeast(m, s)
    decreases |s|
  {
    var y :| y in s;
    if s - {y} == {} {
      assert s == {y};
      assert IsLeast(y, s);
    } else {
      LeastExists(s - {y});
      var m :| IsLeast(m, s - {y});
      if Less(y, m) {
        forall x | x in s ensures LessEq(y, x) {
          if x != y {
            assert x in s - {y};
            if x != m { LessTransitive(y, m, x); }
          }
        }
        assert IsLeast(y, s);
      } else {
        LessTotal(y, m);
        assert IsLeast(m, s);
      }
    }
  }

  lemma LeastUnique(s: set<string>)
    ensures forall m, n :: IsLeast(m, s) && IsLeast(n, s) ==> m == n
  {
    forall m, n | IsLeast(m, s) && IsLeast(n, s) ensures m == n {
      LessTotal(m, n);
    }
  }

  /** Every element is smaller than every element after it. */
  predicate StrictlySorted(r: seq<string>) {
    forall i, j :: 0 <= i < j < |r| ==> Less(r[i], r[j])
  }

  /** `sorted(s)`: the elements of `s` in increasing order, each once. */
  function SortedSet(s: set<string>): (r: seq<string>)
    decreases |s|
    ensures |r| == |s|
    ensures forall x :: x in r <==> x in s
    ensures StrictlySorted(r)
  {
    if s == {} then []
    else
      LeastExists(s);
      LeastUnique(s);
      var m :| IsLeast(m, s);
      var rest := SortedSet(s - {m});
      assert forall k :: 0 <= k < |rest| ==> Less(m, rest[k]) by {
        forall k | 0 <= k < |rest| ensures Less(m, rest[k]) {
          assert rest[k] in s - {m};
        }
      }
      [m] + rest
  }

  /** A strictly sorted sequence is determined by its elements, so `SortedSet` is the only
      listing with the guarantees above. */
  lemma {:induction false} SortedUnique(r: seq<string>, t: seq<string>)
    requires StrictlySorted(r) && StrictlySorted(t)
    requires forall x :: x in r <==> x in t
    ensures r == t
    decreases |r|
  {
    if r != [] { assert r[0] in t; }
    if t != [] { assert t[0] in r; }
    if r != [] && t != [] {
      if r[0] != t[0] {
        assert r[0] in t;
        assert t[0] in r;
        var i :| 0 <= i < |t| && t[i] == r[0];
        var j :| 0 <= j < |r| && r[j] == t[0];
        assert i > 0 && j > 0;
        assert Less(t[0], r[0]) && Less(r[0], t[0]);
        LessTotal(r[0], t[0]);
        assert false;
      }
      forall x ensures x in r[1..] <==> x in t[1..] {
        if x in r[1..] {
          var k :| 0 <= k < |r[1..]| && r[1..][k] == x;
          assert Less(r[0], x);
          LessIrreflexive(x);
          assert x in t && x != t[0];
        }
        if x in t[1..] {
          var k :| 0 <= k < |t[1..]| && t[1..][k] == x;
          assert Less(t[0], x);
          LessIrreflexive(x);
          assert x in r && x != r[0];
        }
      }
      SortedUnique(r[1..], t[1..]);
    }
  }

  /** A sequence whose neighbours are in order is strictly sorted. */
  lemma {:induction false} SortedByNeighbours(r: seq<string>)
    requires forall i :: 0 <= i < |r| - 1 ==> Less(r[i], r[i + 1])
    ensures StrictlySorted(r)
    decreases |r|
  {
    if |r| > 1 {
      SortedByNeighbours(r[1..]);
      forall j | 1 < j < |r| ensures Less(r[0], r[j]) {
        assert r[1..][0] == r[1] && r[1..][j - 1] == r[j];
        LessTransitive(r[0], r[1], r[j]);
      }
    }
  }
}
