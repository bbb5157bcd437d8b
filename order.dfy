/** Python's ordering of `str` values and the `sorted()` of a set of strings. */
module StringOrder {

  /** `a < b` on Python strings: lexicographic by code point, a proper prefix first. */
  predicate Less(a: string, b: string) {
    if a == [] then b != []
    else if b == [] then false
    else if a[0] != b[0] then a[0] < b[0]
    else Less(a[1..], b[1..])
  }

  lemma {:induction false} LessIrreflexive(a: string)
    ensures !Less(a, a)
  {
    if a != [] {
      LessIrreflexive(a[1..]);
    }
  }

  lemma {:induction false} LessTransitive(a: string, b: string, c: string)
    requires Less(a, b) && Less(b, c)
    ensures Less(a, c)
  {
    if a != [] && b != [] && c != [] && a[0] == b[0] && b[0] == c[0] {
      LessTransitive(a[1..], b[1..], c[1..]);
    }
  }

  /** Any two different strings are ordered one way or the other. */
  lemma {:induction false} LessTotal(a: string, b: string)
    requires a != b
    ensures Less(a, b) || Less(b, a)
  {
    if a != [] && b != [] && a[0] == b[0] {
      assert a == [a[0]] + a[1..] && b == [b[0]] + b[1..];
      LessTotal(a[1..], b[1..]);
    }
  }

  /** Every element of `r` comes before every later one. */
  ghost predicate StrictlySorted(r: seq<string>) {
    forall i, j :: 0 <= i < j < |r| ==> Less(r[i], r[j])
  }

  /** `m` is the smallest string of `s`. */
  predicate IsLeast(m: string, s: set<string>) {
    m in s && forall x :: x in s && x != m ==> Less(m, x)
  }

  lemma {:induction false} LeastExists(s: set<string>)
    requires s != {}
    ensures exists m :: IsLeast(m, s)
    decreases |s|
  {
    var x :| x in s;
    if s - {x} == {} {
      assert s == {x};
      assert IsLeast(x, s);
    } else {
      LeastExists(s - {x});
      var m :| IsLeast(m, s - {x});
      if Less(x, m) {
        forall y | y in s && y != x
          ensures Less(x, y)
        {
          if y != m {
            LessTransitive(x, m, y);
          }
        }
        assert IsLeast(x, s);
      } else {
        LessTotal(x, m);
        assert IsLeast(m, s);
      }
    }
  }

  lemma LeastUnique(m: string, n: string, s: set<string>)
    requires IsLeast(m, s) && IsLeast(n, s)
    ensures m == n
  {
    if m != n {
      assert Less(m, n) && Less(n, m);
      LessTransitive(m, n, m);
      LessIrreflexive(m);
    }
  }

  ghost function Least(s: set<string>): (m: string)
    requires s != {}
    ensures IsLeast(m, s)
  {
    LeastExists(s);
    var m :| IsLeast(m, s);
    m
  }

  /** `sorted(s)`: the elements of `s`, smallest first. */
  ghost function SortedSet(s: set<string>): seq<string>
    decreases |s|
  {
    if s == {} then []
    else
      var m := Least(s);
      [m] + SortedSet(s - {m})
  }

  /** `sorted(s)` holds every element of `s` exactly once, in increasing order. */
  lemma {:induction false} SortedSetSpec(s: set<string>)
    ensures StrictlySorted(SortedSet(s))
    ensures forall x :: x in SortedSet(s) <==> x in s
    ensures |SortedSet(s)| == |s|
    decreases |s|
  {
    if s != {} {
      var m := Least(s);
      SortedSetSpec(s - {m});
      var r := SortedSet(s);
      assert r == [m] + SortedSet(s - {m});
      forall i, j | 0 <= i < j < |r|
        ensures Less(r[i], r[j])
      {
        if i == 0 {
          assert r[j] in s - {m};
        } else {
          assert r[i] == SortedSet(s - {m})[i - 1];
          assert r[j] == SortedSet(s - {m})[j - 1];
        }
      }
    }
  }

  /** Any strictly increasing enumeration of `s` is `sorted(s)`. */
  lemma {:induction false} SortedSetUnique(r: seq<string>, s: set<string>)
    requires StrictlySorted(r)
    requires forall x :: x in r <==> x in s
    ensures r == SortedSet(s)
    decreases |r|
  {
    if r == [] {
      assert s == {};
    } else {
      assert IsLeast(r[0], s) by {
        forall x | x in s && x != r[0]
          ensures Less(r[0], x)
        {
          var j :| 0 <= j < |r| && r[j] == x;
        }
      }
      LeastUnique(r[0], Least(s), s);
      forall x
        ensures x in r[1..] <==> x in s - {r[0]}
      {
        if x in r[1..] {
          var j :| 1 <= j < |r| && r[j] == x;
          LessIrreflexive(x);
        }
      }
      SortedSetUnique(r[1..], s - {r[0]});
    }
  }

  /** The `sorted()` call on a set, by repeated extraction of the least element. */
  method SortStrings(s: set<string>) returns (r: seq<string>)
    ensures r == SortedSet(s)
  {
    r := [];
    var rest := s;
    while rest != {}
      invariant r + SortedSet(rest) == SortedSet(s)
      decreases |rest|
    {
      LeastExists(rest);
      var m :| IsLeast(m, rest);
      LeastUnique(m, Least(rest), rest);
      r := r + [m];
      rest := rest - {m};
    }
  }
}
