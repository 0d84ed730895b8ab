// Small helpers shared by the other modules: Option, and counting facts
// about sequences and finite sets.
module Collections {
  datatype Option<+T> = None | Some(value: T)

  predicate Distinct<T(==)>(s: seq<T>) {
    forall i, j :: 0 <= i < j < |s| ==> s[i] != s[j]
  }

  function Elements<T(==)>(s: seq<T>): set<T>
  {
    set x | x in s
  }

  /** Pigeonhole: a sequence without repeats, drawn from a set, is no longer than the set. */
  lemma {:induction false} DistinctFits<T>(s: seq<T>, bound: set<T>)
    requires Distinct(s)
    requires forall x :: x in s ==> x in bound
    ensures |s| <= |bound|
    ensures (forall x :: x in bound ==> x in s) ==> |s| == |bound|
  {
    if s == [] {
      if bound != {} { var x :| x in bound; assert x !in s; }
    } else {
      var last := s[|s| - 1];
      var rest, smaller := s[..|s| - 1], bound - {last};
      forall x | x in rest ensures x in smaller {
        assert x in s;
      }
      assert last in s;
      DistinctFits(rest, smaller);
      if forall x :: x in bound ==> x in s {
        forall x | x in smaller ensures x in rest {
          assert x in s;
        }
      }
    }
  }

  lemma {:induction false} SubsetSize<T>(a: set<T>, b: set<T>)
    requires a <= b
    ensures |a| <= |b|
    ensures |a| == |b| ==> a == b
  {
    if a != {} {
      var x :| x in a;
      SubsetSize(a - {x}, b - {x});
    }
  }

  lemma {:induction false} DistinctElements<T>(s: seq<T>)
    requires Distinct(s)
    ensures |Elements(s)| == |s|
    ensures multiset(s) == multiset(Elements(s))
  {
    if s != [] {
      var rest, last := s[..|s| - 1], s[|s| - 1];
      DistinctElements(rest);
      assert s == rest + [last];
      assert Elements(s) == Elements(rest) + {last};
      assert last !in rest;
    }
  }

  /** What is left and what was taken make up the whole. */
  lemma Partition<T>(taken: set<T>, whole: set<T>, left: set<T>)
    requires taken <= whole && left == whole - taken
    ensures |taken| + |left| == |whole|
    ensures |left| == 0 ==> whole == taken
  {
    assert whole == taken + left;
  }

  lemma AtMostOne<T>(s: set<T>, a: T, b: T)
    requires |s| <= 1 && a in s && b in s
    ensures a == b
  {
    SubsetSize({a, b}, s);
  }
}
