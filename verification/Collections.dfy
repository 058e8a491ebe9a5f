/** Small notions about numbers, sequences and sets that several components share. */
module Collections {

  function Min(x: int, y: int): int { if x < y then x else y }

  function Max(x: int, y: int): int { if x < y then y else x }

  function ElementsOf<T(==)>(s: seq<T>): set<T> {
    set x | x in s
  }

  ghost predicate Distinct<T>(s: seq<T>) {
    forall i, j :: 0 <= i < j < |s| ==> s[i] != s[j]
  }

  lemma SubsetSize<T>(a: set<T>, b: set<T>)
    requires a <= b
    ensures |a| <= |b|
    ensures |a| == |b| <==> a == b
  {
    assert b == a + (b - a);
  }

  /** A sequence has as many elements as places if and only if no element repeats. */
  lemma {:induction false} ElementsSize<T>(s: seq<T>)
    ensures |ElementsOf(s)| <= |s|
    ensures |ElementsOf(s)| == |s| <==> Distinct(s)
  {
    if s != [] {
      var front, last := s[..|s| - 1], s[|s| - 1];
      ElementsSize(front);
      assert s == front + [last];
      assert ElementsOf(s) == ElementsOf(front) + {last};
      if last in front {
        var i :| 0 <= i < |front| && front[i] == last;
        assert s[i] == s[|s| - 1];
        assert ElementsOf(s) == ElementsOf(front);
      }
    }
  }
}
