/** What several modules share. */
module Common {

  datatype Option<T> = None | Some(value: T)

  function Min(a: int, b: int): int { if a <= b then a else b }
  function Max(a: int, b: int): int { if a >= b then a else b }

  ghost predicate Distinct<T>(s: seq<T>) {
    forall i, j :: 0 <= i < j < |s| ==> s[i] != s[j]
  }

  /** Taking one item off those still to be counted. */
  lemma CountOneLess<T>(counted: set<T>, rest: set<T>, x: T)
    requires x in rest
    ensures |counted * rest| == |counted * (rest - {x})| + if x in counted then 1 else 0
  {
    if x in counted {
      assert counted * rest == counted * (rest - {x}) + {x};
    } else {
      assert counted * rest == counted * (rest - {x});
    }
  }

  lemma {:induction false} SubsetSize<T>(a: set<T>, b: set<T>)
    requires a <= b
    ensures |a| <= |b|
  {
    assert b == a + (b - a);
  }
}
