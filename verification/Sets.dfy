/** Finite sets of integers. */
module Sets {
  lemma Inhabited(a: set<int>)
    ensures a == {} || exists x :: x in a
  {
    if forall x :: x !in a { assert a == {}; }
  }

  lemma {:induction false} SubsetSize(a: set<int>, b: set<int>)
    requires a <= b
    ensures |a| <= |b|
    ensures |a| == |b| ==> a == b
  {
    if a != {} {
      Inhabited(a);
      var x :| x in a;
      SubsetSize(a - {x}, b - {x});
      assert a == (a - {x}) + {x} && b == (b - {x}) + {x};
    }
  }

  lemma {:induction false} Least(ids: set<int>) returns (least: int)
    requires ids != {}
    ensures least in ids && forall id :: id in ids ==> least <= id
    decreases |ids|
  {
    Inhabited(ids);
    least :| least in ids;
    var rest := ids - {least};
    assert ids == rest + {least};
    if rest != {} {
      var other := Least(rest);
      if other < least { least := other; }
    }
  }

  lemma {:induction false} Greatest(ids: set<int>) returns (greatest: int)
    requires ids != {}
    ensures greatest in ids && forall id :: id in ids ==> id <= greatest
    decreases |ids|
  {
    Inhabited(ids);
    greatest :| greatest in ids;
    var rest := ids - {greatest};
    assert ids == rest + {greatest};
    if rest != {} {
      var other := Greatest(rest);
      if other > greatest { greatest := other; }
    }
  }

  ghost predicate Ascending(ids: seq<int>) {
    forall i, j :: 0 <= i < j < |ids| ==> ids[i] < ids[j]
  }

  function Members(ids: seq<int>): set<int> { set id | id in ids }

  lemma {:induction false} AscendingSize(ids: seq<int>)
    requires Ascending(ids)
    ensures |Members(ids)| == |ids|
  {
    if ids != [] {
      var front, last := ids[..|ids| - 1], ids[|ids| - 1];
      assert ids == front + [last];
      AscendingSize(front);
      assert last !in front;
      assert Members(ids) == Members(front) + {last};
    }
  }
}
