/** Finite sets of ids, and their traversal in an arbitrary order, as Go traverses a map. */
module Sets {

  lemma EmptyWithoutMembers(s: set<int>)
    requires forall x: int :: x in s ==> false
    ensures s == {}
  {
    assert forall x | x in s :: x in {};
    assert s <= {};
  }

  lemma SomeMember(s: set<int>)
    requires s != {}
    ensures exists x :: x in s
  {
    if forall x :: x !in s {
      EmptyWithoutMembers(s);
    }
  }

  lemma TwoMembers(s: set<int>) returns (x: int, y: int)
    requires |s| > 1
    ensures x in s && y in s && x != y
  {
    SomeMember(s);
    x :| x in s;
    assert |s - {x}| == |s| - 1;
    SomeMember(s - {x});
    y :| y in s - {x};
  }

  lemma OnlyMember(s: set<int>, x: int)
    requires x in s && |s| <= 1
    ensures forall y :: y in s ==> y == x
  {
    assert |s - {x}| == |s| - 1;
    forall y | y in s ensures y == x {
      assert y in s - {x} || y == x;
    }
  }

  lemma Single(s: set<int>, x: int)
    requires forall y :: y in s <==> y == x
    ensures |s| == 1
  {
    EmptyWithoutMembers(s - {x});
    assert |s - {x}| == |s| - 1;
  }

  /** Any member; nothing is known of which. */
  method Pick(s: set<int>) returns (x: int)
    requires s != {}
    ensures x in s
  {
    SomeMember(s);
    x :| x in s;
  }
}
