/** The least number of a finite set, as a value and as a loop that reads it. */
module LeastNumber {

  ghost predicate IsLeast(i: nat, s: set<nat>) {
    i in s && forall j :: j in s ==> i <= j
  }

  lemma {:induction false} LeastExists(s: set<nat>)
    requires s != {}
    ensures exists i :: IsLeast(i, s)
  {
    var i :| i in s;
    if s == {i} {
      assert IsLeast(i, s);
    } else {
      LeastExists(s - {i});
      var j :| IsLeast(j, s - {i});
      assert s == (s - {i}) + {i};
      assert IsLeast(if i <= j then i else j, s);
    }
  }

  ghost function Least(s: set<nat>): (i: nat)
    requires s != {}
    ensures IsLeast(i, s)
  {
    LeastExists(s);
    var i :| IsLeast(i, s);
    i
  }

  /** Read the least number of a non-empty set. */
  method FindLeast(s: set<nat>) returns (i: nat)
    requires s != {}
    ensures IsLeast(i, s)
  {
    i :| i in s;
    var rest := s - {i};
    while rest != {}
      invariant i in s && rest <= s
      invariant forall j :: j in s ==> j in rest || i <= j
      decreases |rest|
    {
      var j :| j in rest;
      rest := rest - {j};
      if j < i { i := j; }
    }
  }
}
