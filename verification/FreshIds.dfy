/** There is always an unused identifier, as with random UUIDs. */
module FreshIds {
  lemma FreshIdExists(s: set<nat>)
    ensures exists id: nat :: id !in s
  {
    var bound := UpperBound(s);
    assert bound !in s;
  }

  ghost function UpperBound(s: set<nat>): (b: nat)
    ensures forall x :: x in s ==> x < b
  {
    if s == {} then 0
    else
      var x :| x in s;
      var rest := UpperBound(s - {x});
      assert forall y :: y in s ==> y == x || y in s - {x};
      if rest <= x then x + 1 else rest
  }
}
