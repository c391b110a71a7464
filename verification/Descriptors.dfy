/** Descriptor numbers: accept and pipe may return any number that is not in use. */
module Descriptors {

  lemma FreshDescriptor(taken: set<int>)
    ensures exists n: int :: 0 <= n && n !in taken
  {
    var n := 0;
    var rest := taken;
    while exists x :: x in rest
      invariant 0 <= n && rest <= taken
      invariant forall x :: x in taken && x !in rest ==> x < n
      decreases rest
    {
      var x :| x in rest;
      rest := rest - {x};
      n := if x < n then n else x + 1;
    }
    assert n !in taken;
  }
}
