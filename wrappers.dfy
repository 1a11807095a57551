/** The optional value used wherever a Python value may be missing (a dictionary
    key that is absent, an element that was not found, a call that raised). */
module Wrappers {

  datatype Option<+T> = None | Some(value: T) {

    /** The value, or `default` when there is none (Python's `d.get(k, default)`). */
    function GetOr(default: T): T {
      match this
      case Some(v) => v
      case None => default
    }
  }

  /** What a loop that overwrites a variable whenever an item gives a value
      keeps: the value given by the LAST item that gives one. */
  function LastGiven<S, T>(items: seq<S>, give: S -> Option<T>): Option<T> {
    if items == [] then None
    else if give(items[|items| - 1]).Some? then give(items[|items| - 1])
    else LastGiven(items[..|items| - 1], give)
  }

  /** Of two items, the second gives the value when it gives one. */
  lemma LastGivenOfTwo<S, T>(a: S, b: S, give: S -> Option<T>)
    ensures LastGiven([a, b], give) == if give(b).Some? then give(b) else give(a)
  {
    assert [a, b][..1] == [a] && [a][..0] == [];
    assert LastGiven([a], give) == if give(a).Some? then give(a) else LastGiven([], give);
  }

  /** A later item overrides an earlier one: there is a value exactly when
      some item gives one, and it is the value of an item after which no item
      gives one. */
  lemma {:induction false} LastGivenIsLast<S, T>(items: seq<S>, give: S -> Option<T>)
    ensures LastGiven(items, give).None? <==> forall j :: 0 <= j < |items| ==> give(items[j]).None?
    ensures LastGiven(items, give).Some? ==>
      exists j :: 0 <= j < |items| && give(items[j]) == LastGiven(items, give) &&
        forall k :: j < k < |items| ==> give(items[k]).None?
    decreases |items|
  {
    if items != [] {
      var n := |items| - 1;
      var init := items[..n];
      LastGivenIsLast(init, give);
      assert forall j :: 0 <= j < n ==> init[j] == items[j];
      if give(items[n]).None? {
        if LastGiven(init, give).Some? {
          var j :| 0 <= j < n && give(init[j]) == LastGiven(init, give) &&
            forall k :: j < k < n ==> give(init[k]).None?;
          assert give(items[j]) == LastGiven(items, give);
        }
      } else {
        assert give(items[n]) == LastGiven(items, give);
      }
    }
  }

  /** The value is that of any item after which no item gives one. */
  lemma LastGivenAt<S, T>(items: seq<S>, give: S -> Option<T>, j: nat)
    requires j < |items| && give(items[j]).Some?
    requires forall k :: j < k < |items| ==> give(items[k]).None?
    ensures LastGiven(items, give) == give(items[j])
  {
    LastGivenIsLast(items, give);
    var i :| 0 <= i < |items| && give(items[i]) == LastGiven(items, give) &&
             forall k :: i < k < |items| ==> give(items[k]).None?;
    assert !(i < j) && !(j < i);
  }
}
