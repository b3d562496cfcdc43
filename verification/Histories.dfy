/** What a sequence of edits says about one field: the last value given to it, or all of them in order. */
module Histories {
  import opened Prelude

  function Last<E, T>(edits: seq<E>, f: E -> Option<T>): Option<T> {
    if edits == [] then None
    else if f(edits[|edits| - 1]).Some? then f(edits[|edits| - 1])
    else Last(edits[..|edits| - 1], f)
  }

  function All<E, T>(edits: seq<E>, f: E -> Option<T>): seq<T> {
    if edits == [] then []
    else
      var before := All(edits[..|edits| - 1], f);
      match f(edits[|edits| - 1])
      case Some(x) => before + [x]
      case None => before
  }

  function Or<T>(x: Option<T>, default: T): T {
    match x
    case Some(v) => v
    case None => default
  }

  /** `Last` is the value at some index after which `f` picks nothing more. */
  lemma {:induction false} LastMeaning<E, T>(edits: seq<E>, f: E -> Option<T>)
    ensures Last(edits, f).None? ==> forall i :: 0 <= i < |edits| ==> f(edits[i]).None?
    ensures Last(edits, f).Some? ==>
              exists i :: 0 <= i < |edits| && f(edits[i]) == Last(edits, f)
                          && forall j :: i < j < |edits| ==> f(edits[j]).None?
  {
    if edits != [] {
      var n := |edits| - 1;
      if f(edits[n]).Some? {
        assert f(edits[n]) == Last(edits, f);
      } else {
        LastMeaning(edits[..n], f);
        if Last(edits, f).Some? {
          var i :| 0 <= i < n && f(edits[..n][i]) == Last(edits, f)
                   && forall j :: i < j < n ==> f(edits[..n][j]).None?;
          assert f(edits[i]) == Last(edits, f);
          assert forall j :: i < j < n ==> f(edits[j]) == f(edits[..n][j]);
        } else {
          assert forall i :: 0 <= i < n ==> f(edits[i]) == f(edits[..n][i]);
        }
      }
    }
  }

  /** The value that `f` picks at an index after which it picks nothing more is the last one. */
  lemma LastIs<E, T>(edits: seq<E>, f: E -> Option<T>, i: nat)
    requires i < |edits| && f(edits[i]).Some?
    requires forall j :: i < j < |edits| ==> f(edits[j]).None?
    ensures Last(edits, f) == f(edits[i])
  {
    LastMeaning(edits, f);
    var k :| 0 <= k < |edits| && f(edits[k]) == Last(edits, f)
             && forall j :: k < j < |edits| ==> f(edits[j]).None?;
    assert k == i;
  }
}
