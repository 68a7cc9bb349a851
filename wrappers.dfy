/** Option and Result, the stand-ins for Python's `None` and for raised exceptions. */
module Wrappers {

  datatype Option<+T> = None | Some(value: T)

  /** `Failure(e)` models an exception `e` that the Python code raises. */
  datatype Result<+R, +E> = Success(value: R) | Failure(error: E)

  /** The values of a sequence of options that are present, in order. */
  function Somes<T>(os: seq<Option<T>>): seq<T> {
    if os == [] then []
    else
      var init := Somes(os[..|os| - 1]);
      match os[|os| - 1]
      case Some(x) => init + [x]
      case None => init
  }

  /** The positions of the present values, in increasing order. */
  function Kept<T>(os: seq<Option<T>>): (ks: seq<nat>)
    ensures |ks| == |Somes(os)| <= |os|
    ensures forall t :: 0 <= t < |ks| ==> ks[t] < |os| && os[ks[t]] == Some(Somes(os)[t])
    ensures forall t, u :: 0 <= t < u < |ks| ==> ks[t] < ks[u]
    ensures forall j :: 0 <= j < |os| && os[j].Some? ==> j in ks
  {
    if os == [] then []
    else
      var n := |os| - 1;
      var init := os[..n];
      var ks := Kept(init);
      assert forall j :: 0 <= j < n ==> os[j] == init[j];
      assert forall j :: 0 <= j < n && os[j].Some? ==> j in ks;
      if os[n].Some? then
        var r := ks + [n];
        assert Somes(os) == Somes(init) + [os[n].value];
        assert forall t :: 0 <= t < |ks| ==> r[t] == ks[t] && ks[t] < n;
        r
      else
        assert Somes(os) == Somes(init);
        ks
  }

  /** Extending a prefix by one option adds its value, if it has one. */
  lemma SomesPrefixStep<T>(os: seq<Option<T>>, n: nat)
    requires n < |os|
    ensures Somes(os[..n + 1]) == Somes(os[..n]) + (if os[n].Some? then [os[n].value] else [])
  {
    assert os[..n + 1][..n] == os[..n];
  }

  /** Collecting distributes over concatenation. */
  lemma {:induction false} SomesAppend<T>(a: seq<Option<T>>, b: seq<Option<T>>)
    ensures Somes(a + b) == Somes(a) + Somes(b)
  {
    if b != [] {
      assert (a + b)[..|a + b| - 1] == a + b[..|b| - 1];
      SomesAppend(a, b[..|b| - 1]);
    } else {
      assert a + b == a;
    }
  }
}
