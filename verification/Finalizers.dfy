/** The list helpers that the finalizer step is written with. */
module Finalizers {

  const OWN_FINALIZER := "storage.finalizers.tutorial.kubebuilder.io"

  method ContainsString(slice: seq<string>, s: string) returns (found: bool)
    ensures found <==> s in slice
  {
    for i := 0 to |slice|
      invariant s !in slice[..i]
    {
      if slice[i] == s {
        return true;
      }
    }
    return false;
  }

  /** The list without any occurrence of `s`, in the same order. */
  function Without(slice: seq<string>, s: string): (r: seq<string>)
    ensures s !in r
    ensures forall x | x != s :: multiset(r)[x] == multiset(slice)[x]
  {
    if slice == [] then []
    else
      var last := slice[|slice| - 1];
      assert slice == slice[..|slice| - 1] + [last];
      Without(slice[..|slice| - 1], s) + if last == s then [] else [last]
  }

  method RemoveString(slice: seq<string>, s: string) returns (result: seq<string>)
    ensures result == Without(slice, s)
  {
    result := [];
    for i := 0 to |slice|
      invariant result == Without(slice[..i], s)
    {
      assert slice[..i + 1][..i] == slice[..i];
      if slice[i] == s {
        continue;
      }
      result := result + [slice[i]];
    }
    assert slice[..|slice|] == slice;
  }

  lemma {:induction false} WithoutConcat(a: seq<string>, b: seq<string>, s: string)
    ensures Without(a + b, s) == Without(a, s) + Without(b, s)
  {
    if b == [] {
      assert a + b == a;
    } else {
      var init := b[..|b| - 1];
      assert (a + b)[..|a + b| - 1] == a + init;
      WithoutConcat(a, init, s);
    }
  }

  lemma {:induction false} WithoutAbsent(a: seq<string>, s: string)
    requires s !in a
    ensures Without(a, s) == a
  {
    if a != [] {
      WithoutAbsent(a[..|a| - 1], s);
    }
  }
}
