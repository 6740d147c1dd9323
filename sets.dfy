/**
 * Kotlin's `setOf(a, b, c)` builds an insertion-ordered set: iterating it
 * visits each distinct element once, in the order of its first occurrence
 * in the argument list. `SetOf` is that iteration order.
 */
module Sets {

  predicate NoDuplicates<T(==,!new)>(s: seq<T>)
  {
    forall i, j :: 0 <= i < j < |s| ==> s[i] != s[j]
  }

  function SetOf<T(==,!new)>(elements: seq<T>): (r: seq<T>)
    ensures forall x :: x in r <==> x in elements
    ensures NoDuplicates(r)
    ensures |r| <= |elements|
    ensures NoDuplicates(elements) ==> r == elements
  {
    if elements == [] then []
    else
      var init, last := elements[..|elements| - 1], elements[|elements| - 1];
      assert elements == init + [last];
      var r := SetOf(init);
      if last in r then r else r + [last]
  }
}
