/** Sequence facts shared by the enrollment list and the completed-lesson list. */
module Lists {

  /** No element occurs twice. */
  predicate NoDuplicates<T(==)>(s: seq<T>) {
    forall i, j :: 0 <= i < j < |s| ==> s[i] != s[j]
  }

  /** Appending an element that is not yet present keeps a list duplicate-free. */
  lemma AppendFresh<T>(s: seq<T>, x: T)
    requires NoDuplicates(s) && x !in s
    ensures NoDuplicates(s + [x])
  {
  }

  /** The linear membership scan the pages run over `loggedInUser.courses`
      (`for` loop that sets a flag and breaks on the first match). */
  method Scan(xs: seq<int>, x: int) returns (found: bool)
    ensures found <==> x in xs
  {
    found := false;
    var i := 0;
    while i < |xs|
      invariant 0 <= i <= |xs|
      invariant x !in xs[..i]
    {
      if xs[i] == x {
        found := true;
        return;
      }
      i := i + 1;
    }
  }
}
