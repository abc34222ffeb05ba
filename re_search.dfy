/**
 * Python's `re.search(pattern, text)`: the pattern is tried at every index of the text
 * from the left, and the first index at which it matches wins.  A pattern is given
 * here by its matcher: what the match at a given index is, if there is one.
 */
module ReSearch {
  import opened Wrappers

  /** A match and the index where it starts. */
  datatype Found<T> = Found(pos: nat, groups: T)

  /** The leftmost match at an index `i` or later. */
  function SearchFrom<T>(text: string, i: nat, matchAt: (string, nat) -> Option<T>): (r: Option<Found<T>>)
    ensures r.Some? ==> i <= r.value.pos <= |text| && matchAt(text, r.value.pos) == Some(r.value.groups)
    ensures r.Some? ==> forall j :: i <= j < r.value.pos ==> matchAt(text, j).None?
    ensures r.None? ==> forall j :: i <= j <= |text| ==> matchAt(text, j).None?
    decreases |text| + 1 - i
  {
    if i > |text| then None
    else
      match matchAt(text, i)
      case Some(g) => Some(Found(i, g))
      case None => SearchFrom(text, i + 1, matchAt)
  }

  /** `re.search`: the leftmost match anywhere in the text. */
  function Search<T>(text: string, matchAt: (string, nat) -> Option<T>): (r: Option<Found<T>>)
    ensures r.Some? ==> r.value.pos <= |text| && matchAt(text, r.value.pos) == Some(r.value.groups)
    ensures r.Some? ==> forall j: nat :: j < r.value.pos ==> matchAt(text, j).None?
    ensures r.None? ==> forall j: nat :: j <= |text| ==> matchAt(text, j).None?
  {
    SearchFrom(text, 0, matchAt)
  }
}
