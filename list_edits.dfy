/**
 * The list updates the pages apply to their local copies after the server
 * confirms a change: replace the entries carrying an id, or drop them.
 */
module ListEdits {
  import opened Wrappers
  import opened Sequences

  /** Every entry whose id equals `id` becomes `x`; every other entry stays as it is. */
  function ReplaceById<T>(s: seq<T>, idOf: T -> Option<string>, id: Option<string>, x: T): (r: seq<T>)
    ensures |r| == |s|
    ensures forall i :: 0 <= i < |s| ==> r[i] == (if idOf(s[i]) == id then x else s[i])
  {
    if s == [] then []
    else [if idOf(s[0]) == id then x else s[0]] + ReplaceById(s[1..], idOf, id, x)
  }

  /** How many entries carry the id `id`. */
  function CountId<T>(s: seq<T>, idOf: T -> Option<string>, id: string): nat
  {
    if s == [] then 0 else (if idOf(s[0]) == Some(id) then 1 else 0) + CountId(s[1..], idOf, id)
  }

  /**
   * The entries whose id is not `id`, in their original order: a subsequence
   * with no entry carrying `id` that is short by exactly the entries that do.
   */
  function RemoveById<T(==)>(s: seq<T>, idOf: T -> Option<string>, id: string): (r: seq<T>)
    ensures Subsequence(r, s)
    ensures forall i :: 0 <= i < |r| ==> idOf(r[i]) != Some(id)
    ensures |r| == |s| - CountId(s, idOf, id)
  {
    if s == [] then []
    else if idOf(s[0]) == Some(id) then RemoveById(s[1..], idOf, id)
    else
      var rest := RemoveById(s[1..], idOf, id);
      assert ([s[0]] + rest)[1..] == rest;
      [s[0]] + rest
  }

  /** Removing twice removes nothing more. */
  lemma {:induction false} RemoveByIdIdempotent<T>(s: seq<T>, idOf: T -> Option<string>, id: string)
    ensures RemoveById(RemoveById(s, idOf, id), idOf, id) == RemoveById(s, idOf, id)
  {
    if s != [] {
      RemoveByIdIdempotent(s[1..], idOf, id);
      if idOf(s[0]) != Some(id) {
        var rest := RemoveById(s[1..], idOf, id);
        assert ([s[0]] + rest)[1..] == rest;
      }
    }
  }

  /** Without any entry carrying the id, removal changes nothing. */
  lemma {:induction false} RemoveAbsentId<T>(s: seq<T>, idOf: T -> Option<string>, id: string)
    requires forall i :: 0 <= i < |s| ==> idOf(s[i]) != Some(id)
    ensures RemoveById(s, idOf, id) == s
  {
    if s != [] {
      RemoveAbsentId(s[1..], idOf, id);
    }
  }

  /** Replacing with an entry that carries the same id keeps every entry's id. */
  lemma ReplaceKeepsIds<T>(s: seq<T>, idOf: T -> Option<string>, id: Option<string>, x: T)
    requires idOf(x) == id
    ensures forall i :: 0 <= i < |s| ==> idOf(ReplaceById(s, idOf, id, x)[i]) == idOf(s[i])
  {
  }
}
