/** The optional and fallible values the other modules share. */
module Wrappers {

  datatype Option<+T> = None | Some(value: T)

  /** The `(value, error)` pairs of the source, of which exactly one half is meaningful. */
  datatype Result<+T, +E> = Ok(value: T) | Err(error: E)

  /** The zero- or one-element sequence of an optional value. */
  function ToSeq<T>(o: Option<T>): seq<T> {
    match o
    case None => []
    case Some(x) => [x]
  }

  lemma ConcatAssoc<T>(a: seq<T>, b: seq<T>, c: seq<T>)
    ensures a + b + c == a + (b + c)
  {
  }

  /** `whole` collects what the parts contribute, each part at most one element: every element of `whole`
      comes from one part, at positions `at` that increase, and no part with an element is passed over. */
  ghost predicate Picks<T>(parts: seq<seq<T>>, whole: seq<T>, at: seq<nat>) {
    && |at| == |whole|
    && (forall j, k :: 0 <= j < k < |at| ==> at[j] < at[k])
    && (forall k :: 0 <= k < |at| ==> at[k] < |parts| && parts[at[k]] == [whole[k]])
    && (forall i: nat :: i < |parts| && parts[i] != [] ==> i in at)
  }

  lemma PicksAppend<T>(parts: seq<seq<T>>, whole: seq<T>, at: seq<nat>, part: seq<T>)
    requires Picks(parts, whole, at) && |part| <= 1
    ensures Picks(parts + [part], whole + part, if part == [] then at else at + [|parts|])
  {
    if part == [] {
      assert whole + part == whole;
    }
    forall i: nat | i < |parts| + 1 && (parts + [part])[i] != []
      ensures i in if part == [] then at else at + [|parts|]
    {
      if i < |parts| {
        assert parts[i] != [] && i in at;
      }
    }
  }
}
