/** Vocabulary shared by the whole model. */
module Wrappers {
  datatype Option<+T> = None | Some(value: T)

  datatype Result<+T, +E> = Ok(value: T) | Err(error: E)
}

/** Sequence operations the two recency structures are described with. */
module Sequences {
  /** `s` without its element at position `i`. */
  function RemoveAt<T>(s: seq<T>, i: nat): seq<T>
    requires i < |s|
  {
    s[..i] + s[i + 1..]
  }

  /** What `splice` to the front does: the element at `i` first, the others in their old order. */
  function ToFront<T>(s: seq<T>, i: nat): seq<T>
    requires i < |s|
  {
    [s[i]] + RemoveAt(s, i)
  }

  ghost predicate Distinct<T>(s: seq<T>) {
    forall i, j :: 0 <= i < j < |s| ==> s[i] != s[j]
  }

  lemma RemoveAtProperties<T>(s: seq<T>, i: nat)
    requires i < |s|
    ensures |RemoveAt(s, i)| == |s| - 1
    ensures forall j :: 0 <= j < i ==> RemoveAt(s, i)[j] == s[j]
    ensures forall j :: i <= j < |s| - 1 ==> RemoveAt(s, i)[j] == s[j + 1]
    ensures Distinct(s) ==> Distinct(RemoveAt(s, i)) && s[i] !in RemoveAt(s, i)
    ensures forall x :: x in RemoveAt(s, i) ==> x in s
    ensures forall x :: x in s && x != s[i] ==> x in RemoveAt(s, i)
  {
    assert s == s[..i] + [s[i]] + s[i + 1..];
  }

  lemma ToFrontProperties<T>(s: seq<T>, i: nat)
    requires i < |s|
    ensures |ToFront(s, i)| == |s| && ToFront(s, i)[0] == s[i]
    ensures forall j :: 0 < j <= i ==> ToFront(s, i)[j] == s[j - 1]
    ensures forall j :: i < j < |s| ==> ToFront(s, i)[j] == s[j]
    ensures Distinct(s) ==> Distinct(ToFront(s, i))
    ensures forall x :: x in ToFront(s, i) <==> x in s
  {
    RemoveAtProperties(s, i);
  }

  /** The first position from `from` on whose element satisfies `test`, or the length if there is none. */
  function FindFrom<T>(s: seq<T>, test: T -> bool, from: nat): (i: nat)
    requires from <= |s|
    ensures from <= i <= |s|
    ensures i < |s| ==> test(s[i])
    ensures forall j :: from <= j < i ==> !test(s[j])
    decreases |s| - from
  {
    if from == |s| || test(s[from]) then from else FindFrom(s, test, from + 1)
  }
}
