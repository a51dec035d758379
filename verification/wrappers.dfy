/** Option and Result (with `:-` support) and a first-match search over sequences,
    the shape shared by every `Iterator::find` in the loader and the hydration helpers. */
module Wrappers {

  datatype Option<+T> = None | Some(value: T)

  /** The value as a sequence of zero or one elements. */
  function AsSeq<T>(o: Option<T>): (s: seq<T>)
    ensures |s| <= 1 && (s == [] <==> o.None?)
    ensures o.Some? ==> s == [o.value]
  {
    if o.Some? then [o.value] else []
  }

  /** The outcome of a loader step: a value, or the reason the loader gives up. */
  datatype Result<+T, +E> = Ok(value: T) | Err(error: E) {
    predicate IsFailure() { Err? }

    function PropagateFailure<U>(): Result<U, E>
      requires Err?
    {
      Err(error)
    }

    function Extract(): T
      requires Ok?
    {
      value
    }
  }

  /** Turns an absent value into the given error (Rust's `Option::expect`, minus the panic). */
  function Need<T, E>(o: Option<T>, e: E): (r: Result<T, E>)
    ensures r.Ok? <==> o.Some?
    ensures o.Some? ==> r.value == o.value
    ensures o.None? ==> r.error == e
  {
    match o
    case Some(v) => Ok(v)
    case None => Err(e)
  }

  /** Index of the first element whose key is `target`, scanning from the front. */
  function FirstIndex<T, K(==)>(s: seq<T>, key: T -> K, target: K): (r: Option<nat>)
    ensures r.Some? ==> r.value < |s| && key(s[r.value]) == target
    ensures r.Some? ==> forall j :: 0 <= j < r.value ==> key(s[j]) != target
    ensures r.None? ==> forall j :: 0 <= j < |s| ==> key(s[j]) != target
  {
    if s == [] then None
    else if key(s[0]) == target then Some(0)
    else
      match FirstIndex(s[1..], key, target)
      case None => None
      case Some(i) => Some(i + 1)
  }

  /** An index whose key is the target, with none before it, is the first one. */
  lemma {:induction false} FirstIndexAt<T, K>(s: seq<T>, key: T -> K, target: K, i: nat)
    requires i < |s| && key(s[i]) == target
    requires forall k :: 0 <= k < i ==> key(s[k]) != target
    ensures FirstIndex(s, key, target) == Some(i)
  {
    if i > 0 {
      assert key(s[0]) != target;
      FirstIndexAt(s[1..], key, target, i - 1);
    }
  }

  /** The first element whose key is `target` (`Iterator::find`). */
  function FirstMatch<T, K(==)>(s: seq<T>, key: T -> K, target: K): (r: Option<T>)
  {
    match FirstIndex(s, key, target)
    case Some(i) => Some(s[i])
    case None => None
  }

  /** A search through two sequences in a row finds in the second only what the first lacks. */
  lemma FirstMatchAppend<T, K>(a: seq<T>, b: seq<T>, key: T -> K, target: K)
    ensures FirstMatch(a + b, key, target) ==
      if FirstMatch(a, key, target).Some? then FirstMatch(a, key, target) else FirstMatch(b, key, target)
  {
    var ab := a + b;
    match FirstIndex(a, key, target)
    case Some(i) =>
      assert ab[i] == a[i];
      assert forall j :: 0 <= j < i ==> ab[j] == a[j];
      assert FirstIndex(ab, key, target) == Some(i);
    case None =>
      assert forall j :: 0 <= j < |a| ==> ab[j] == a[j];
      match FirstIndex(b, key, target)
      case Some(k) =>
        assert ab[|a| + k] == b[k];
        assert forall j :: |a| <= j < |a| + k ==> ab[j] == b[j - |a|];
        assert FirstIndex(ab, key, target) == Some(|a| + k);
      case None =>
        assert forall j :: |a| <= j < |ab| ==> ab[j] == b[j - |a|];
        assert FirstIndex(ab, key, target) == None;
  }
}
