/** The few pieces of the Java platform that the quiz and the commit id rely on:
    references that may be `null` (and `java.util.Optional`), calls that complete
    by throwing, `Math.min` and `List.copyOf`. */
module Java {

  /** `java.util.Optional`, and equally a reference that may be `null`. */
  datatype Option<+T> = None | Some(value: T)

  /** The one exception the modelled code can raise. */
  datatype Exception = NullPointerException

  /** How a Java call completes: normally with a value, or abruptly by throwing. */
  datatype Completion<+T> = Returns(result: T) | Throws(exception: Exception)

  /** `Math.min` on two ints. */
  function Min(a: int, b: int): (m: int)
    ensures m <= a && m <= b
    ensures m == a || m == b
  {
    if a <= b then a else b
  }

  /** `List.copyOf` on a non-null list: an element-wise copy, which throws
      `NullPointerException` as soon as it meets a `null` element. */
  function CopyOf<T>(xs: seq<Option<T>>): (r: Completion<seq<T>>)
    ensures r.Throws? <==> exists i :: 0 <= i < |xs| && xs[i].None?
    ensures r.Throws? ==> r.exception == NullPointerException
    ensures r.Returns? ==> |r.result| == |xs|
    ensures r.Returns? ==> forall i :: 0 <= i < |xs| ==> xs[i] == Some(r.result[i])
  {
    if xs == [] then Returns([])
    else
      match xs[0]
      case None => Throws(NullPointerException)
      case Some(x) =>
        match CopyOf(xs[1..])
        case Throws(e) => Throws(e)
        case Returns(rest) => Returns([x] + rest)
  }

  /** The list a Java caller holds when every element of `xs` is non-null. */
  function NonNull<T>(xs: seq<T>): (r: seq<Option<T>>)
    ensures |r| == |xs|
    ensures forall i :: 0 <= i < |xs| ==> r[i] == Some(xs[i])
  {
    seq(|xs|, i requires 0 <= i < |xs| => Some(xs[i]))
  }

  /** Copying a list without `null` elements gives back exactly its elements. */
  lemma CopyOfNonNull<T>(xs: seq<T>)
    ensures CopyOf(NonNull(xs)) == Returns(xs)
  {
    var r := CopyOf(NonNull(xs));
    assert forall i :: 0 <= i < |xs| ==> NonNull(xs)[i].Some?;
    assert r.result == xs;
  }
}
