/**
 * The two in-place list edits the game performs on its object lists:
 * Python's `list.remove(x)` (drop the FIRST element equal to `x`) and the
 * remove-then-`insert(0, x)` pair of `send_to_back`.
 */
module Lists {

  /** Index of the first occurrence of `x` in `s`. */
  function IndexOf<T(==)>(s: seq<T>, x: T): (i: nat)
    requires x in s
    ensures i < |s| && s[i] == x
    ensures forall j :: 0 <= j < i ==> s[j] != x
  {
    if s[0] == x then 0 else 1 + IndexOf(s[1..], x)
  }

  /** `list.remove(x)`: the list without its first occurrence of `x`. */
  function RemoveFirst<T(==)>(s: seq<T>, x: T): seq<T>
    requires x in s
  {
    var i := IndexOf(s, x);
    s[..i] + s[i + 1..]
  }

  /** `remove(x)` followed by `insert(0, x)`. */
  function ToFront<T(==)>(s: seq<T>, x: T): seq<T>
    requires x in s
  {
    [x] + RemoveFirst(s, x)
  }

  /** Removing one element loses exactly one copy of it and keeps everything else. */
  lemma RemoveFirstContents<T>(s: seq<T>, x: T)
    requires x in s
    ensures |RemoveFirst(s, x)| == |s| - 1
    ensures multiset(RemoveFirst(s, x)) == multiset(s) - multiset{x}
    ensures forall y :: y != x ==> (y in RemoveFirst(s, x) <==> y in s)
  {
    var i := IndexOf(s, x);
    assert s == s[..i] + [x] + s[i + 1..];
    assert multiset(s) == multiset(s[..i]) + multiset{x} + multiset(s[i + 1..]);
  }

  /** `send_to_back` puts `x` first and only reorders the list. */
  lemma ToFrontIsPermutation<T>(s: seq<T>, x: T)
    requires x in s
    ensures |ToFront(s, x)| == |s| && ToFront(s, x)[0] == x
    ensures multiset(ToFront(s, x)) == multiset(s)
  {
    RemoveFirstContents(s, x);
  }

  /** Appending a new element and sending it to the back is prepending it. */
  lemma ToFrontOfNewLast<T>(s: seq<T>, x: T)
    requires x !in s
    ensures ToFront(s + [x], x) == [x] + s
  {
    assert IndexOf(s + [x], x) == |s|;
    assert (s + [x])[..|s|] == s;
  }

  /**
   * Moving the element at index `i` to the front, when it does not occur
   * earlier, leaves everything after index `i` where it was.
   */
  lemma ToFrontKeepsSuffix<T>(s: seq<T>, i: nat)
    requires i < |s| && s[i] !in s[..i]
    ensures |ToFront(s, s[i])| == |s| && ToFront(s, s[i])[i + 1..] == s[i + 1..]
  {
    assert IndexOf(s, s[i]) == i;
  }
}
