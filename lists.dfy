/** Index-based list edits shared by the monthly-series managers and the
    warehouse form: `list.filter((_, i) => i !== index)`. */
module Lists {

  /** Keeps every element whose position differs from `index`, in order.
      An index outside the list (negative, or past the end) removes nothing. */
  function RemoveAt<T>(s: seq<T>, index: int): (r: seq<T>)
    ensures 0 <= index < |s| ==> r == s[..index] + s[index + 1..]
    ensures !(0 <= index < |s|) ==> r == s
    decreases |s|
  {
    if s == [] then []
    else (if index == 0 then [] else [s[0]]) + RemoveAt(s[1..], index - 1)
  }

  /** Position-wise view of `RemoveAt`: the elements before `index` stay where
      they were and the ones after it move up by one. */
  lemma {:induction false} RemoveAtShifts<T>(s: seq<T>, index: int, j: int)
    requires 0 <= index < |s|
    requires 0 <= j < |s| - 1
    ensures |RemoveAt(s, index)| == |s| - 1
    ensures RemoveAt(s, index)[j] == if j < index then s[j] else s[j + 1]
  {
    var r := RemoveAt(s, index);
    assert r == s[..index] + s[index + 1..];
    if j < index {
      assert r[j] == s[..index][j];
    } else {
      assert r[j] == s[index + 1..][j - index];
    }
  }

  /** What is removed is exactly one occurrence of the element at `index`. */
  lemma {:induction false} RemoveAtMultiset<T>(s: seq<T>, index: int)
    requires 0 <= index < |s|
    ensures multiset(RemoveAt(s, index)) + multiset{s[index]} == multiset(s)
  {
    assert s == s[..index] + [s[index]] + s[index + 1..];
  }
}
