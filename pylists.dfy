/** The few Python list operations the game relies on: `set(xs)` and the slices `xs[-k:]` and `xs[:-k]`. */
module PyLists {

  /** `set(xs)`: the distinct elements of a list. */
  function Distinct<T>(xs: seq<T>): set<T> {
    set x | x in xs
  }

  predicate AllEqual<T(==)>(xs: seq<T>) {
    forall i, j :: 0 <= i < |xs| && 0 <= j < |xs| ==> xs[i] == xs[j]
  }

  /** `len(set(xs)) == 1` holds exactly when the list is non-empty and all its elements are equal. */
  lemma SingleDistinct<T>(xs: seq<T>)
    ensures |Distinct(xs)| == 1 <==> |xs| > 0 && AllEqual(xs)
  {
    if |xs| > 0 && AllEqual(xs) {
      assert Distinct(xs) == {xs[0]};
    }
    if |Distinct(xs)| == 1 {
      var x :| x in Distinct(xs);
      assert Distinct(xs) - {x} == {} by {
        assert |Distinct(xs) - {x}| == 0;
      }
      forall i | 0 <= i < |xs|
        ensures xs[i] == x
      {
        assert xs[i] in Distinct(xs);
      }
    }
  }

  /** Where Python puts a slice bound `i` of a list of length `len`: a negative bound counts from the end,
      and either kind is clipped to the list. */
  function SliceIndex(len: nat, i: int): (p: nat)
    ensures p <= len
    ensures i < 0 && -i <= len ==> p == len + i
    ensures 0 <= i <= len ==> p == i
  {
    if i < 0 then (if len + i < 0 then 0 else len + i)
    else if i > len then len
    else i
  }

  /** `xs[-k:]`. */
  function TakeLast<T>(xs: seq<T>, k: int): seq<T> {
    xs[SliceIndex(|xs|, -k)..]
  }

  /** `xs[:-k]`. */
  function DropLast<T>(xs: seq<T>, k: int): seq<T> {
    xs[..SliceIndex(|xs|, -k)]
  }

  /** The two slices cut the list at the same place, and for 0 < k the first holds the last k elements
      (all of them when the list is shorter); for k == 0 Python's `-0` is `0`, so the first is the whole list. */
  lemma SliceParts<T>(xs: seq<T>, k: int)
    ensures DropLast(xs, k) + TakeLast(xs, k) == xs
    ensures 0 < k <= |xs| ==> TakeLast(xs, k) == xs[|xs| - k..] && DropLast(xs, k) == xs[..|xs| - k]
    ensures k > |xs| ==> TakeLast(xs, k) == xs && DropLast(xs, k) == []
    ensures k == 0 ==> TakeLast(xs, k) == xs && DropLast(xs, k) == []
  {
  }
}
