/** Generic searches over sequences: the "first match wins" and "keep those that pass" loops of the service. */
module Seqs {

  /** Index of the first element satisfying `p`, or `|s|` when none does. */
  function FirstIndex<T>(s: seq<T>, p: T -> bool): (k: nat)
    ensures k <= |s|
    ensures k < |s| ==> p(s[k])
    ensures forall j :: 0 <= j < k ==> !p(s[j])
  {
    if |s| == 0 then 0
    else if p(s[0]) then 0
    else 1 + FirstIndex(s[1..], p)
  }

  /** The elements of `s` that satisfy `p`, in their original order. */
  function Filter<T>(s: seq<T>, p: T -> bool): (r: seq<T>)
    ensures |r| <= |s|
    ensures forall x :: x in r ==> x in s && p(x)
    ensures forall x :: x in s && p(x) ==> x in r
  {
    if |s| == 0 then []
    else if p(s[0]) then [s[0]] + Filter(s[1..], p)
    else Filter(s[1..], p)
  }

  /** Filtering keeps the first element that passes at the head of the result. */
  lemma {:induction false} FilterHead<T>(s: seq<T>, p: T -> bool)
    requires FirstIndex(s, p) < |s|
    ensures Filter(s, p) != [] && Filter(s, p)[0] == s[FirstIndex(s, p)]
  {
    if !p(s[0]) {
      FilterHead(s[1..], p);
    }
  }

  /** Filtering a sequence extended by one element extends the filtered sequence accordingly. */
  lemma {:induction false} FilterSnoc<T>(s: seq<T>, x: T, p: T -> bool)
    ensures Filter(s + [x], p) == Filter(s, p) + (if p(x) then [x] else [])
  {
    if |s| > 0 {
      assert (s + [x])[1..] == s[1..] + [x];
      FilterSnoc(s[1..], x, p);
    } else {
      assert s + [x] == [x];
    }
  }

  /** `k` is the first index satisfying `p` when `s[k]` does and no earlier element does. */
  lemma FirstIndexAt<T>(s: seq<T>, p: T -> bool, k: nat)
    requires k < |s| && p(s[k])
    requires forall j :: 0 <= j < k ==> !p(s[j])
    ensures FirstIndex(s, p) == k
  {
  }

  /** When no element satisfies `p`, the search runs off the end. */
  lemma FirstIndexNone<T>(s: seq<T>, p: T -> bool)
    requires forall j :: 0 <= j < |s| ==> !p(s[j])
    ensures FirstIndex(s, p) == |s|
  {
  }

  /** Filtering leaves nothing exactly when the search for a passing element runs off the end. */
  lemma {:induction false} FilterEmpty<T>(s: seq<T>, p: T -> bool)
    ensures Filter(s, p) == [] <==> FirstIndex(s, p) == |s|
  {
    if |s| > 0 && !p(s[0]) {
      FilterEmpty(s[1..], p);
    }
  }

  /** Filtering leaves nothing exactly when every element fails the test. */
  lemma FilterNone<T>(s: seq<T>, p: T -> bool)
    ensures Filter(s, p) == [] <==> forall k :: 0 <= k < |s| ==> !p(s[k])
  {
    FilterEmpty(s, p);
    if forall k :: 0 <= k < |s| ==> !p(s[k]) {
      FirstIndexNone(s, p);
    }
  }
}
