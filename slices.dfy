/** Slice helpers of util.go. A Go slice is modelled as a backing array `a`
    together with the slice's length `n` (the slice is `a[..n]`), because these
    helpers work inside the caller's backing array. */
module Slices {

  /** Index of the first element of `s` equal to `r`, or |s| when there is none. */
  function FirstIndex(s: seq<string>, r: string): (i: nat)
    ensures i <= |s|
    ensures i < |s| ==> s[i] == r
    ensures forall j :: 0 <= j < i ==> s[j] != r
  {
    if s == [] then 0 else if s[0] == r then 0 else 1 + FirstIndex(s[1..], r)
  }

  /** The slice RemoveStringFromSlice returns: `s` without its first element equal to `r`. */
  function RemoveFirst(s: seq<string>, r: string): (t: seq<string>)
    ensures r !in s ==> t == s
    ensures r in s ==> exists i :: 0 <= i < |s| && s[i] == r && (forall j :: 0 <= j < i ==> s[j] != r) && t == s[..i] + s[i + 1..]
  {
    var i := FirstIndex(s, r);
    if i == |s| then s else s[..i] + s[i + 1..]
  }

  /** Exactly one copy of `r` leaves; every other element stays. */
  lemma RemoveFirstMultiset(s: seq<string>, r: string)
    ensures multiset(RemoveFirst(s, r)) == multiset(s) - multiset{r}
  {
    var i := FirstIndex(s, r);
    if i < |s| {
      SplitAt(s, i);
      MultisetWithout(s[..i], r, s[i + 1..]);
    }
  }

  /** A list is its part before `i`, its element at `i` and its part after. */
  lemma SplitAt(s: seq<string>, i: nat)
    requires i < |s|
    ensures s == s[..i] + [s[i]] + s[i + 1..]
  {
  }

  /** The part of a list from `i` on is its element at `i` and what follows. */
  lemma Unconsed(s: seq<string>, i: nat)
    requires i < |s|
    ensures s[i..] == [s[i]] + s[i + 1..]
  {
  }

  /** Dropping one copy of `r` from the middle of a list. */
  lemma MultisetWithout(front: seq<string>, r: string, back: seq<string>)
    ensures multiset(front + back) == multiset(front + [r] + back) - multiset{r}
  {
    assert multiset(front + [r] + back) == multiset(front) + multiset{r} + multiset(back);
  }

  /** Removing an element absent from the list, or twice from a list holding it
      once, changes nothing more. */
  lemma {:induction false} RemoveFirstOfDistinct(s: seq<string>, r: string)
    requires forall i, j :: 0 <= i < j < |s| ==> s[i] != s[j]
    ensures r !in RemoveFirst(s, r)
    ensures RemoveFirst(RemoveFirst(s, r), r) == RemoveFirst(s, r)
  {
  }

  /** RemoveStringFromSlice (util.go:28-35) on the slice `a[..n]`.
      `append(s[:i], s[i+1:]...)` shifts the tail down by one inside `a`, so the
      caller's array is overwritten, and the element at `n - 1` keeps its value. */
  method RemoveStringFromSlice(a: array<string>, n: nat, r: string) returns (k: nat)
    requires n <= a.Length
    modifies a
    ensures k == if r in old(a[..n]) then n - 1 else n
    ensures a[..k] == RemoveFirst(old(a[..n]), r)
    ensures a[k..] == old(a[k..])
  {
    ghost var s := a[..n];
    var i := 0;
    while i < n
      invariant 0 <= i <= n
      invariant forall j :: 0 <= j < i ==> s[j] != r
      invariant a[..] == old(a[..])
    {
      if a[i] == r {
        assert FirstIndex(s, r) == i;
        assert r in s;
        ShiftDown(a, i, n);
        assert a[..n - 1] == a[..i] + a[i..n - 1];
        assert a[..n - 1] == s[..i] + s[i + 1..];
        return n - 1;
      }
      i := i + 1;
    }
    return n;
  }

  /** The `append(s[:i], s[i+1:]...)` step: elements `i + 1 .. n - 1` move one slot down. */
  method ShiftDown(a: array<string>, i: nat, n: nat)
    requires i < n <= a.Length
    modifies a
    ensures a[..i] == old(a[..i])
    ensures a[i..n - 1] == old(a[i + 1..n])
    ensures a[n - 1..] == old(a[n - 1..])
  {
    var j := i;
    while j + 1 < n
      invariant i <= j < n
      invariant forall k :: 0 <= k < i ==> a[k] == old(a[k])
      invariant forall k :: i <= k < j ==> a[k] == old(a[k + 1])
      invariant forall k :: j <= k < a.Length ==> a[k] == old(a[k])
    {
      a[j] := a[j + 1];
      j := j + 1;
    }
  }

  /** SplitPayload (util.go:79-87) on the slice `a[..n]`: the command is the first
      element and the message is the rest; the message occupies the front of the
      caller's array, whose last slot keeps its old value. */
  method SplitPayload(a: array<string>, n: nat) returns (command: string, m: nat)
    requires 1 <= n <= a.Length
    modifies a
    ensures command == old(a[0])
    ensures m == n - 1 && a[..m] == old(a[1..n])
    ensures a[m..] == old(a[m..])
  {
    command := a[0];
    assert FirstIndex(a[..n], command) == 0;
    m := RemoveStringFromSlice(a, n, command);
  }

  /** GetArgumentAndFlags (util.go:90-98): drops the command word, then splits the
      rest, so the argument is the second word and the flags are the words after it.
      Both removals shift the caller's array down by one, so its last element now
      fills the two slots after the flags. */
  method GetArgumentAndFlags(a: array<string>, n: nat) returns (argument: string, f: nat)
    requires 2 <= n <= a.Length
    modifies a
    ensures argument == old(a[1])
    ensures f == n - 2 && a[..f] == old(a[2..n])
    ensures a[f..] == [old(a[n - 1])] + old(a[n - 1..])
  {
    var command := a[0];
    assert FirstIndex(a[..n], command) == 0;
    var m := RemoveStringFromSlice(a, n, command);
    assert a[..m] == old(a[1..n]);
    assert a[0] == a[..m][0];
    ghost var mid := a[..];
    assert mid[m - 1] == a[..m][m - 1] == old(a[1..n])[m - 1];
    assert mid[m..] == old(a[m..]);
    argument, f := SplitPayload(a, m);
    assert a[f..] == mid[f..];
    Unconsed(mid, f);
  }

  /** What RemoveFromString leaves: element `i` replaced by the last one, and the
      last slot dropped. */
  function SwapRemove(s: seq<string>, i: nat): (t: seq<string>)
    requires i < |s|
    ensures |t| == |s| - 1
  {
    s[i := s[|s| - 1]][..|s| - 1]
  }

  /** RemoveFromString removes exactly the element at `i` (order is not kept). */
  lemma SwapRemoveMultiset(s: seq<string>, i: nat)
    requires i < |s|
    ensures multiset(SwapRemove(s, i)) == multiset(s) - multiset{s[i]}
  {
    var n := |s|;
    if i == n - 1 {
      assert s == s[..n - 1] + [s[n - 1]];
      assert SwapRemove(s, i) == s[..n - 1];
    } else {
      assert s == s[..i] + [s[i]] + s[i + 1..n - 1] + [s[n - 1]];
      assert SwapRemove(s, i) == s[..i] + [s[n - 1]] + s[i + 1..n - 1];
    }
  }

  /** RemoveFromString (util.go:101-104): swaps `s[i]` with the last element of the
      slice `a[..n]` inside the caller's array and returns the slice one shorter. */
  method RemoveFromString(a: array<string>, n: nat, i: nat) returns (k: nat)
    requires i < n <= a.Length
    modifies a
    ensures k == n - 1
    ensures a[..k] == SwapRemove(old(a[..n]), i)
    ensures a[..] == old(a[..])[i := old(a[n - 1])][n - 1 := old(a[i])]
  {
    a[n - 1], a[i] := a[i], a[n - 1];
    k := n - 1;
  }
}
