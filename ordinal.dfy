/**
 * Character-by-character string order and an in-place sort of a string array under it:
 * how the tweak panel puts its group names in alphabetical order.
 */
module Ordinal {
  /** `a` sorts no later than `b`: the first differing character decides, and a proper prefix comes first. */
  predicate Below(a: string, b: string) {
    if a == [] then true
    else if b == [] then false
    else if a[0] != b[0] then a[0] < b[0]
    else Below(a[1..], b[1..])
  }

  lemma {:induction false} BelowReflexive(a: string)
    ensures Below(a, a)
  {
    if a != [] {
      BelowReflexive(a[1..]);
    }
  }

  /** Any two strings are comparable. */
  lemma {:induction false} BelowTotal(a: string, b: string)
    ensures Below(a, b) || Below(b, a)
  {
    if a != [] && b != [] && a[0] == b[0] {
      BelowTotal(a[1..], b[1..]);
    }
  }

  /** Two strings each sorting no later than the other are the same string. */
  lemma {:induction false} BelowAntisymmetric(a: string, b: string)
    requires Below(a, b) && Below(b, a)
    ensures a == b
  {
    if a != [] && b != [] {
      BelowAntisymmetric(a[1..], b[1..]);
      assert a == [a[0]] + a[1..] && b == [b[0]] + b[1..];
    }
  }

  lemma {:induction false} BelowTransitive(a: string, b: string, c: string)
    requires Below(a, b) && Below(b, c)
    ensures Below(a, c)
  {
    if a != [] && b != [] && c != [] && a[0] == b[0] && b[0] == c[0] {
      BelowTransitive(a[1..], b[1..], c[1..]);
    }
  }

  /** Every earlier element sorts no later than every later one. */
  predicate Ascending(s: seq<string>) {
    forall i, j :: 0 <= i < j < |s| ==> Below(s[i], s[j])
  }

  /** Ascending with no repeats: each element sorts strictly before the next ones. */
  predicate StrictlyAscending(s: seq<string>) {
    forall i, j :: 0 <= i < j < |s| ==> Below(s[i], s[j]) && s[i] != s[j]
  }

  /** An ascending arrangement of a set's elements, each present once, is strictly ascending. */
  lemma {:induction false} AscendingSetIsStrict(s: seq<string>, keys: set<string>)
    requires Ascending(s) && multiset(s) == multiset(keys)
    ensures StrictlyAscending(s)
  {
    forall i, j | 0 <= i < j < |s| ensures s[i] != s[j] {
      RepeatCounted(s, i, j);
    }
  }

  lemma {:induction false} RepeatCounted(s: seq<string>, i: nat, j: nat)
    requires i < j < |s|
    ensures s[i] == s[j] ==> multiset(s)[s[i]] >= 2
  {
    assert s == s[..i] + [s[i]] + s[i + 1..j] + [s[j]] + s[j + 1..];
  }

  /** `s[..i + 1]` is ascending once the element at `j` is set aside, and that element sorts before all after it. */
  predicate AscendingAround(s: seq<string>, j: nat, i: nat)
    requires j <= i < |s|
  {
    && (forall p, q :: 0 <= p < q <= i && p != j && q != j ==> Below(s[p], s[q]))
    && (forall q :: j < q <= i ==> Below(s[j], s[q]))
  }

  /** Swapping the set-aside element with a larger left neighbour moves it one place left. */
  lemma {:induction false} SwapLeft(s: seq<string>, j: nat, i: nat)
    requires 0 < j <= i < |s| && AscendingAround(s, j, i) && !Below(s[j - 1], s[j])
    ensures AscendingAround(s[j - 1 := s[j]][j := s[j - 1]], j - 1, i)
  {
    BelowTotal(s[j - 1], s[j]);
  }

  /** Once the set-aside element sorts after its left neighbour (or has none), the prefix is ascending. */
  lemma {:induction false} InsertedAscending(s: seq<string>, j: nat, i: nat)
    requires j <= i < |s| && AscendingAround(s, j, i) && (j == 0 || Below(s[j - 1], s[j]))
    ensures Ascending(s[..i + 1])
  {
    forall p, q | 0 <= p < q <= i ensures Below(s[p], s[q]) {
      if q == j && p < j - 1 {
        BelowTransitive(s[p], s[j - 1], s[j]);
      }
    }
  }

  /** Moves `a[i]` left past the larger elements before it; `a[..i]` is already ascending. */
  method InsertAt(a: array<string>, i: nat)
    requires i < a.Length && Ascending(a[..i])
    modifies a
    ensures Ascending(a[..i + 1])
    ensures multiset(a[..]) == multiset(old(a[..]))
  {
    var j := i;
    while j > 0 && !Below(a[j - 1], a[j])
      invariant 0 <= j <= i
      invariant multiset(a[..]) == multiset(old(a[..]))
      invariant AscendingAround(a[..], j, i)
    {
      SwapLeft(a[..], j, i);
      Swap(a, j);
      j := j - 1;
    }
    InsertedAscending(a[..], j, i);
  }

  /** Exchanges `a[j - 1]` and `a[j]`. */
  method Swap(a: array<string>, j: nat)
    requires 0 < j < a.Length
    modifies a
    ensures a[..] == old(a[..])[j - 1 := old(a[j])][j := old(a[j - 1])]
    ensures multiset(a[..]) == multiset(old(a[..]))
  {
    a[j - 1], a[j] := a[j], a[j - 1];
  }

  /** `Array.Sort` on strings, as an insertion sort under the character order. */
  method SortOrdinal(a: array<string>)
    modifies a
    ensures Ascending(a[..])
    ensures multiset(a[..]) == multiset(old(a[..]))
  {
    var i := 0;
    while i < a.Length
      invariant 0 <= i <= a.Length
      invariant Ascending(a[..i])
      invariant multiset(a[..]) == multiset(old(a[..]))
    {
      InsertAt(a, i);
      i := i + 1;
    }
    assert a[..i] == a[..];
  }
}
