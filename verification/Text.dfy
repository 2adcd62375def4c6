/**
 Byte strings and their order.

 Go's `<` on strings, Lua's `<=` on strings and the listing order of S3 are all the
 lexicographic order of bytes; one definition serves the sort, the cursor, the
 adapter's order filter and the same-length comparison of decimal strings.
 */
module Text {
  /** One byte of a Go string. */
  type byte = c: char | c as int < 256 witness 'a'

  /** A bucket name, an object name: any Go string. */
  type Name = seq<byte>

  predicate Less(a: string, b: string) {
    if b == "" then false
    else if a == "" then true
    else a[0] < b[0] || (a[0] == b[0] && Less(a[1..], b[1..]))
  }

  predicate LessEq(a: string, b: string) {
    a == b || Less(a, b)
  }

  lemma {:induction false} LessIrreflexive(a: string)
    ensures !Less(a, a)
  {
    if a != "" {
      LessIrreflexive(a[1..]);
    }
  }

  lemma {:induction false} LessTransitive(a: string, b: string, c: string)
    requires Less(a, b) && Less(b, c)
    ensures Less(a, c)
  {
    if a != "" && b != "" && a[0] == b[0] == c[0] {
      LessTransitive(a[1..], b[1..], c[1..]);
    }
  }

  /** Any two strings compare one way or are equal. */
  lemma {:induction false} LessTotal(a: string, b: string)
    ensures Less(a, b) || a == b || Less(b, a)
  {
    if a != "" && b != "" && a[0] == b[0] {
      LessTotal(a[1..], b[1..]);
      assert a == [a[0]] + a[1..] && b == [b[0]] + b[1..];
    }
  }

  lemma LessAsymmetric(a: string, b: string)
    requires Less(a, b)
    ensures !Less(b, a) && a != b
  {
    LessIrreflexive(a);
    if Less(b, a) {
      LessTransitive(a, b, a);
    }
  }

  ghost predicate Sorted(s: seq<string>) {
    forall i, j :: 0 <= i < j < |s| ==> LessEq(s[i], s[j])
  }

  ghost predicate StrictlySorted(s: seq<string>) {
    forall i, j :: 0 <= i < j < |s| ==> Less(s[i], s[j])
  }

  ghost predicate Distinct<T>(s: seq<T>) {
    forall i, j :: 0 <= i < j < |s| ==> s[i] != s[j]
  }

  lemma SortedDistinctIsStrict(s: seq<string>)
    ensures Sorted(s) && Distinct(s) <==> StrictlySorted(s)
  {
    forall i, j | 0 <= i < j < |s| && Less(s[i], s[j])
      ensures s[i] != s[j]
    {
      LessIrreflexive(s[i]);
    }
  }

  /** Insertion of one more element keeps a sorted prefix: the invariant of the inner loop. */
  ghost predicate SortedExceptAt(s: seq<string>, n: nat, at: nat)
  {
    && at < n <= |s|
    && (forall i, j :: 0 <= i < j < n && i != at && j != at ==> LessEq(s[i], s[j]))
    && (forall j :: at < j < n ==> Less(s[at], s[j]))
  }

  method Swap(values: array<string>, i: nat, j: nat)
    requires i < values.Length && j < values.Length
    modifies values
    ensures values[..] == old(values[..])[i := old(values[j])][j := old(values[i])]
    ensures multiset(values[..]) == multiset(old(values[..]))
  {
    values[i], values[j] := values[j], values[i];
  }

  lemma SwapDown(s: seq<string>, n: nat, at: nat)
    requires SortedExceptAt(s, n, at) && at > 0 && Less(s[at], s[at - 1])
    ensures SortedExceptAt(s[at := s[at - 1]][at - 1 := s[at]], n, at - 1)
  {
    var t := s[at := s[at - 1]][at - 1 := s[at]];
    forall i, j | 0 <= i < j < n && i != at - 1 && j != at - 1
      ensures LessEq(t[i], t[j])
    {
      if i == at {
        assert t[i] == s[at - 1] && t[j] == s[j];
      }
    }
    forall j | at - 1 < j < n
      ensures Less(t[at - 1], t[j])
    {}
  }

  lemma Settled(s: seq<string>, n: nat, at: nat)
    requires SortedExceptAt(s, n, at) && (at == 0 || !Less(s[at], s[at - 1]))
    ensures Sorted(s[..n])
  {
    forall i, j | 0 <= i < j < n
      ensures LessEq(s[i], s[j])
    {
      if j == at {
        LessTotal(s[at], s[at - 1]);
        if i < at - 1 && s[i] != s[at - 1] && s[at - 1] != s[at] {
          LessTransitive(s[i], s[at - 1], s[at]);
        }
      }
    }
  }

  lemma SortedPrefixExtends(s: seq<string>, i: nat)
    requires i < |s| && Sorted(s[..i])
    ensures SortedExceptAt(s, i + 1, i)
  {
    forall k, l | 0 <= k < l < i + 1 && k != i && l != i
      ensures LessEq(s[k], s[l])
    {
      assert s[..i][k] == s[k] && s[..i][l] == s[l];
    }
  }

  /** The inner loop: move the element at i down to its place. */
  method Insert(values: array<string>, i: nat)
    requires i < values.Length && Sorted(values[..][..i])
    modifies values
    ensures Sorted(values[..][..i + 1])
    ensures multiset(values[..]) == multiset(old(values[..]))
  {
    var j := i;
    SortedPrefixExtends(values[..], i);
    while j > 0 && Less(values[j], values[j - 1])
      invariant 0 <= j <= i < values.Length
      invariant SortedExceptAt(values[..], i + 1, j)
      invariant multiset(values[..]) == multiset(old(values[..]))
    {
      SwapDown(values[..], i + 1, j);
      Swap(values, j, j - 1);
      j := j - 1;
    }
    Settled(values[..], i + 1, j);
  }

  /** The in-place insertion sort of bucket names and scope lists. */
  method SlicesSort(values: array<string>)
    modifies values
    ensures Sorted(values[..])
    ensures multiset(values[..]) == multiset(old(values[..]))
  {
    var i := 1;
    while i < values.Length
      invariant 1 <= i
      invariant Sorted(values[..][..if i <= values.Length then i else values.Length])
      invariant multiset(values[..]) == multiset(old(values[..]))
    {
      Insert(values, i);
      i := i + 1;
    }
    assert values[..][..values.Length] == values[..];
  }

  lemma SameHead(a: seq<string>, b: seq<string>)
    requires Sorted(a) && Sorted(b) && multiset(a) == multiset(b) && a != [] && b != []
    ensures a[0] == b[0]
  {
    assert a[0] in multiset(a) && b[0] in multiset(b);
    assert a[0] in b && b[0] in a;
    if a[0] != b[0] {
      assert Less(b[0], a[0]) && Less(a[0], b[0]);
      LessAsymmetric(b[0], a[0]);
    }
  }

  lemma TailMultiset(a: seq<string>)
    requires a != []
    ensures multiset(a[1..]) == multiset(a) - multiset{a[0]}
  {
    assert a == [a[0]] + a[1..];
  }

  /** A sorted permutation is unique, so the in-place sort is a function of the names alone. */
  lemma {:induction false} SortedPermutationUnique(a: seq<string>, b: seq<string>)
    requires Sorted(a) && Sorted(b) && multiset(a) == multiset(b)
    ensures a == b
  {
    assert |a| == |multiset(a)| == |multiset(b)| == |b|;
    if a != [] {
      SameHead(a, b);
      TailMultiset(a);
      TailMultiset(b);
      SortedPermutationUnique(a[1..], b[1..]);
      assert a == [a[0]] + a[1..] && b == [b[0]] + b[1..];
    }
  }
}
