/** Python's `str.split` and `str.join` for a one-character separator. */
module TextSplit {

  function IndexOf(s: string, c: char): (i: nat)
    ensures i <= |s|
    ensures i < |s| ==> s[i] == c
    ensures forall j :: 0 <= j < i ==> s[j] != c
  {
    if s == [] || s[0] == c then 0 else 1 + IndexOf(s[1..], c)
  }

  function Split(s: string, c: char): (parts: seq<string>)
    ensures |parts| >= 1
    decreases |s|
  {
    var i := IndexOf(s, c);
    if i == |s| then [s] else [s[..i]] + Split(s[i + 1..], c)
  }

  /** At most `cuts` splits; the last part keeps any further separators. */
  function SplitMax(s: string, c: char, cuts: nat): (parts: seq<string>)
    ensures 1 <= |parts| <= cuts + 1
    decreases cuts
  {
    var i := IndexOf(s, c);
    if cuts == 0 || i == |s| then [s] else [s[..i]] + SplitMax(s[i + 1..], c, cuts - 1)
  }

  function Join(parts: seq<string>, c: char): string {
    if parts == [] then "" else if |parts| == 1 then parts[0] else parts[0] + [c] + Join(parts[1..], c)
  }

  lemma IndexAfterClean(a: string, b: string, c: char)
    requires c !in a
    ensures IndexOf(a + [c] + b, c) == |a|
  {
    var s := a + [c] + b;
    assert forall j :: 0 <= j < |a| ==> s[j] == a[j];
    assert s[|a|] == c;
  }

  lemma IndexOfClean(a: string, c: char)
    requires c !in a
    ensures IndexOf(a, c) == |a|
  {
  }

  lemma SplitHead(a: string, b: string, c: char)
    requires c !in a
    ensures Split(a + [c] + b, c) == [a] + Split(b, c)
  {
    var s := a + [c] + b;
    IndexAfterClean(a, b, c);
    assert s[..|a|] == a && s[|a| + 1..] == b;
  }

  /** Splitting undoes joining when no part contains the separator. */
  lemma {:induction false} SplitJoin(parts: seq<string>, c: char)
    requires parts != [] && forall p :: p in parts ==> c !in p
    ensures Split(Join(parts, c), c) == parts
  {
    if |parts| == 1 {
      IndexOfClean(parts[0], c);
    } else {
      SplitJoin(parts[1..], c);
      SplitHead(parts[0], Join(parts[1..], c), c);
    }
  }

  /** `heads` and then `tail`, separated by `c`. */
  function Headed(heads: seq<string>, tail: string, c: char): string {
    if heads == [] then tail else heads[0] + [c] + Headed(heads[1..], tail, c)
  }

  /** Bounded splitting takes clean heads off one by one and leaves the tail whole. */
  lemma {:induction false} SplitMaxHeaded(heads: seq<string>, tail: string, c: char)
    requires forall h :: h in heads ==> c !in h
    ensures SplitMax(Headed(heads, tail, c), c, |heads|) == heads + [tail]
  {
    if heads != [] {
      var a, rest := heads[0], Headed(heads[1..], tail, c);
      var s := a + [c] + rest;
      IndexAfterClean(a, rest, c);
      SplitMaxHeaded(heads[1..], tail, c);
      assert s[..|a|] == a && s[|a| + 1..] == rest;
    }
  }

  /** `some` are the first of `all`, the last of them possibly cut short. */
  ghost predicate IsCut(some: seq<string>, all: seq<string>) {
    && 1 <= |some| <= |all|
    && some[..|some| - 1] == all[..|some| - 1]
    && some[|some| - 1] <= all[|some| - 1]
  }

  lemma IndexOfPrefix(s: string, c: char, k: nat)
    requires k <= |s|
    ensures IndexOf(s[..k], c) == if IndexOf(s, c) < k then IndexOf(s, c) else k
  {
    var i, j := IndexOf(s, c), IndexOf(s[..k], c);
    if j < k { assert s[..k][j] == s[j]; }
    if i < k { assert s[..k][i] == s[i]; }
  }

  /** Cut before or at the first separator, a text is a beginning of the first part. */
  lemma CutInFirstPart(s: string, c: char, k: nat)
    requires k <= |s| && k <= IndexOf(s, c)
    ensures IsCut(Split(s[..k], c), Split(s, c))
  {
    IndexOfPrefix(s, c, k);
    assert Split(s[..k], c) == [s[..k]];
  }

  lemma SplitAt(s: string, c: char, i: nat)
    requires IndexOf(s, c) == i < |s|
    ensures Split(s, c) == [s[..i]] + Split(s[i + 1..], c)
  {
  }

  lemma CutBehindFirstPart(s: string, c: char, k: nat, i: nat)
    requires IndexOf(s, c) == i < k <= |s|
    ensures Split(s, c) == [s[..i]] + Split(s[i + 1..], c)
    ensures Split(s[..k], c) == [s[..i]] + Split(s[i + 1..][..k - i - 1], c)
  {
    IndexOfPrefix(s, c, k);
    SplitAt(s, c, i);
    SplitAt(s[..k], c, i);
    assert s[..k][i + 1..] == s[i + 1..][..k - i - 1];
    assert s[..k][..i] == s[..i];
  }

  /** Splitting a text that was cut off somewhere cuts the parts off there. */
  lemma {:induction false} SplitOfPrefix(s: string, c: char, k: nat)
    requires k <= |s|
    ensures IsCut(Split(s[..k], c), Split(s, c))
    decreases |s|
  {
    var i := IndexOf(s, c);
    if k <= i {
      CutInFirstPart(s, c, k);
    } else {
      CutBehindFirstPart(s, c, k, i);
      SplitOfPrefix(s[i + 1..], c, k - i - 1);
      OneMorePart(s[..i], Split(s[i + 1..][..k - i - 1], c), Split(s[i + 1..], c));
    }
  }

  lemma OneMorePart(head: string, some: seq<string>, all: seq<string>)
    requires IsCut(some, all)
    ensures IsCut([head] + some, [head] + all)
  {
    var n := |some|;
    assert ([head] + some)[..n] == [head] + some[..n - 1];
    assert ([head] + all)[..n] == [head] + all[..n - 1];
  }
}
