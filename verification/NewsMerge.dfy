/** src/infrastructure/news_provider.py: several inner providers merged into one list. */
module NewsMerge {
  import opened NewsCache

  /** `strip().lower()`, whatever that does to a given text. */
  type Key = string -> string

  /** Everything the providers that answered had to say, in their construction order. */
  function Offered(answers: seq<Answer>): seq<string> {
    if answers == [] then []
    else
      var last := answers[|answers| - 1];
      Offered(answers[..|answers| - 1]) + last.Items()
  }

  /** The keys seen among `headlines`; a blank headline has none. */
  function KeysOf(key: Key, headlines: seq<string>): set<string> {
    set h | h in headlines && key(h) != "" :: key(h)
  }

  /** The headlines that are the first of their key. */
  function Distinct(key: Key, headlines: seq<string>): seq<string> {
    if headlines == [] then []
    else
      var earlier, last := headlines[..|headlines| - 1], headlines[|headlines| - 1];
      Distinct(key, earlier) + if key(last) != "" && key(last) !in KeysOf(key, earlier) then [last] else []
  }

  function Take(headlines: seq<string>, most: nat): seq<string> {
    if |headlines| <= most then headlines else headlines[..most]
  }

  predicate IsFull(key: Key, answers: seq<Answer>, most: nat) {
    |Distinct(key, Offered(answers))| >= most
  }

  function Failures(answers: seq<Answer>): nat {
    if answers == [] then 0
    else Failures(answers[..|answers| - 1]) + if answers[|answers| - 1].Raised? then 1 else 0
  }

  /** The failures the loop gets to see: those of providers before the list is full. */
  function CountedFailures(key: Key, answers: seq<Answer>, most: nat): nat {
    if answers == [] then 0
    else
      var earlier, last := answers[..|answers| - 1], answers[|answers| - 1];
      CountedFailures(key, earlier, most) + if last.Raised? && !IsFull(key, earlier, most) then 1 else 0
  }

  class CompositeNewsProvider {
    const maxTotal: nat
    const key: Key
    var failureCount: nat

    constructor (maxTotal: nat, key: Key)
      requires maxTotal > 0
      ensures this.maxTotal == maxTotal && this.key == key && failureCount == 0
    {
      this.maxTotal, this.key, failureCount := maxTotal, key, 0;
    }

    /** From the gathered answers on. */
    method Merge(answers: seq<Answer>) returns (merged: seq<string>)
      requires maxTotal > 0
      modifies this
      ensures merged == Take(Distinct(key, Offered(answers)), maxTotal)
      ensures failureCount == old(failureCount) + CountedFailures(key, answers, maxTotal)
    {
      merged := [];
      var seen: set<string> := {};
      for idx := 0 to |answers|
        invariant Tallied(key, Offered(answers[..idx]), merged, seen) && |merged| < maxTotal
        invariant failureCount == old(failureCount) + CountedFailures(key, answers[..idx], maxTotal)
      {
        ghost var read := Offered(answers[..idx]);
        if answers[idx].Raised? {
          failureCount := failureCount + 1;
          RaisedAnswer(key, answers, idx, maxTotal);
        } else {
          merged, seen := Add(answers[idx].items, merged, seen, read);
          GoodAnswer(key, answers, idx, maxTotal);
          if |merged| >= maxTotal {
            FullIsFinal(key, answers, idx + 1, maxTotal);
            return;
          }
        }
      }
      assert answers[..|answers|] == answers;
    }

    /** One provider's headlines, as far as there is room. */
    method Add(headlines: seq<string>, merged0: seq<string>, seen0: set<string>, ghost read: seq<string>)
      returns (merged: seq<string>, seen: set<string>)
      requires Tallied(key, read, merged0, seen0) && |merged0| < maxTotal
      ensures merged == Take(Distinct(key, read + headlines), maxTotal)
      ensures |merged| < maxTotal ==> Tallied(key, read + headlines, merged, seen)
    {
      merged, seen := merged0, seen0;
      assert read + headlines[..0] == read;
      for j := 0 to |headlines|
        invariant Tallied(key, read + headlines[..j], merged, seen) && |merged| < maxTotal
      {
        NextHeadline(key, read, headlines, j, merged, seen);
        var k := key(headlines[j]);
        if k == "" || k in seen { continue; }
        seen := seen + {k};
        merged := merged + [headlines[j]];
        if |merged| >= maxTotal {
          FullAlready(key, read, headlines, j + 1, merged, maxTotal);
          return;
        }
      }
      assert headlines[..|headlines|] == headlines;
    }
  }

  /** What the loop has collected is right for what it has read. */
  ghost predicate Tallied(key: Key, read: seq<string>, merged: seq<string>, seen: set<string>) {
    merged == Distinct(key, read) && seen == KeysOf(key, read)
  }

  lemma OneMoreHeadline(key: Key, read: seq<string>, merged: seq<string>, seen: set<string>, headline: string)
    requires Tallied(key, read, merged, seen)
    ensures var k := key(headline);
            if k == "" || k in seen then Tallied(key, read + [headline], merged, seen)
            else Tallied(key, read + [headline], merged + [headline], seen + {k})
  {
    DistinctSnoc(key, read, headline);
  }

  lemma NextHeadline(
    key: Key, read: seq<string>, headlines: seq<string>, j: nat, merged: seq<string>, seen: set<string>)
    requires j < |headlines| && Tallied(key, read + headlines[..j], merged, seen)
    ensures var k := key(headlines[j]);
            if k == "" || k in seen then Tallied(key, read + headlines[..j + 1], merged, seen)
            else Tallied(key, read + headlines[..j + 1], merged + [headlines[j]], seen + {k})
  {
    OneMoreHeadline(key, read + headlines[..j], merged, seen, headlines[j]);
    assert read + headlines[..j + 1] == read + headlines[..j] + [headlines[j]];
  }

  lemma FullAlready(
    key: Key, read: seq<string>, headlines: seq<string>, j: nat, merged: seq<string>, most: nat)
    requires j <= |headlines| && merged == Distinct(key, read + headlines[..j]) && |merged| == most
    ensures Take(Distinct(key, read + headlines), most) == merged
  {
    DistinctGrows(key, read + headlines[..j], read + headlines);
  }

  lemma RaisedAnswer(key: Key, answers: seq<Answer>, idx: nat, most: nat)
    requires idx < |answers| && answers[idx].Raised? && !IsFull(key, answers[..idx], most)
    ensures Offered(answers[..idx + 1]) == Offered(answers[..idx])
    ensures CountedFailures(key, answers[..idx + 1], most) == CountedFailures(key, answers[..idx], most) + 1
  {
    assert answers[..idx + 1][..idx] == answers[..idx];
  }

  lemma GoodAnswer(key: Key, answers: seq<Answer>, idx: nat, most: nat)
    requires idx < |answers| && answers[idx].Headlines?
    ensures Offered(answers[..idx + 1]) == Offered(answers[..idx]) + answers[idx].items
    ensures CountedFailures(key, answers[..idx + 1], most) == CountedFailures(key, answers[..idx], most)
  {
    assert answers[..idx + 1][..idx] == answers[..idx];
  }

  lemma DistinctSnoc(key: Key, headlines: seq<string>, last: string)
    ensures var isNew := key(last) != "" && key(last) !in KeysOf(key, headlines);
            && Distinct(key, headlines + [last]) == Distinct(key, headlines) + (if isNew then [last] else [])
            && KeysOf(key, headlines + [last]) == KeysOf(key, headlines) + (if key(last) != "" then {key(last)} else {})
  {
    assert (headlines + [last])[..|headlines|] == headlines;
  }

  lemma {:induction false} DistinctGrows(key: Key, few: seq<string>, many: seq<string>)
    requires few <= many
    ensures Distinct(key, few) <= Distinct(key, many)
  {
    if |few| < |many| {
      DistinctGrows(key, few, many[..|many| - 1]);
    } else {
      assert few == many;
    }
  }

  lemma {:induction false} OfferedGrows(answers: seq<Answer>, k: nat)
    requires k <= |answers|
    ensures Offered(answers[..k]) <= Offered(answers)
  {
    if k < |answers| {
      var earlier := answers[..|answers| - 1];
      OfferedGrows(earlier, k);
      assert earlier[..k] == answers[..k];
    } else {
      assert answers[..k] == answers;
    }
  }

  lemma {:induction false} NoneCountedWhenFull(key: Key, answers: seq<Answer>, k: nat, most: nat)
    requires k <= |answers| && IsFull(key, answers[..k], most)
    ensures CountedFailures(key, answers, most) == CountedFailures(key, answers[..k], most)
  {
    if k < |answers| {
      var earlier := answers[..|answers| - 1];
      assert earlier[..k] == answers[..k];
      NoneCountedWhenFull(key, earlier, k, most);
      OfferedGrows(earlier, k);
      DistinctGrows(key, Offered(earlier[..k]), Offered(earlier));
    } else {
      assert answers[..k] == answers;
    }
  }

  /** Once `most` headlines are collected neither list nor count can change any more. */
  lemma FullIsFinal(key: Key, answers: seq<Answer>, k: nat, most: nat)
    requires k <= |answers| && IsFull(key, answers[..k], most)
    ensures Take(Distinct(key, Offered(answers)), most) == Take(Distinct(key, Offered(answers[..k])), most)
    ensures CountedFailures(key, answers, most) == CountedFailures(key, answers[..k], most)
  {
    OfferedGrows(answers, k);
    DistinctGrows(key, Offered(answers[..k]), Offered(answers));
    NoneCountedWhenFull(key, answers, k, most);
  }

  // ----- what the merge promises -----

  /** Every key offered is delivered, once, and nothing blank is. */
  lemma {:induction false} OneHeadlinePerKey(key: Key, headlines: seq<string>)
    ensures var d := Distinct(key, headlines);
            && KeysOf(key, d) == KeysOf(key, headlines)
            && (forall h :: h in d ==> h in headlines && key(h) != "")
            && (forall i, j :: 0 <= i < j < |d| ==> key(d[i]) != key(d[j]))
  {
    if headlines != [] {
      var earlier, last := headlines[..|headlines| - 1], headlines[|headlines| - 1];
      OneHeadlinePerKey(key, earlier);
      assert headlines == earlier + [last];
      DistinctSnoc(key, earlier, last);
      DistinctSnoc(key, Distinct(key, earlier), last);
      KeysAreKept(key, Distinct(key, earlier));
    }
  }

  lemma KeysAreKept(key: Key, headlines: seq<string>)
    ensures forall i :: 0 <= i < |headlines| && key(headlines[i]) != "" ==> key(headlines[i]) in KeysOf(key, headlines)
  {
  }

  lemma {:induction false} DistinctCounts(key: Key, headlines: seq<string>)
    ensures |Distinct(key, headlines)| == |KeysOf(key, headlines)|
  {
    if headlines == [] {
      assert KeysOf(key, headlines) == {};
    } else {
      var earlier, last := headlines[..|headlines| - 1], headlines[|headlines| - 1];
      DistinctCounts(key, earlier);
      assert headlines == earlier + [last];
      DistinctSnoc(key, earlier, last);
      OneMoreKey(KeysOf(key, earlier), key(last));
    }
  }

  lemma OneMoreKey(keys: set<string>, k: string)
    ensures |keys + {k}| == if k in keys then |keys| else |keys| + 1
  {
    if k in keys { assert keys + {k} == keys; }
  }

  /** As many headlines are delivered as there are different keys, up to the maximum. */
  lemma AsManyAsFit(key: Key, answers: seq<Answer>, most: nat)
    ensures var merged := Take(Distinct(key, Offered(answers)), most);
            && |merged| == (if |KeysOf(key, Offered(answers))| < most then |KeysOf(key, Offered(answers))| else most)
            && merged <= Distinct(key, Offered(answers))
  {
    DistinctCounts(key, Offered(answers));
  }

  /** A provider further down only ever adds headlines after those of the providers before. */
  lemma EarlierProvidersWin(key: Key, answers: seq<Answer>, k: nat, most: nat)
    requires k <= |answers|
    ensures Take(Distinct(key, Offered(answers[..k])), most) <= Take(Distinct(key, Offered(answers)), most)
  {
    var few, many := Offered(answers[..k]), Offered(answers);
    assert few <= many by { OfferedGrows(answers, k); }
    assert Distinct(key, few) <= Distinct(key, many) by { DistinctGrows(key, few, many); }
    TakeGrows(Distinct(key, few), Distinct(key, many), most);
  }

  lemma TakeGrows(few: seq<string>, many: seq<string>, most: nat)
    requires few <= many
    ensures Take(few, most) <= Take(many, most)
  {
  }

  lemma KeysConcat(key: Key, a: seq<string>, b: seq<string>)
    ensures KeysOf(key, a + b) == KeysOf(key, a) + KeysOf(key, b)
  {
  }

  /** More headlines leave the merged list as it is exactly if each is blank or repeats a key. */
  lemma {:induction false} OnlyRepeatsAddNothing(key: Key, headlines: seq<string>, more: seq<string>)
    ensures Distinct(key, headlines + more) == Distinct(key, headlines)
            <==> KeysOf(key, more) <= KeysOf(key, headlines)
  {
    if more == [] {
      assert headlines + more == headlines;
    } else {
      var fewer, last := more[..|more| - 1], more[|more| - 1];
      OnlyRepeatsAddNothing(key, headlines, fewer);
      OneMoreAdds(key, headlines, fewer, last);
      assert headlines + more == headlines + fewer + [last] && more == fewer + [last];
    }
  }

  lemma OneMoreAdds(key: Key, headlines: seq<string>, fewer: seq<string>, last: string)
    requires Distinct(key, headlines + fewer) == Distinct(key, headlines)
             <==> KeysOf(key, fewer) <= KeysOf(key, headlines)
    ensures Distinct(key, headlines + fewer + [last]) == Distinct(key, headlines)
            <==> KeysOf(key, fewer + [last]) <= KeysOf(key, headlines)
  {
    assert Distinct(key, headlines) <= Distinct(key, headlines + fewer) by {
      DistinctGrows(key, headlines, headlines + fewer);
    }
    KeysConcat(key, headlines, fewer);
    DistinctSnoc(key, headlines + fewer, last);
    DistinctSnoc(key, fewer, last);
  }

  /** A provider that failed although the list was already full. */
  ghost predicate FailsUnseen(key: Key, answers: seq<Answer>, most: nat, i: nat)
    requires i < |answers|
  {
    answers[i].Raised? && IsFull(key, answers[..i], most)
  }

  lemma {:induction false} CountedAtMostFailures(key: Key, answers: seq<Answer>, most: nat)
    ensures CountedFailures(key, answers, most) <= Failures(answers)
  {
    if answers != [] { CountedAtMostFailures(key, answers[..|answers| - 1], most); }
  }

  /** The failure counter misses nothing exactly if no provider fails behind a full list:
      the loop returns from the middle, and later failures are never looked at. */
  lemma {:induction false} FailuresAreCountedIff(key: Key, answers: seq<Answer>, most: nat)
    ensures CountedFailures(key, answers, most) == Failures(answers)
            <==> forall i: nat :: i < |answers| ==> !FailsUnseen(key, answers, most, i)
  {
    if answers != [] {
      var earlier := answers[..|answers| - 1];
      FailuresAreCountedIff(key, earlier, most);
      CountedAtMostFailures(key, earlier, most);
      NoneUnseenSnoc(key, answers, most);
    }
  }

  lemma NoneUnseenSnoc(key: Key, answers: seq<Answer>, most: nat)
    requires answers != []
    ensures var n := |answers| - 1;
            (forall i: nat :: i < |answers| ==> !FailsUnseen(key, answers, most, i))
            <==> (forall i: nat :: i < n ==> !FailsUnseen(key, answers[..n], most, i))
                 && !(answers[n].Raised? && IsFull(key, answers[..n], most))
  {
    var n := |answers| - 1;
    forall i: nat | i < n
      ensures FailsUnseen(key, answers[..n], most, i) <==> FailsUnseen(key, answers, most, i)
    {
      assert answers[..n][..i] == answers[..i];
    }
    assert FailsUnseen(key, answers, most, n) <==> answers[n].Raised? && IsFull(key, answers[..n], most);
  }

  /** Which happens: the first provider fills the list and the second one's failure goes unseen. */
  lemma UnseenFailure(key: Key, headline: string)
    requires key(headline) != ""
    ensures var answers := [Headlines([headline]), Raised];
            Failures(answers) == 1 && CountedFailures(key, answers, 1) == 0
  {
    var answers := [Headlines([headline]), Raised];
    var first := answers[..1];
    assert first == [Headlines([headline])] && first[..0] == [];
    assert Offered(first) == [] + [headline] == [headline];
    DistinctSnoc(key, [], headline);
    assert [] + [headline] == [headline];
    assert Failures(first) == 0 && CountedFailures(key, first, 1) == 0;
  }
}
