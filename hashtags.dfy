/**
 * Hashtags: the matches of `/#\w+/g` in post texts, lower-cased and tallied
 * in first-seen order. The search page keeps the tags that contain the
 * lower-cased query; the trending panel ranks all of them by count and keeps
 * the top five.
 */
module Hashtags {
  import opened Wrappers
  import opened Text
  import opened Buckets
  import opened StableSort

  /** A match of `#\w+`: a hash followed by at least one word character and nothing else. */
  predicate IsTag(t: string) {
    |t| >= 2 && t[0] == '#' && forall i :: 1 <= i < |t| ==> IsWordChar(t[i])
  }

  /** The longest run of word characters at the start of `s`. */
  function WordRun(s: string): (w: string)
    ensures |w| <= |s| && w == s[..|w|]
    ensures forall i :: 0 <= i < |w| ==> IsWordChar(w[i])
    ensures |w| < |s| ==> !IsWordChar(s[|w|])
  {
    if s == [] || !IsWordChar(s[0]) then [] else [s[0]] + WordRun(s[1..])
  }

  /**
   * `s.match(/#\w+/g) || []`: scanning left to right, a `#` followed by a
   * word character starts a match that takes every following word
   * character; the scan resumes after it.
   */
  function Matches(s: string): (r: seq<string>)
    ensures forall t :: t in r ==> IsTag(t)
    decreases |s|
  {
    if |s| < 2 then []
    else if s[0] == '#' && IsWordChar(s[1]) then
      var w := WordRun(s[1..]);
      [['#'] + w] + Matches(s[1 + |w|..])
    else Matches(s[1..])
  }

  /** Every match is a piece of the text, and is not followed by another word character. */
  lemma {:induction false} MatchesOccur(s: string, t: string)
    requires t in Matches(s)
    ensures exists i :: (0 <= i <= |s| - |t| && OccursAt(s, t, i) &&
      (i + |t| < |s| ==> !IsWordChar(s[i + |t|])))
    decreases |s|
  {
    if s[0] == '#' && IsWordChar(s[1]) {
      var w := WordRun(s[1..]);
      if t == ['#'] + w {
        assert s[0..|t|] == t;
        assert |t| < |s| ==> s[|t|] == s[1..][|w|];
        assert OccursAt(s, t, 0);
      } else {
        var rest := s[1 + |w|..];
        MatchesOccur(rest, t);
        var i :| 0 <= i <= |rest| - |t| && OccursAt(rest, t, i) && (i + |t| < |rest| ==> !IsWordChar(rest[i + |t|]));
        OccursShift(s, 1 + |w|, t, i);
      }
    } else {
      var rest := s[1..];
      MatchesOccur(rest, t);
      var i :| 0 <= i <= |rest| - |t| && OccursAt(rest, t, i) && (i + |t| < |rest| ==> !IsWordChar(rest[i + |t|]));
      OccursShift(s, 1, t, i);
    }
  }

  /** An occurrence in a suffix of `s` is an occurrence in `s`, with the same next character. */
  lemma OccursShift(s: string, k: nat, t: string, i: nat)
    requires k <= |s| && i <= |s| - k - |t|
    requires OccursAt(s[k..], t, i)
    ensures OccursAt(s, t, k + i)
    ensures k + i + |t| < |s| ==> s[k + i + |t|] == s[k..][i + |t|]
  {
    assert s[k..][i..i + |t|] == s[k + i..k + i + |t|];
  }

  /** A text without `#` has no hashtags. */
  lemma {:induction false} NoHashNoMatches(s: string)
    requires '#' !in s
    ensures Matches(s) == []
    decreases |s|
  {
    if |s| >= 2 {
      assert s[0] != '#';
      assert forall c :: c in s[1..] ==> c in s;
      NoHashNoMatches(s[1..]);
    }
  }

  /** `tag.toLowerCase()` on every match of one text. */
  function LowerAll(ts: seq<string>): (r: seq<string>)
    ensures |r| == |ts| && forall i :: 0 <= i < |ts| ==> r[i] == Lower(ts[i])
  {
    seq(|ts|, i requires 0 <= i < |ts| => Lower(ts[i]))
  }

  /** The lower-cased matches of all texts, text by text. */
  function AllTags(texts: seq<string>): seq<string> {
    if texts == [] then []
    else AllTags(texts[..|texts| - 1]) + LowerAll(Matches(texts[|texts| - 1]))
  }

  /** Every tag counted is a lower-case match. */
  lemma {:induction false} AllTagsAreLowerTags(texts: seq<string>, t: string)
    requires t in AllTags(texts)
    ensures IsTag(t) && Lower(t) == t
  {
    var init := texts[..|texts| - 1];
    var ms := Matches(texts[|texts| - 1]);
    if t in AllTags(init) {
      AllTagsAreLowerTags(init, t);
    } else {
      var i :| 0 <= i < |ms| && LowerAll(ms)[i] == t;
      assert ms[i] in ms;
      LowerIdempotent(ms[i]);
    }
  }

  /** The tags the search keeps: `cleanTag.includes(searchQuery.toLowerCase())`. */
  function SearchTags(texts: seq<string>, query: string): seq<string> {
    Hits(AllTags(texts), Lower(query))
  }

  /** The tags of `ts` that contain `needle`, in order. */
  function Hits(ts: seq<string>, needle: string): (r: seq<string>)
    ensures forall t :: t in r <==> t in ts && Contains(t, needle)
  {
    if ts == [] then []
    else
      var last := ts[|ts| - 1];
      Hits(ts[..|ts| - 1], needle) + if Contains(last, needle) then [last] else []
  }

  lemma {:induction false} HitsAppend(a: seq<string>, b: seq<string>, needle: string)
    ensures Hits(a + b, needle) == Hits(a, needle) + Hits(b, needle)
    decreases |b|
  {
    if b == [] {
      assert a + b == a;
    } else {
      var init, last := b[..|b| - 1], b[|b| - 1];
      var tail := if Contains(last, needle) then [last] else [];
      assert (a + b)[..|a + b| - 1] == a + init && (a + b)[|a + b| - 1] == last;
      assert Hits(a + b, needle) == Hits(a + init, needle) + tail;
      assert Hits(b, needle) == Hits(init, needle) + tail;
      HitsAppend(a, init, needle);
    }
  }

  /** One `{ tag, count }` entry. */
  datatype TagCount = TagCount(tag: string, count: nat)

  function Self(t: string): string { t }

  /** The tally of `ts`: each distinct tag once, in first-seen order, with the number of times it occurs. */
  function Tally(ts: seq<string>): (r: seq<TagCount>)
    ensures |r| == |Keys(ts, Self)|
    ensures forall i :: 0 <= i < |r| ==> r[i].tag == Keys(ts, Self)[i] && r[i].count == |Bucket(ts, Self, r[i].tag)|
  {
    var ks := Keys(ts, Self);
    seq(|ks|, i requires 0 <= i < |ks| => TagCount(ks[i], |Bucket(ts, Self, ks[i])|))
  }

  /** `acc.find(item => item.tag === t)`: the index of the first entry for `t`. */
  function FindTag(acc: seq<TagCount>, t: string): (r: Option<nat>)
    ensures r.Some? ==> r.value < |acc| && acc[r.value].tag == t
    ensures r.None? ==> forall i :: 0 <= i < |acc| ==> acc[i].tag != t
    ensures r.Some? ==> forall i :: 0 <= i < r.value ==> acc[i].tag != t
  {
    if acc == [] then None
    else if acc[0].tag == t then Some(0)
    else
      var r := FindTag(acc[1..], t);
      if r.Some? then Some(r.value + 1) else None
  }

  /** One step of the tally: bump the entry found for `t`, or append `{ tag: t, count: 1 }`. */
  function Bump(acc: seq<TagCount>, t: string): (r: seq<TagCount>)
    ensures FindTag(acc, t).Some? ==> r == acc[FindTag(acc, t).value := TagCount(t, acc[FindTag(acc, t).value].count + 1)]
    ensures FindTag(acc, t).None? ==> r == acc + [TagCount(t, 1)]
  {
    var found := FindTag(acc, t);
    if found.Some? then acc[found.value := TagCount(t, acc[found.value].count + 1)]
    else acc + [TagCount(t, 1)]
  }

  /** Bumping a tag already in the tally changes that one entry's count and nothing else. */
  lemma BumpFound(acc: seq<TagCount>, t: string)
    requires FindTag(acc, t).Some?
    ensures |Bump(acc, t)| == |acc|
    ensures forall i :: 0 <= i < |acc| && i != FindTag(acc, t).value ==> Bump(acc, t)[i] == acc[i]
    ensures Bump(acc, t)[FindTag(acc, t).value] == TagCount(t, acc[FindTag(acc, t).value].count + 1)
  {
  }

  /** The tally step is exactly what one more tag does to the tally. */
  lemma TallySnoc(ts: seq<string>, t: string)
    ensures Tally(ts + [t]) == Bump(Tally(ts), t)
  {
    KeysSnoc(ts, t, Self);
    KeysDistinct(ts, Self);
    if t in Keys(ts, Self) {
      TallySnocSeen(ts, t);
    } else {
      TallySnocNew(ts, t);
    }
  }

  lemma TallySnocSeen(ts: seq<string>, t: string)
    requires Keys(ts + [t], Self) == Keys(ts, Self) && Distinct(Keys(ts, Self))
    requires t in Keys(ts, Self)
    ensures Tally(ts + [t]) == Bump(Tally(ts), t)
  {
    var ks := Keys(ts, Self);
    var acc := Tally(ts);
    var r := Tally(ts + [t]);
    var j :| 0 <= j < |ks| && ks[j] == t;
    forall i | 0 <= i < |acc|
      ensures r[i] == TagCount(acc[i].tag, acc[i].count + if acc[i].tag == t then 1 else 0)
    {
      CountSnoc(ts, t, ks[i]);
    }
    BumpCounts(acc, r, t, j);
  }

  /** Bumping a tag that occurs once in the tally adds one to its count and leaves the other entries alone. */
  lemma BumpCounts(acc: seq<TagCount>, r: seq<TagCount>, t: string, j: nat)
    requires j < |acc| && acc[j].tag == t
    requires forall i, i' :: 0 <= i < i' < |acc| ==> acc[i].tag != acc[i'].tag
    requires |r| == |acc|
    requires forall i :: 0 <= i < |acc| ==> r[i] == TagCount(acc[i].tag, acc[i].count + if acc[i].tag == t then 1 else 0)
    ensures r == Bump(acc, t)
  {
    var k := FindTag(acc, t).value;
    BumpFound(acc, t);
    forall i | 0 <= i < |r|
      ensures r[i] == Bump(acc, t)[i]
    {
      if i < k {
        assert acc[i].tag != acc[k].tag;
      } else if k < i {
        assert acc[k].tag != acc[i].tag;
      }
    }
  }

  /** One more tag adds one to its own count and leaves every other count alone. */
  lemma CountSnoc(ts: seq<string>, t: string, key: string)
    ensures |Bucket(ts + [t], Self, key)| == |Bucket(ts, Self, key)| + if key == t then 1 else 0
  {
    BucketSnoc(ts, t, Self, key);
  }

  lemma TallySnocNew(ts: seq<string>, t: string)
    requires Keys(ts + [t], Self) == Keys(ts, Self) + [t]
    requires t !in Keys(ts, Self)
    ensures Tally(ts + [t]) == Bump(Tally(ts), t)
  {
    var ks := Keys(ts, Self);
    var acc := Tally(ts);
    assert FindTag(acc, t).None?;
    var r := Tally(ts + [t]);
    var b := Bump(acc, t);
    forall i | 0 <= i < |r|
      ensures r[i] == b[i]
    {
      BucketSnoc(ts, t, Self, (ks + [t])[i]);
      if i == |ks| {
        BucketEmpty(ts, Self, t);
      }
    }
  }

  /** One more match of the current text, as the inner `forEach` sees it. */
  lemma NextMatch(prefix: seq<string>, ms: seq<string>, j: nat)
    requires j < |ms|
    ensures prefix + LowerAll(ms[..j + 1]) == (prefix + LowerAll(ms[..j])) + [Lower(ms[j])]
  {
    assert LowerAll(ms[..j + 1]) == LowerAll(ms[..j]) + [Lower(ms[j])];
  }

  /** One more text, as the outer `forEach` sees it. */
  lemma NextText(texts: seq<string>, i: nat)
    requires i < |texts|
    ensures AllTags(texts[..i + 1]) == AllTags(texts[..i]) + LowerAll(Matches(texts[i]))
  {
    assert texts[..i + 1][..i] == texts[..i];
  }

  /** Every entry of the search tally is a distinct lower-case match containing the lower-cased query. */
  lemma SearchEntries(texts: seq<string>, query: string, i: nat)
    requires i < |Tally(SearchTags(texts, query))|
    ensures var e := Tally(SearchTags(texts, query))[i];
      IsTag(e.tag) && Lower(e.tag) == e.tag && Contains(e.tag, Lower(query)) && e.count >= 1
    ensures forall j :: 0 <= j < |Tally(SearchTags(texts, query))| && j != i ==>
      Tally(SearchTags(texts, query))[j].tag != Tally(SearchTags(texts, query))[i].tag
  {
    var ts := SearchTags(texts, query);
    var e := Tally(ts)[i];
    assert e.tag in Keys(ts, Self);
    var x :| x in ts && Self(x) == e.tag;
    AllTagsAreLowerTags(texts, x);
    assert x in Bucket(ts, Self, e.tag);
    KeysDistinct(ts, Self);
  }

  /** Each count is the number of occurrences of its tag, and the counts add up to the number of tags. */
  lemma TallyCounts(ts: seq<string>)
    ensures forall e :: e in Tally(ts) ==> e.count == |Bucket(ts, Self, e.tag)|
    ensures SumSizes(ts, Self, Keys(ts, Self)) == |ts|
  {
    BucketSizesSum(ts, Self);
  }

  /** One match in the search `reduce`: tallied when it contains the query, skipped otherwise. */
  lemma SearchStep(before: seq<string>, ms: seq<string>, j: nat, needle: string)
    requires j < |ms|
    ensures Tally(before + Hits(LowerAll(ms[..j + 1]), needle)) ==
      if Contains(Lower(ms[j]), needle) then Bump(Tally(before + Hits(LowerAll(ms[..j]), needle)), Lower(ms[j]))
      else Tally(before + Hits(LowerAll(ms[..j]), needle))
  {
    NextMatch([], ms, j);
    assert LowerAll(ms[..j + 1]) == LowerAll(ms[..j]) + [Lower(ms[j])];
    var prior := Hits(LowerAll(ms[..j]), needle);
    if Contains(Lower(ms[j]), needle) {
      assert before + Hits(LowerAll(ms[..j + 1]), needle) == (before + prior) + [Lower(ms[j])];
      TallySnoc(before + prior, Lower(ms[j]));
    } else {
      assert before + Hits(LowerAll(ms[..j + 1]), needle) == before + prior;
    }
  }

  /** The `reduce` of the search page over the fetched texts. */
  method SearchTally(texts: seq<string>, query: string) returns (acc: seq<TagCount>)
    ensures acc == Tally(SearchTags(texts, query))
  {
    var needle := Lower(query);
    acc := [];
    var i := 0;
    while i < |texts|
      invariant 0 <= i <= |texts|
      invariant acc == Tally(Hits(AllTags(texts[..i]), needle))
    {
      var ms := Matches(texts[i]);
      ghost var before := Hits(AllTags(texts[..i]), needle);
      var j := 0;
      assert before + Hits(LowerAll(ms[..j]), needle) == before;
      while j < |ms|
        invariant 0 <= j <= |ms|
        invariant acc == Tally(before + Hits(LowerAll(ms[..j]), needle))
      {
        var clean := Lower(ms[j]);
        SearchStep(before, ms, j, needle);
        if Contains(clean, needle) {
          acc := Bump(acc, clean);
        }
        j := j + 1;
      }
      assert ms[..j] == ms;
      NextText(texts, i);
      HitsAppend(AllTags(texts[..i]), LowerAll(ms), needle);
      i := i + 1;
    }
    assert texts[..i] == texts;
  }

  /** The trending panel's Map: every tag's count, entries in insertion order. */
  method TrendingTally(texts: seq<string>) returns (acc: seq<TagCount>)
    ensures acc == Tally(AllTags(texts))
  {
    acc := [];
    var i := 0;
    while i < |texts|
      invariant 0 <= i <= |texts|
      invariant acc == Tally(AllTags(texts[..i]))
    {
      var ms := Matches(texts[i]);
      var j := 0;
      assert AllTags(texts[..i]) + LowerAll(ms[..j]) == AllTags(texts[..i]);
      while j < |ms|
        invariant 0 <= j <= |ms|
        invariant acc == Tally(AllTags(texts[..i]) + LowerAll(ms[..j]))
      {
        var clean := Lower(ms[j]);
        NextMatch(AllTags(texts[..i]), ms, j);
        TallySnoc(AllTags(texts[..i]) + LowerAll(ms[..j]), clean);
        acc := Bump(acc, clean);
        j := j + 1;
      }
      assert ms[..j] == ms;
      NextText(texts, i);
      i := i + 1;
    }
    assert texts[..i] == texts;
  }

  function NegCount(e: TagCount): int { -(e.count as int) }

  /** `p` is a prefix of `s`. */
  predicate IsPrefix<T(==)>(p: seq<T>, s: seq<T>) {
    |p| <= |s| && p == s[..|p|]
  }

  /**
   * `.sort(([, a], [, b]) => b - a).slice(0, 5)`: the five largest counts.
   * Ties are stable: for every count, the kept entries of that count are the
   * first entries of that count in Map (first-seen) order, in that order.
   */
  function Top5(entries: seq<TagCount>): (r: seq<TagCount>)
    ensures |r| <= 5 && |r| <= |entries|
    ensures forall i, j :: 0 <= i < j < |r| ==> r[i].count >= r[j].count
    ensures forall e :: e in r ==> e in entries
    ensures forall c :: IsPrefix(WithKey(r, NegCount, c), WithKey(entries, NegCount, c))
  {
    var sorted := SortBy(entries, NegCount);
    var n := if |sorted| < 5 then |sorted| else 5;
    SortBySorted(entries, NegCount);
    SortByMembers(entries, NegCount);
    assert forall c :: IsPrefix(WithKey(sorted[..n], NegCount, c), WithKey(entries, NegCount, c)) by {
      forall c
        ensures IsPrefix(WithKey(sorted[..n], NegCount, c), WithKey(entries, NegCount, c))
      {
        SortedPrefixTies(entries, n, c);
      }
    }
    sorted[..n]
  }

  /** A prefix of the sorted entries holds, for each count, the first entries of that count, in input order. */
  lemma SortedPrefixTies(entries: seq<TagCount>, n: nat, c: int)
    requires n <= |entries|
    ensures IsPrefix(WithKey(SortBy(entries, NegCount)[..n], NegCount, c), WithKey(entries, NegCount, c))
  {
    var sorted := SortBy(entries, NegCount);
    assert sorted == sorted[..n] + sorted[n..];
    WithKeyAppend(sorted[..n], sorted[n..], NegCount, c);
    SortByStable(entries, NegCount, c);
  }

  /** No entry left out has a larger count than one kept (which of equal count are kept, `Top5` says). */
  lemma Top5Ranking(entries: seq<TagCount>, e: TagCount)
    requires e in entries && e !in Top5(entries)
    ensures |Top5(entries)| == 5
    ensures forall x :: x in Top5(entries) ==> x.count >= e.count
  {
    var sorted := SortBy(entries, NegCount);
    SortBySorted(entries, NegCount);
    SortByMembers(entries, NegCount);
    var top := Top5(entries);
    var n := |top|;
    assert top == sorted[..n];
    var j :| 0 <= j < |sorted| && sorted[j] == e;
    forall x | x in top
      ensures x.count >= e.count
    {
      var i :| 0 <= i < n && top[i] == x;
      assert sorted[i] == x;
    }
  }

  /** `fetchTrendingTopics` as a whole. */
  function Trending(texts: seq<string>): seq<TagCount> {
    Top5(Tally(AllTags(texts)))
  }

  /** With no tags in any text the panel is empty. */
  lemma {:induction false} NoTagsNoTrending(texts: seq<string>)
    requires forall i :: 0 <= i < |texts| ==> '#' !in texts[i]
    ensures AllTags(texts) == [] && Trending(texts) == []
  {
    if texts != [] {
      var init := texts[..|texts| - 1];
      NoTagsNoTrending(init);
      NoHashNoMatches(texts[|texts| - 1]);
    }
  }
}
