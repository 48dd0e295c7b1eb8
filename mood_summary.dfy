/** The mood summary a user attaches to a connection request (`getMoodSummary` in
    TherapistScreen.tsx): count the moods of the last five journal entries, pick the most
    frequent one, and report it with the total number of entries. */
module MoodSummary {
  import opened Wrappers
  import opened Decimal

  /** A journal entry as the screen receives it (untyped): only the two fields the summary reads.
      `None` stands for a missing field; `Some("")` is present but falsy in JavaScript. */
  datatype JournalEntry = JournalEntry(mood: Option<string>, sentiment: Option<string>)

  const WindowSize: nat := 5
  const NeutralMood := "neutral"
  const NoEntriesText := "No journal entries yet"
  const MoodSeparator := " entries, recent mood: "

  /** JavaScript truthiness of an optional string field. */
  predicate Truthy(o: Option<string>) {
    o.Some? && o.value != ""
  }

  /** The key an entry is counted under: `entry.mood || entry.sentiment || 'neutral'`. */
  function MoodLabel(e: JournalEntry): (m: string)
    ensures m != ""
    ensures Truthy(e.mood) ==> m == e.mood.value
    ensures !Truthy(e.mood) && Truthy(e.sentiment) ==> m == e.sentiment.value
    ensures !Truthy(e.mood) && !Truthy(e.sentiment) ==> m == NeutralMood
  {
    if Truthy(e.mood) then e.mood.value
    else if Truthy(e.sentiment) then e.sentiment.value
    else NeutralMood
  }

  /** `journalEntries.slice(-5)`: the last min(5, n) entries. */
  function Window(journal: seq<JournalEntry>): (w: seq<JournalEntry>)
    ensures |w| == if |journal| < WindowSize then |journal| else WindowSize
    ensures w == journal[|journal| - |w|..]
  {
    if |journal| <= WindowSize then journal else journal[|journal| - WindowSize..]
  }

  function Labels(entries: seq<JournalEntry>): seq<string>
  {
    seq(|entries|, i requires 0 <= i < |entries| => MoodLabel(entries[i]))
  }

  /** How often `k` occurs in `s`. */
  function Occurrences(s: seq<string>, k: string): (n: nat)
    ensures n <= |s|
    ensures n > 0 <==> k in s
  {
    if |s| == 0 then 0
    else Occurrences(s[..|s| - 1], k) + (if s[|s| - 1] == k then 1 else 0)
  }

  predicate NoDuplicates(s: seq<string>) {
    forall i, j :: 0 <= i < j < |s| ==> s[i] != s[j]
  }

  /** The distinct elements of `s`, in order of first occurrence. */
  function Distinct(s: seq<string>): (d: seq<string>)
    ensures forall x :: x in d <==> x in s
    ensures NoDuplicates(d)
  {
    if |s| == 0 then []
    else
      var d := Distinct(s[..|s| - 1]);
      if s[|s| - 1] in d then d else d + [s[|s| - 1]]
  }

  /** The distinct elements of a prefix are a prefix of the distinct elements: keys are
      only ever appended, in the order they are first seen. */
  lemma {:induction false} DistinctPrefix(s: seq<string>, n: nat)
    requires n <= |s|
    ensures |Distinct(s[..n])| <= |Distinct(s)|
    ensures Distinct(s[..n]) == Distinct(s)[..|Distinct(s[..n])|]
  {
    if n < |s| {
      var p := s[..|s| - 1];
      assert p[..n] == s[..n];
      DistinctPrefix(p, n);
    } else {
      assert s[..n] == s;
    }
  }

  /** A JavaScript object used as a dictionary of counters: its keys in insertion order,
      and the value stored under each key. */
  datatype Tally = Tally(keys: seq<string>, counts: map<string, nat>)

  predicate WellFormed(t: Tally) {
    forall k :: k in t.keys ==> k in t.counts
  }

  /** The dictionary that counting `labels` produces. */
  function Count(labels: seq<string>): (t: Tally)
    ensures WellFormed(t)
    ensures forall k :: k in t.counts <==> k in labels
    ensures forall k :: k in t.keys <==> k in labels
    ensures forall k :: k in t.counts ==> 0 < t.counts[k] == Occurrences(labels, k)
  {
    Tally(Distinct(labels), map k | k in labels :: Occurrences(labels, k))
  }

  lemma OccurrencesStep(s: seq<string>, x: string, k: string)
    ensures Occurrences(s + [x], k) == Occurrences(s, k) + (if x == k then 1 else 0)
  {
    assert (s + [x])[..|s|] == s;
  }

  /** One counting step, `moodCounts[x] = (moodCounts[x] || 0) + 1`, keeps `Count` exact. */
  lemma CountStep(s: seq<string>, x: string)
    ensures var t := Count(s);
            Count(s + [x]) == if x in t.counts then Tally(t.keys, t.counts[x := t.counts[x] + 1])
                              else Tally(t.keys + [x], t.counts[x := 1])
  {
    var s' := s + [x];
    assert s'[..|s'| - 1] == s;
    var t, t' := Count(s), Count(s');
    var m := if x in t.counts then t.counts[x := t.counts[x] + 1] else t.counts[x := 1];
    assert x in t.counts <==> x in s;
    forall k
      ensures k in t'.counts <==> k in m
    {
      assert k in s' <==> k in s || k == x;
    }
    forall k | k in t'.counts
      ensures t'.counts[k] == m[k]
    {
      OccurrencesStep(s, x, k);
      if k != x {
        assert k in s;
      } else if x !in s {
        assert Occurrences(s, x) == 0;
      }
    }
    assert t'.counts == m;
  }

  /** `Object.entries`: the (key, count) pairs in key insertion order. */
  function Entries(t: Tally): (es: seq<(string, nat)>)
    requires WellFormed(t)
    ensures |es| == |t.keys|
    ensures forall i :: 0 <= i < |es| ==> es[i].0 == t.keys[i] && es[i].1 == t.counts[t.keys[i]]
  {
    seq(|t.keys|, i requires 0 <= i < |t.keys| => (t.keys[i], t.counts[t.keys[i]]))
  }

  function SumCounts(es: seq<(string, nat)>): nat
  {
    if |es| == 0 then 0 else SumCounts(es[..|es| - 1]) + es[|es| - 1].1
  }

  /** Replacing the count of one key (that occurs once) changes the sum by the difference. */
  lemma {:induction false} SumCountsUpdate(keys: seq<string>, c: map<string, nat>, x: string, v: nat)
    requires WellFormed(Tally(keys, c)) && NoDuplicates(keys) && x in keys
    ensures SumCounts(Entries(Tally(keys, c[x := v]))) + c[x] == SumCounts(Entries(Tally(keys, c))) + v
  {
    var n := |keys|;
    var p := keys[..n - 1];
    var e, e' := Entries(Tally(keys, c)), Entries(Tally(keys, c[x := v]));
    assert e[..n - 1] == Entries(Tally(p, c));
    assert e'[..n - 1] == Entries(Tally(p, c[x := v]));
    if keys[n - 1] == x {
      assert x !in p;
      EntriesIgnoreOtherKeys(p, c, x, v);
    } else {
      assert x in p;
      SumCountsUpdate(p, c, x, v);
    }
  }

  /** Appending a fresh key appends one entry. */
  lemma EntriesSnoc(keys: seq<string>, c: map<string, nat>, x: string)
    requires WellFormed(Tally(keys, c)) && x in c
    ensures Entries(Tally(keys + [x], c)) == Entries(Tally(keys, c)) + [(x, c[x])]
  {
  }

  /** Entries only read the counts of their own keys. */
  lemma EntriesIgnoreOtherKeys(keys: seq<string>, c: map<string, nat>, x: string, v: nat)
    requires WellFormed(Tally(keys, c)) && x !in keys
    ensures Entries(Tally(keys, c[x := v])) == Entries(Tally(keys, c))
  {
  }

  /** The per-key counts add up to the number of labels counted. */
  lemma {:induction false} CountSum(labels: seq<string>)
    ensures SumCounts(Entries(Count(labels))) == |labels|
  {
    if |labels| > 0 {
      var s, x := labels[..|labels| - 1], labels[|labels| - 1];
      assert labels == s + [x];
      CountSum(s);
      CountStep(s, x);
      var t := Count(s);
      if x in t.counts {
        SumCountsUpdate(t.keys, t.counts, x, t.counts[x] + 1);
      } else {
        var c := t.counts[x := 1];
        EntriesSnoc(t.keys, c, x);
        EntriesIgnoreOtherKeys(t.keys, t.counts, x, 1);
        var e := Entries(Tally(t.keys + [x], c));
        assert e[..|e| - 1] == Entries(t);
      }
    }
  }

  /** Descending by count. */
  predicate Descending(es: seq<(string, nat)>) {
    forall i, j :: 0 <= i < j < |es| ==> es[i].1 >= es[j].1
  }

  /** Inserts `x` after every element whose count is at least `x`'s. */
  function InsertDesc(x: (string, nat), es: seq<(string, nat)>): (r: seq<(string, nat)>)
    ensures |r| == |es| + 1
  {
    if |es| == 0 then [x]
    else if es[0].1 < x.1 then [x] + es
    else [es[0]] + InsertDesc(x, es[1..])
  }

  lemma {:induction false} InsertDescPermutes(x: (string, nat), es: seq<(string, nat)>)
    ensures multiset(InsertDesc(x, es)) == multiset(es) + multiset{x}
  {
    if |es| > 0 && es[0].1 >= x.1 {
      InsertDescPermutes(x, es[1..]);
      assert es == [es[0]] + es[1..];
    }
  }

  lemma {:induction false} InsertDescOrdered(x: (string, nat), es: seq<(string, nat)>)
    requires Descending(es)
    ensures Descending(InsertDesc(x, es))
  {
    if |es| > 0 && es[0].1 >= x.1 {
      var rest := InsertDesc(x, es[1..]);
      InsertDescOrdered(x, es[1..]);
      InsertDescPermutes(x, es[1..]);
      forall i | 0 <= i < |rest|
        ensures rest[i].1 <= es[0].1
      {
        assert rest[i] in multiset(rest);
        assert rest[i] in es[1..] || rest[i] == x;
      }
    }
  }

  /** `Array.prototype.sort` with comparator `(a, b) => b - a` on the counts: a stable sort
      (as the language standard requires since 2019) into descending order of count. */
  function SortDesc(es: seq<(string, nat)>): (r: seq<(string, nat)>)
    ensures |r| == |es|
    ensures multiset(r) == multiset(es)
    ensures Descending(r)
  {
    if |es| == 0 then []
    else
      var p, x := es[..|es| - 1], es[|es| - 1];
      assert es == p + [x];
      InsertDescPermutes(x, SortDesc(p));
      InsertDescOrdered(x, SortDesc(p));
      InsertDesc(x, SortDesc(p))
  }

  /** Index of the first element with the largest count. */
  function FirstMax(es: seq<(string, nat)>): (i: nat)
    requires |es| > 0
    ensures i < |es|
    ensures forall j :: 0 <= j < |es| ==> es[j].1 <= es[i].1
    ensures forall j :: 0 <= j < i ==> es[j].1 < es[i].1
  {
    if |es| == 1 then 0
    else
      var k := FirstMax(es[..|es| - 1]);
      if es[k].1 < es[|es| - 1].1 then |es| - 1 else k
  }

  /** Because the sort is stable, its first element is the first entry with the largest count. */
  lemma {:induction false} SortDescHead(es: seq<(string, nat)>)
    requires |es| > 0
    ensures SortDesc(es)[0] == es[FirstMax(es)]
  {
    if |es| > 1 {
      var p := es[..|es| - 1];
      SortDescHead(p);
    }
  }

  /** `sort(...)[0]?.[0] || 'neutral'`: the key of the first entry with the largest count,
      or 'neutral' when there is no entry or that key is empty. */
  function Dominant(es: seq<(string, nat)>): (m: string)
    ensures m != ""
    ensures |es| == 0 ==> m == NeutralMood
    ensures |es| > 0 ==> m == if es[FirstMax(es)].0 != "" then es[FirstMax(es)].0 else NeutralMood
  {
    var sorted := SortDesc(es);
    if |es| > 0 then SortDescHead(es); (if sorted[0].0 != "" then sorted[0].0 else NeutralMood)
    else NeutralMood
  }

  /** The dominant mood of a window: 'neutral' for an empty window, otherwise the key of the
      first (key, count) entry with the largest count. */
  function DominantMood(recent: seq<JournalEntry>): (m: string)
    ensures |recent| == 0 ==> m == NeutralMood
    ensures |recent| > 0 ==> var es := Entries(Count(Labels(recent)));
                               |es| > 0 && m == es[FirstMax(es)].0
  {
    var labels := Labels(recent);
    var es := Entries(Count(labels));
    assert |recent| > 0 ==> labels[0] in Count(labels).keys && es[FirstMax(es)].0 in labels;
    Dominant(es)
  }

  /** The text `getMoodSummary` returns: exactly the no-entries text for an empty journal,
      and otherwise text that starts with the entry count. */
  function MoodSummaryOf(journal: seq<JournalEntry>): (s: string)
    ensures s == NoEntriesText <==> |journal| == 0
    ensures |journal| > 0 ==> var d := NatToString(|journal|); |d| <= |s| && s[..|d|] == d
  {
    if |journal| == 0 then NoEntriesText
    else
      var d := NatToString(|journal|);
      var s := d + MoodSeparator + DominantMood(Window(journal));
      assert s[..|d|] == d;
      assert IsDigit(s[0]) && !IsDigit(NoEntriesText[0]);
      s
  }

  /** The counting loop of `getMoodSummary`: each entry's label is added to an
      insertion-ordered dictionary of counters. */
  method CountMoods(recent: seq<JournalEntry>) returns (keys: seq<string>, moodCounts: map<string, nat>)
    ensures Tally(keys, moodCounts) == Count(Labels(recent))
  {
    ghost var labels := Labels(recent);
    keys, moodCounts := [], map[];
    for i := 0 to |recent|
      invariant Tally(keys, moodCounts) == Count(labels[..i])
    {
      var mood := MoodLabel(recent[i]);
      ghost var seen := labels[..i];
      assert labels[..i + 1] == seen + [mood];
      CountStep(seen, mood);
      if mood in moodCounts {
        moodCounts := moodCounts[mood := moodCounts[mood] + 1];
      } else {
        keys := keys + [mood];
        moodCounts := moodCounts[mood := 1];
      }
    }
    assert labels[..|recent|] == labels;
  }

  /** `getMoodSummary`: counts the moods of the recent window, sorts the dictionary's
      entries by count and renders the summary. */
  method Summarize(journal: seq<JournalEntry>) returns (summary: string)
    ensures summary == MoodSummaryOf(journal)
  {
    if |journal| == 0 {
      return NoEntriesText;
    }
    var recent := Window(journal);
    var keys, moodCounts := CountMoods(recent);
    var dominantMood := Dominant(Entries(Tally(keys, moodCounts)));
    summary := NatToString(|journal|) + MoodSeparator + dominantMood;
  }

  /** The counts of the window add up to min(5, n). */
  lemma WindowCountsSum(journal: seq<JournalEntry>)
    ensures SumCounts(Entries(Count(Labels(Window(journal))))) == if |journal| < WindowSize then |journal| else WindowSize
  {
    CountSum(Labels(Window(journal)));
  }

  /** The first key with the largest count has the largest number of occurrences. */
  lemma FirstMaxKeyIsMax(labels: seq<string>)
    requires |labels| > 0
    ensures var t := Count(labels); var es := Entries(t);
            |es| > 0 && forall k :: k in labels ==> Occurrences(labels, k) <= es[FirstMax(es)].1
  {
    var t := Count(labels);
    var es := Entries(t);
    assert labels[0] in t.keys;
    var p := FirstMax(es);
    forall k | k in labels
      ensures Occurrences(labels, k) <= es[p].1
    {
      var q :| 0 <= q < |t.keys| && t.keys[q] == k;
      assert es[q].1 <= es[p].1;
    }
  }

  /** Among labels with the largest count, the first key with that count was seen first. */
  lemma FirstMaxKeySeenFirst(labels: seq<string>, j: nat)
    requires j < |labels|
    ensures var t := Count(labels); var es := Entries(t);
            |es| > 0 && (Occurrences(labels, labels[j]) == es[FirstMax(es)].1 ==> es[FirstMax(es)].0 in labels[..j + 1])
  {
    var t := Count(labels);
    var es := Entries(t);
    assert labels[0] in t.keys;
    var p := FirstMax(es);
    if Occurrences(labels, labels[j]) == es[p].1 {
      var k := labels[j];
      var d := Distinct(labels[..j + 1]);
      assert k in labels[..j + 1];
      DistinctPrefix(labels, j + 1);
      var q :| 0 <= q < |d| && d[q] == k;
      assert t.keys[q] == k;
      assert p <= q;
      assert d[p] == t.keys[p];
    }
  }

  /** The dominant mood of a non-empty window is a mood seen in it with the largest count;
      among moods with that count it is the one seen first. */
  lemma DominantIsFirstSeenMax(recent: seq<JournalEntry>)
    requires |recent| > 0
    ensures var labels, m := Labels(recent), DominantMood(recent);
            && m in labels
            && (forall k :: k in labels ==> Occurrences(labels, k) <= Occurrences(labels, m))
            && (forall j :: 0 <= j < |labels| && Occurrences(labels, labels[j]) == Occurrences(labels, m)
                  ==> m in labels[..j + 1])
  {
    var labels := Labels(recent);
    var es := Entries(Count(labels));
    var m := DominantMood(recent);
    assert m == es[FirstMax(es)].0 && m in labels;
    assert Occurrences(labels, m) == es[FirstMax(es)].1;
    FirstMaxKeyIsMax(labels);
    forall j | 0 <= j < |labels| && Occurrences(labels, labels[j]) == Occurrences(labels, m)
      ensures m in labels[..j + 1]
    {
      FirstMaxKeySeenFirst(labels, j);
    }
  }

  /** A non-empty journal never reports "No journal entries yet": its summary starts with the
      total number of entries (not the window size), which reads back exactly. */
  lemma SummaryReportsTotal(journal: seq<JournalEntry>)
    requires |journal| > 0
    ensures var s, d := MoodSummaryOf(journal), NatToString(|journal|);
            && s != NoEntriesText
            && |d| <= |s| && s[..|d|] == d
            && DigitsValue(s[..|d|]) == |journal|
  {
    var s, d := MoodSummaryOf(journal), NatToString(|journal|);
    assert s[..|d|] == d;
    assert IsDigit(s[0]) && !IsDigit(NoEntriesText[0]);
    NatToStringRoundTrip(|journal|);
  }
}
