/**
 Selection of relevant search results: candidates are scored by vector score and by the
 query words they contain, sorted stably, and the best of each resource is taken.
 */
module Relevance {
  import opened Text
  import opened Json

  // ---------- tokens ----------

  /** Unicode lower-casing outside ASCII, and `str` of values that are not strings; both are given. */
  datatype Locale = Locale(fold: char -> string, show: Value -> string)

  function LowerChar(locale: Locale, c: char): string {
    if 'A' <= c <= 'Z' then ['a' + (c - 'A')]
    else if c < '\U{80}' then [c]
    else locale.fold(c)
  }

  function Lower(locale: Locale, s: string): string {
    if s == "" then "" else LowerChar(locale, s[0]) + Lower(locale, s[1..])
  }

  lemma {:induction false} LowerJoins(locale: Locale, a: string, b: string)
    ensures Lower(locale, a + b) == Lower(locale, a) + Lower(locale, b)
  {
    if a == "" {
      assert a + b == b;
    } else {
      assert (a + b)[1..] == a[1..] + b;
      LowerJoins(locale, a[1..], b);
    }
  }

  /** `set(re.findall("[a-z0-9]+", s.lower()))` */
  function Tokens(locale: Locale, s: string): set<string> {
    set t | t in Runs(Lower(locale, s), Token)
  }

  /** Title and snippet joined by a blank have the tokens of both. */
  lemma {:induction false} TokensOfJoined(locale: Locale, title: string, snippet: string)
    ensures Runs(Lower(locale, title + " " + snippet), Token)
            == Runs(Lower(locale, title), Token) + Runs(Lower(locale, snippet), Token)
    ensures Tokens(locale, title + " " + snippet) == Tokens(locale, title) + Tokens(locale, snippet)
  {
    var a, b := Lower(locale, title), Lower(locale, snippet);
    LowerJoins(locale, title + " ", snippet);
    LowerJoins(locale, title, " ");
    assert Lower(locale, " ") == [' '] + Lower(locale, " "[1..]) == [' '];
    assert Lower(locale, title + " " + snippet) == a + [' '] + b;
    RunsSplit(a, ' ', b, Token);
  }

  const STOP_WORDS: set<string> := {
    "a", "an", "and", "are", "documents", "emails", "find", "for", "in",
    "me", "my", "of", "on", "related", "research", "the", "to", "with"}

  /** The query's tokens that carry meaning. */
  function MeaningfulTokens(locale: Locale, query: string): set<string> {
    set t | t in Tokens(locale, query) && t !in STOP_WORDS && |t| > 1
  }

  // ---------- scores ----------

  /** A candidate's fields, by name. */
  type Candidate = seq<Field>

  function Get(candidate: Candidate, name: string): Value {
    GetOr(candidate, name, Null)
  }

  /** `str(v or "")` */
  function Shown(locale: Locale, v: Value): string {
    if !Truthy(v) then "" else if v.Str? then v.s else locale.show(v)
  }

  function Title(locale: Locale, candidate: Candidate): string {
    Shown(locale, Get(candidate, "title"))
  }

  function Snippet(locale: Locale, candidate: Candidate): string {
    Shown(locale, Or(Or(Get(candidate, "snippet"), Get(candidate, "chunk_text")), Get(candidate, "text")))
  }

  /** The share of the query's terms that occur among some tokens. */
  function Coverage(terms: set<string>, tokens: set<string>): (r: real)
    ensures 0.0 <= r <= 1.0
    ensures r > 0.0 <==> terms * tokens != {}
  {
    if terms == {} then 0.0
    else
      SubsetIsSmaller(terms * tokens, terms);
      assert |terms * tokens| > 0 <==> terms * tokens != {};
      assert |terms| > 0;
      assert 0.0 <= |terms * tokens| as real / |terms| as real <= 1.0;
      |terms * tokens| as real / |terms| as real
  }

  lemma {:induction false} SubsetIsSmaller<T>(a: set<T>, b: set<T>)
    requires a <= b
    ensures |a| <= |b|
  {
    assert b == a + (b - a);
  }

  function BoundedScore(v: Value): (r: real)
    ensures 0.0 <= r <= 1.0
  {
    var x := match v
      case Int(n) => n as real
      case Real(x) => x
      case _ => 0.0;
    if x < 0.0 then 0.0 else if x > 1.0 then 1.0 else x
  }

  datatype Scores = Scores(base: real, coverage: real, titleCoverage: real)

  function ScoresOf(locale: Locale, terms: set<string>, candidate: Candidate): Scores {
    var title, snippet := Title(locale, candidate), Snippet(locale, candidate);
    Scores(BoundedScore(Get(candidate, "score")),
           Coverage(terms, Tokens(locale, title + " " + snippet)),
           Coverage(terms, Tokens(locale, title)))
  }

  function Calibrated(s: Scores): real {
    0.60 * s.base + 0.30 * s.coverage + 0.10 * s.titleCoverage
  }

  /**
   A title never covers more of the query than title and snippet do together, so the calibrated
   score is at most one.
   */
  lemma {:induction false} TitleCoversLess(locale: Locale, terms: set<string>, candidate: Candidate)
    ensures var s := ScoresOf(locale, terms, candidate);
            && s.titleCoverage <= s.coverage
            && 0.60 * s.base + 0.40 * s.titleCoverage <= Calibrated(s) <= 0.60 * s.base + 0.40 * s.coverage
            && 0.0 <= Calibrated(s) <= 1.0
  {
    var title, snippet := Title(locale, candidate), Snippet(locale, candidate);
    TokensOfJoined(locale, title, snippet);
    CoverageGrows(terms, Tokens(locale, title), Tokens(locale, title + " " + snippet));
  }

  lemma {:induction false} CoverageGrows(terms: set<string>, few: set<string>, many: set<string>)
    requires few <= many
    ensures Coverage(terms, few) <= Coverage(terms, many)
  {
    if terms != {} {
      SubsetIsSmaller(terms * few, terms * many);
      var n := |terms| as real;
      assert |terms * few| as real / n <= |terms * many| as real / n;
    }
  }

  datatype Query = Query(text: string, topK: int, services: set<string>, minimum: real)

  function Service(locale: Locale, candidate: Candidate): string {
    Shown(locale, Get(candidate, "service"))
  }

  /** The candidate is of a service asked for, and good enough. */
  predicate Passes(locale: Locale, query: Query, candidate: Candidate) {
    var s := ScoresOf(locale, MeaningfulTokens(locale, query.text), candidate);
    && (query.services != {} ==> Service(locale, candidate) in query.services)
    && Calibrated(s) >= query.minimum
    && (s.coverage > 0.0 || s.base >= 0.60)
  }

  function ScoreOf(locale: Locale, query: Query, candidate: Candidate): real {
    Calibrated(ScoresOf(locale, MeaningfulTokens(locale, query.text), candidate))
  }

  // ---------- deduplication keys ----------

  type Key = (string, string)

  /** What two candidates for one resource have in common: mail threads, then ids, then titles. */
  function DeduplicationKey(locale: Locale, candidate: Candidate): Key {
    var service := Service(locale, candidate);
    var metadata := Or(Get(candidate, "metadata"), Get(candidate, "resource_metadata"));
    var thread := if metadata.Obj? then GetOr(metadata.fields, "thread_id", Null) else Null;
    var id := Or(Get(candidate, "external_resource_id"), Get(candidate, "id"));
    if service == "gmail" && thread.Str? && thread.s != "" then (service, "thread:" + thread.s)
    else if id.Str? && id.s != "" then (service, id.s)
    else (service, Cleaned(Lower(locale, Title(locale, candidate))))
  }

  // ---------- ranking ----------

  /** A passing candidate: its place in the input, and what ranking and deduplication look at. */
  datatype Ranked = Ranked(at: nat, score: real, key: Key)

  /** Higher scores first, earlier candidates first among equals. */
  predicate Before(a: Ranked, b: Ranked) {
    a.score > b.score || (a.score == b.score && a.at < b.at)
  }

  predicate Sorted(ranked: seq<Ranked>) {
    forall i, j :: 0 <= i < j < |ranked| ==> Before(ranked[i], ranked[j])
  }

  /** What ranking keeps of a candidate, if it passes. */
  function Judge(locale: Locale, query: Query, candidate: Candidate, at: nat): (r: Option<Ranked>)
    ensures r.Some? <==> Passes(locale, query, candidate)
    ensures r.Some? ==> r.value == Ranked(at, ScoreOf(locale, query, candidate), DeduplicationKey(locale, candidate))
  {
    if Passes(locale, query, candidate)
    then Some(Ranked(at, ScoreOf(locale, query, candidate), DeduplicationKey(locale, candidate)))
    else None
  }

  function Judged(locale: Locale, query: Query, candidates: seq<Candidate>): (r: seq<Option<Ranked>>)
    ensures |r| == |candidates| && forall i :: 0 <= i < |r| ==> r[i] == Judge(locale, query, candidates[i], i)
    ensures InPlace(r)
  {
    seq(|candidates|, i requires 0 <= i < |candidates| => Judge(locale, query, candidates[i], i))
  }

  predicate InPlace(judged: seq<Option<Ranked>>) {
    forall i :: 0 <= i < |judged| && judged[i].Some? ==> judged[i].value.at == i
  }

  predicate InOrder(ranked: seq<Ranked>) {
    forall i, j :: 0 <= i < j < |ranked| ==> ranked[i].at < ranked[j].at
  }

  /** The entries that pass, in input order. */
  function Passing(judged: seq<Option<Ranked>>): (r: seq<Ranked>)
    requires InPlace(judged)
    ensures forall x :: x in r <==> x.at < |judged| && judged[x.at] == Some(x)
    ensures InOrder(r)
  {
    if judged == [] then []
    else
      var n := |judged| - 1;
      var before := Passing(judged[..n]);
      assert forall i :: 0 <= i < |before| ==> before[i] in before;
      if judged[n].Some? then before + [judged[n].value] else before
  }

  /** Puts an entry behind all that score at least as much. */
  function Insert(sorted: seq<Ranked>, x: Ranked): (r: seq<Ranked>)
    ensures multiset(r) == multiset(sorted) + multiset{x}
  {
    if sorted == [] then [x]
    else if sorted[0].score >= x.score then
      var rest := Insert(sorted[1..], x);
      assert sorted == [sorted[0]] + sorted[1..];
      [sorted[0]] + rest
    else [x] + sorted
  }

  /** `ranked.sort(key=score, reverse=True)`, which keeps equals in their order. */
  function StableSort(ranked: seq<Ranked>): (r: seq<Ranked>)
    ensures multiset(r) == multiset(ranked)
  {
    if ranked == [] then []
    else
      var n := |ranked| - 1;
      assert ranked == ranked[..n] + [ranked[n]];
      Insert(StableSort(ranked[..n]), ranked[n])
  }

  lemma {:induction false} InsertSorts(sorted: seq<Ranked>, x: Ranked)
    requires Sorted(sorted) && forall y :: y in sorted ==> y.at < x.at
    ensures Sorted(Insert(sorted, x))
  {
    if sorted != [] && sorted[0].score >= x.score {
      var rest := Insert(sorted[1..], x);
      InsertSorts(sorted[1..], x);
      forall y | y in rest ensures Before(sorted[0], y) {
        assert y in multiset(rest);
        assert y == x || y in sorted[1..];
      }
    }
  }

  lemma {:induction false} StableSortSorts(ranked: seq<Ranked>)
    requires InOrder(ranked)
    ensures Sorted(StableSort(ranked))
  {
    if ranked != [] {
      var n := |ranked| - 1;
      StableSortSorts(ranked[..n]);
      forall y | y in StableSort(ranked[..n]) ensures y.at < ranked[n].at {
        assert y in multiset(ranked[..n]);
      }
      InsertSorts(StableSort(ranked[..n]), ranked[n]);
    }
  }

  // ---------- selection ----------

  function Keys(ranked: seq<Ranked>): set<Key> {
    set x | x in ranked :: x.key
  }

  /** The number of results due: one per key, and no more than `topK` if that is positive. */
  function Due(ranked: seq<Ranked>, topK: int): nat {
    if 1 <= topK < |Keys(ranked)| then topK else |Keys(ranked)|
  }

  /** `x` is the first and best entry of its key. */
  ghost predicate IsBest(ranked: seq<Ranked>, x: Ranked) {
    x in ranked && forall q :: q in ranked && q.key == x.key && q != x ==> Before(x, q)
  }

  /** Why an entry was left out: a chosen one of its key comes before it, or the list was full of ones before it. */
  ghost predicate IsDominated(selected: seq<Ranked>, topK: int, q: Ranked) {
    || (exists i :: 0 <= i < |selected| && selected[i].key == q.key && Before(selected[i], q))
    || (|selected| == topK && forall i :: 0 <= i < |selected| ==> Before(selected[i], q))
  }

  /** The best entries of distinct keys, in rank order, as many as are due, everything else dominated. */
  ghost predicate IsSelection(ranked: seq<Ranked>, topK: int, selected: seq<Ranked>) {
    && Sorted(selected)
    && (forall i, j :: 0 <= i < j < |selected| ==> selected[i].key != selected[j].key)
    && (forall i :: 0 <= i < |selected| ==> IsBest(ranked, selected[i]))
    && (forall q :: q in ranked && q !in selected ==> IsDominated(selected, topK, q))
    && |selected| == Due(ranked, topK)
  }

  /** What the selection loop has chosen from the entries it has seen. */
  ghost predicate ChosenSoFar(ranked: seq<Ranked>, n: nat, selected: seq<Ranked>, seen: set<Key>)
    requires n <= |ranked|
  {
    && seen == Keys(ranked[..n]) == Keys(selected) && |seen| == |selected|
    && Sorted(selected)
    && (forall i, j :: 0 <= i < j < |selected| ==> selected[i].key != selected[j].key)
    && (forall x :: x in selected ==> x in ranked[..n])
    && forall i, j ::
         0 <= i < |selected| && 0 <= j < n && ranked[j].key == selected[i].key && ranked[j] != selected[i] ==>
         Before(selected[i], ranked[j])
  }

  method PickBest(ranked: seq<Ranked>, topK: int) returns (selected: seq<Ranked>)
    requires Sorted(ranked)
    ensures IsSelection(ranked, topK, selected)
  {
    selected := [];
    var seen: set<Key> := {};
    for n := 0 to |ranked|
      invariant ChosenSoFar(ranked, n, selected, seen)
      invariant topK >= 1 ==> |selected| < topK
    {
      var x := ranked[n];
      if x.key in seen {
        SkipNext(ranked, n, selected, seen);
      } else {
        TakeNext(ranked, n, selected, seen);
        seen := seen + {x.key};
        selected := selected + [x];
        if |selected| == topK {
          ChosenIsSelection(ranked, n + 1, selected, seen, topK);
          return;
        }
      }
    }
    ChosenIsSelection(ranked, |ranked|, selected, seen, topK);
  }

  lemma {:induction false} SkipNext(ranked: seq<Ranked>, n: nat, selected: seq<Ranked>, seen: set<Key>)
    requires Sorted(ranked) && n < |ranked| && ChosenSoFar(ranked, n, selected, seen) && ranked[n].key in seen
    ensures ChosenSoFar(ranked, n + 1, selected, seen)
  {
    var x := ranked[n];
    assert ranked[..n + 1] == ranked[..n] + [x];
    KeysAppend(ranked[..n], x);
    ChosenBefore(ranked, n, selected, seen, n);
    assert seen + {x.key} == seen;
    assert forall i :: 0 <= i < |selected| ==> selected[i] in selected;
  }

  lemma {:induction false} TakeNext(ranked: seq<Ranked>, n: nat, selected: seq<Ranked>, seen: set<Key>)
    requires Sorted(ranked) && n < |ranked| && ChosenSoFar(ranked, n, selected, seen) && ranked[n].key !in seen
    ensures ChosenSoFar(ranked, n + 1, selected + [ranked[n]], seen + {ranked[n].key})
  {
    var x := ranked[n];
    assert ranked[..n + 1] == ranked[..n] + [x];
    KeysAppend(ranked[..n], x);
    KeysAppend(selected, x);
    ChosenBefore(ranked, n, selected, seen, n);
    PickNext(ranked, n, selected, seen);
    PickIsBest(ranked, n, selected, seen);
  }

  lemma {:induction false} PickNext(ranked: seq<Ranked>, n: nat, selected: seq<Ranked>, seen: set<Key>)
    requires Sorted(ranked) && n < |ranked| && ChosenSoFar(ranked, n, selected, seen) && ranked[n].key !in seen
    requires forall x :: x in selected ==> Before(x, ranked[n])
    ensures var more := selected + [ranked[n]];
            && Sorted(more)
            && (forall i, j :: 0 <= i < j < |more| ==> more[i].key != more[j].key)
            && forall x :: x in more ==> x in ranked[..n] || x == ranked[n]
  {
    assert forall i :: 0 <= i < |selected| ==> selected[i] in selected && selected[i].key in Keys(selected);
  }

  lemma {:induction false} PickIsBest(ranked: seq<Ranked>, n: nat, selected: seq<Ranked>, seen: set<Key>)
    requires Sorted(ranked) && n < |ranked| && ChosenSoFar(ranked, n, selected, seen) && ranked[n].key !in seen
    ensures var more := selected + [ranked[n]];
            forall i, j :: 0 <= i < |more| && 0 <= j < n + 1 && ranked[j].key == more[i].key && ranked[j] != more[i] ==>
              Before(more[i], ranked[j])
  {
    assert forall i :: 0 <= i < |selected| ==> selected[i] in selected && selected[i].key in Keys(selected);
    assert forall j :: 0 <= j < n ==> ranked[j] in ranked[..n] && ranked[j].key in Keys(ranked[..n]);
  }

  lemma {:induction false} KeysAppend(ranked: seq<Ranked>, x: Ranked)
    ensures Keys(ranked + [x]) == Keys(ranked) + {x.key}
  {
    var more := ranked + [x];
    assert forall y :: y in more <==> y in ranked || y == x;
    assert x in more;
  }

  /** Everything chosen comes before what has not been seen. */
  lemma {:induction false} ChosenBefore(ranked: seq<Ranked>, n: nat, selected: seq<Ranked>, seen: set<Key>, j: nat)
    requires Sorted(ranked) && n <= j < |ranked| && ChosenSoFar(ranked, n, selected, seen)
    ensures forall x :: x in selected ==> Before(x, ranked[j])
  {
    forall x | x in selected ensures Before(x, ranked[j]) {
      assert x in ranked[..n];
      var i :| 0 <= i < n && ranked[..n][i] == x;
      assert Before(ranked[i], ranked[j]);
    }
  }

  lemma {:induction false} ChosenIsSelection(ranked: seq<Ranked>, n: nat, selected: seq<Ranked>, seen: set<Key>,
                                             topK: int)
    requires Sorted(ranked) && n <= |ranked| && ChosenSoFar(ranked, n, selected, seen)
    requires |selected| == topK >= 1 || (n == |ranked| && (topK >= 1 ==> |selected| < topK))
    ensures IsSelection(ranked, topK, selected)
  {
    forall i | 0 <= i < |selected| ensures IsBest(ranked, selected[i]) {
      ChosenIsBest(ranked, n, selected, seen, i);
    }
    forall q | q in ranked && q !in selected ensures IsDominated(selected, topK, q) {
      OmittedIsDominated(ranked, n, selected, seen, topK, q);
    }
    assert ranked[..n] <= ranked;
    assert ranked[..|ranked|] == ranked;
    assert Keys(ranked[..n]) <= Keys(ranked);
    SubsetIsSmaller(Keys(ranked[..n]), Keys(ranked));
  }

  lemma {:induction false} ChosenIsBest(ranked: seq<Ranked>, n: nat, selected: seq<Ranked>, seen: set<Key>, i: nat)
    requires Sorted(ranked) && n <= |ranked| && ChosenSoFar(ranked, n, selected, seen) && i < |selected|
    ensures IsBest(ranked, selected[i])
  {
    var x := selected[i];
    assert x in selected && x in ranked[..n];
    forall q | q in ranked && q.key == x.key && q != x ensures Before(x, q) {
      var j :| 0 <= j < |ranked| && ranked[j] == q;
      if j >= n {
        ChosenBefore(ranked, n, selected, seen, j);
      }
    }
  }

  lemma {:induction false} OmittedIsDominated(ranked: seq<Ranked>, n: nat, selected: seq<Ranked>, seen: set<Key>,
                                              topK: int, q: Ranked)
    requires Sorted(ranked) && n <= |ranked| && ChosenSoFar(ranked, n, selected, seen)
    requires |selected| == topK || n == |ranked|
    requires q in ranked && q !in selected
    ensures IsDominated(selected, topK, q)
  {
    var j :| 0 <= j < |ranked| && ranked[j] == q;
    if j < n {
      assert q in ranked[..n] && q.key in Keys(ranked[..n]);
      var x :| x in selected && x.key == q.key;
      var i :| 0 <= i < |selected| && selected[i] == x;
      assert Before(selected[i], ranked[j]);
    } else {
      ChosenBefore(ranked, n, selected, seen, j);
      assert forall i :: 0 <= i < |selected| ==> selected[i] in selected;
    }
  }

  /** Selection looks at the entries alone, whatever their order. */
  lemma {:induction false} SelectionOfPermutation(a: seq<Ranked>, b: seq<Ranked>, topK: int, selected: seq<Ranked>)
    requires multiset(a) == multiset(b) && IsSelection(a, topK, selected)
    ensures IsSelection(b, topK, selected)
  {
    forall x ensures x in a <==> x in b {
      assert x in a <==> x in multiset(a);
      assert x in b <==> x in multiset(b);
    }
    assert Keys(a) == Keys(b);
    forall i | 0 <= i < |selected| ensures IsBest(b, selected[i]) {
      assert IsBest(a, selected[i]);
    }
    forall q | q in b && q !in selected ensures IsDominated(selected, topK, q) {
      assert q in a;
    }
  }

  lemma {:induction false} PassingNext(judged: seq<Option<Ranked>>, i: nat)
    requires InPlace(judged) && i < |judged|
    ensures Passing(judged[..i + 1]) == Passing(judged[..i]) + if judged[i].Some? then [judged[i].value] else []
  {
    assert judged[..i + 1][..i] == judged[..i];
    assert Passing(judged[..i]) + [] == Passing(judged[..i]);
  }

  method RankCandidates(locale: Locale, candidates: seq<Candidate>, query: Query) returns (ranked: seq<Ranked>)
    ensures ranked == Passing(Judged(locale, query, candidates))
  {
    ghost var judged := Judged(locale, query, candidates);
    ranked := [];
    for i := 0 to |candidates|
      invariant ranked == Passing(judged[..i])
    {
      var entry := Judge(locale, query, candidates[i], i);
      PassingNext(judged, i);
      if entry.Some? {
        ranked := ranked + [entry.value];
      }
    }
    assert judged[..|candidates|] == judged;
  }

  method Items(candidates: seq<Candidate>, picks: seq<Ranked>) returns (items: seq<Candidate>)
    requires forall i :: 0 <= i < |picks| ==> picks[i].at < |candidates|
    ensures |items| == |picks| && forall i :: 0 <= i < |picks| ==> items[i] == candidates[picks[i].at]
  {
    items := [];
    for i := 0 to |picks|
      invariant |items| == i && forall j :: 0 <= j < i ==> items[j] == candidates[picks[j].at]
    {
      items := items + [candidates[picks[i].at]];
    }
  }

  /** The whole selection: the best candidates of distinct keys among those that pass. */
  method SelectRelevantCandidates(locale: Locale, candidates: seq<Candidate>, query: Query)
    returns (selected: seq<Candidate>, picks: seq<Ranked>)
    ensures IsSelection(Passing(Judged(locale, query, candidates)), query.topK, picks)
    ensures |selected| == |picks|
    ensures forall i :: 0 <= i < |picks| ==> picks[i].at < |candidates| && selected[i] == candidates[picks[i].at]
  {
    var ranked := RankCandidates(locale, candidates, query);
    var sorted := StableSort(ranked);
    StableSortSorts(ranked);
    picks := PickBest(sorted, query.topK);
    SelectionOfPermutation(sorted, ranked, query.topK, picks);
    assert forall i :: 0 <= i < |picks| ==> IsBest(ranked, picks[i]);
    selected := Items(candidates, picks);
  }

  // ---------- the selection is determined ----------

  lemma {:induction false} SortedAgree(a: seq<Ranked>, b: seq<Ranked>)
    requires Sorted(a) && Sorted(b) && forall x :: x in a <==> x in b
    ensures a == b
  {
    assert (a != [] ==> a[0] in a) && (b != [] ==> b[0] in b);
    if a != [] {
      var i :| 0 <= i < |b| && b[i] == a[0];
      var j :| 0 <= j < |a| && a[j] == b[0];
      assert a[0] == b[0];
      forall x ensures x in a[1..] <==> x in b[1..] {
        if x in a[1..] { TailMember(a, x); TailMember(b, x); }
        if x in b[1..] { TailMember(a, x); TailMember(b, x); }
      }
      SortedAgree(a[1..], b[1..]);
      assert a == [a[0]] + a[1..] && b == [b[0]] + b[1..];
    }
  }

  lemma {:induction false} TailMember(a: seq<Ranked>, x: Ranked)
    requires Sorted(a) && a != []
    ensures x in a[1..] <==> x in a && x != a[0]
  {
    assert a == [a[0]] + a[1..];
    if x in a[1..] {
      var i :| 0 <= i < |a[1..]| && a[1..][i] == x;
      assert Before(a[0], a[i + 1]);
    }
  }

  /** What a selection leaves out though another contains it comes after everything selected. */
  lemma {:induction false} LeftOutComesLater(ranked: seq<Ranked>, topK: int, a: seq<Ranked>, b: seq<Ranked>, x: Ranked)
    requires IsSelection(ranked, topK, a) && IsSelection(ranked, topK, b) && x in a && x !in b
    ensures forall z :: z in b ==> Before(z, x)
  {
    var i :| 0 <= i < |a| && a[i] == x;
    assert IsBest(ranked, a[i]) && IsDominated(b, topK, x);
    forall z | z in b ensures Before(z, x) {
      var j :| 0 <= j < |b| && b[j] == z;
      assert IsBest(ranked, b[j]);
    }
  }

  lemma {:induction false} NothingIsLeftOut(ranked: seq<Ranked>, topK: int, a: seq<Ranked>, b: seq<Ranked>, x: Ranked)
    requires IsSelection(ranked, topK, a) && IsSelection(ranked, topK, b) && x in a
    ensures x in b
  {
    if x !in b {
      LeftOutComesLater(ranked, topK, a, b, x);
      var y := Missing(a, b, x);
      LeftOutComesLater(ranked, topK, b, a, y);
      assert false;
    }
  }

  /**
   Two lists of one length without repetition: if the second misses an element of the first, the
   first misses one of the second.
   */
  lemma {:induction false} Missing(a: seq<Ranked>, b: seq<Ranked>, x: Ranked) returns (y: Ranked)
    requires |a| == |b| && Sorted(a) && Sorted(b) && x in a && x !in b
    ensures y in b && y !in a
  {
    var s, t := set z | z in a, set z | z in b;
    SizeOfSorted(a);
    SizeOfSorted(b);
    if t <= s {
      SubsetIsSmaller(t, s - {x});
      assert false;
    }
    y :| y in t && y !in s;
  }

  lemma {:induction false} SizeOfSorted(a: seq<Ranked>)
    requires Sorted(a)
    ensures |set z | z in a| == |a|
  {
    if a != [] {
      SizeOfSorted(a[1..]);
      TailMember(a, a[0]);
      assert (set z | z in a) == (set z | z in a[1..]) + {a[0]} by {
        assert a == [a[0]] + a[1..];
      }
    }
  }

  /** There is only one selection. */
  lemma {:induction false} SelectionIsUnique(ranked: seq<Ranked>, topK: int, a: seq<Ranked>, b: seq<Ranked>)
    requires IsSelection(ranked, topK, a) && IsSelection(ranked, topK, b)
    ensures a == b
  {
    forall x ensures x in a <==> x in b {
      if x in a { NothingIsLeftOut(ranked, topK, a, b, x); }
      if x in b { NothingIsLeftOut(ranked, topK, b, a, x); }
    }
    SortedAgree(a, b);
  }
}
