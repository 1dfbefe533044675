/**
 Splitting text into overlapping chunks near whitespace: when the loop stops, what the
 chunks cover, and how whole words survive the cuts.
 */
module Chunking {
  import opened Text

  // ---------- one iteration ----------

  /** `c.find(" ", low, high)` */
  function Find(c: string, low: nat, high: nat): (r: Option<nat>)
    requires low <= high <= |c|
    ensures r.Some? ==> low <= r.value < high && c[r.value] == ' ' && forall i :: low <= i < r.value ==> c[i] != ' '
    ensures r.None? ==> forall i :: low <= i < high ==> c[i] != ' '
    decreases high - low
  {
    if low == high then None else if c[low] == ' ' then Some(low) else Find(c, low + 1, high)
  }

  /** `c.rfind(" ", low, high)` */
  function FindLast(c: string, low: nat, high: nat): (r: Option<nat>)
    requires low <= high <= |c|
    ensures r.Some? ==> low <= r.value < high && c[r.value] == ' ' && forall i :: r.value < i < high ==> c[i] != ' '
    ensures r.None? ==> forall i :: low <= i < high ==> c[i] != ' '
    decreases high - low
  {
    if low == high then None else if c[high - 1] == ' ' then Some(high - 1) else FindLast(c, low, high - 1)
  }

  datatype Size = Size(target: int, overlap: int)

  predicate Accepted(size: Size) {
    size.target >= 200 && 0 <= size.overlap < size.target
  }

  /** Where a chunk that starts at `start` ends. */
  function EndOf(c: string, size: Size, start: nat): (end: nat)
    requires Accepted(size) && start < |c|
    ensures start < end <= |c| && end <= start + size.target
    ensures end < |c| ==> end >= start + size.target / 2
  {
    var proposed := if start + size.target < |c| then start + size.target else |c|;
    if proposed == |c| then proposed
    else
      var boundary := FindLast(c, start + size.target / 2, proposed + 1);
      if boundary.Some? && boundary.value > start then boundary.value else proposed
  }

  /** Where the chunk after one that ends at `end` starts. */
  function NextStart(c: string, size: Size, end: nat): (start: nat)
    requires Accepted(size) && end <= |c|
    ensures start <= end && end <= start + size.overlap
  {
    var next := if end >= size.overlap then end - size.overlap else 0;
    var boundary := Find(c, next, end);
    if boundary.Some? then boundary.value + 1 else next
  }

  // ---------- complete runs ----------

  datatype Span = Span(start: nat, end: nat)

  /** The spans of a run of the loop that reaches its `break`. */
  ghost predicate IsRun(c: string, size: Size, spans: seq<Span>)
    requires Accepted(size)
  {
    && spans != [] && spans[0].start == 0 && spans[|spans| - 1].end == |c|
    && (forall i :: 0 <= i < |spans| ==> IsSpan(c, size, spans[i]))
    && forall i :: 0 <= i < |spans| - 1 ==> Follows(c, size, spans[i], spans[i + 1])
  }

  ghost predicate IsSpan(c: string, size: Size, span: Span)
    requires Accepted(size)
  {
    span.start < |c| && span.end == EndOf(c, size, span.start)
  }

  ghost predicate Follows(c: string, size: Size, span: Span, next: Span)
    requires Accepted(size)
  {
    span.end < |c| && next.start == NextStart(c, size, span.end)
  }

  /** A blank at which a chunk that starts at `start` may be cut: in the second half of what the target allows. */
  predicate IsCut(c: string, size: Size, start: int, at: int) {
    0 <= start + size.target / 2 <= at <= start + size.target && at < |c| && c[at] == ' '
  }

  /**
   A chunk that the target leaves room for runs to the end of the text. Any other ends at the last
   blank at which it may be cut, and where there is none takes the whole target.
   */
  lemma {:induction false} SpanEndsAtLastCut(c: string, size: Size, span: Span)
    requires Accepted(size)
    ensures IsSpan(c, size, span) <==>
            && span.start < |c|
            && if |c| <= span.start + size.target then span.end == |c|
               else if exists at :: IsCut(c, size, span.start, at) then
                 IsCut(c, size, span.start, span.end) && forall at :: IsCut(c, size, span.start, at) ==> at <= span.end
               else span.end == span.start + size.target
  {
    if span.start < |c| && span.start + size.target < |c| {
      var found := FindLast(c, span.start + size.target / 2, span.start + size.target + 1);
      assert found.Some? ==> IsCut(c, size, span.start, found.value);
    }
  }

  /** A blank of the last `overlap` characters before an end. */
  predicate IsShared(c: string, size: Size, end: int, at: int) {
    0 <= at < end <= |c| && end - size.overlap <= at && c[at] == ' '
  }

  /** The next chunk starts behind the first blank of the overlap, or, where it has none, with the overlap. */
  lemma {:induction false} NextStartsBehindFirstBlank(c: string, size: Size, span: Span, next: Span)
    requires Accepted(size) && span.end <= |c|
    ensures Follows(c, size, span, next) <==>
            && span.end < |c|
            && if exists at :: IsShared(c, size, span.end, at) then
                 && next.start > 0 && IsShared(c, size, span.end, next.start - 1)
                 && forall at :: IsShared(c, size, span.end, at) ==> next.start - 1 <= at
               else next.start == if span.end >= size.overlap then span.end - size.overlap else 0
  {
    var low := if span.end >= size.overlap then span.end - size.overlap else 0;
    var found := Find(c, low, span.end);
    assert found.Some? ==> IsShared(c, size, span.end, found.value);
  }

  /** The loop stops on this text. */
  ghost predicate Terminates(c: string, size: Size)
    requires Accepted(size)
  {
    exists spans :: IsRun(c, size, spans)
  }

  /** Below half the target every span moves on, and the next one ends further by what is left of that half. */
  lemma {:induction false} SpansAdvance(c: string, size: Size, span: Span, next: Span)
    requires Accepted(size) && size.overlap < size.target / 2
    requires IsSpan(c, size, span) && Follows(c, size, span, next) && IsSpan(c, size, next)
    ensures span.start < next.start
    ensures span.end < next.end
    ensures next.end < |c| ==> next.end >= span.end + size.target / 2 - size.overlap
  {
  }

  lemma {:induction false} RunFrom(c: string, size: Size, start: nat) returns (spans: seq<Span>)
    requires Accepted(size) && size.overlap < size.target / 2 && start < |c|
    ensures spans != [] && spans[0].start == start && spans[|spans| - 1].end == |c|
    ensures forall i :: 0 <= i < |spans| ==> IsSpan(c, size, spans[i])
    ensures forall i :: 0 <= i < |spans| - 1 ==> Follows(c, size, spans[i], spans[i + 1])
    decreases |c| - start
  {
    var span := Span(start, EndOf(c, size, start));
    if span.end == |c| {
      spans := [span];
    } else {
      var rest := RunFrom(c, size, NextStart(c, size, span.end));
      spans := [span] + rest;
    }
  }

  function Letters(n: nat): (s: string)
    ensures |s| == n && forall i :: 0 <= i < n ==> s[i] == 'a'
  {
    seq(n, _ => 'a')
  }

  function TwoWords(m: nat, n: nat): string {
    Letters(m) + " " + Letters(n)
  }

  lemma {:induction false} TwoWordsAreClean(m: nat, n: nat)
    requires m > 0 && n > 0
    ensures Cleaned(TwoWords(m, n)) == TwoWords(m, n)
  {
    var words := [Letters(m), Letters(n)];
    assert words[1..] == [Letters(n)];
    assert Join(words) == TwoWords(m, n);
    WordsOfJoin(words);
  }

  /** At half the target and above, the loop is stuck at the start of this text. */
  lemma {:induction false} StuckText(size: Size)
    requires Accepted(size) && size.overlap >= size.target / 2
    ensures var h := size.target / 2;
            EndOf(TwoWords(h, size.target), size, 0) == h && NextStart(TwoWords(h, size.target), size, h) == 0
  {
    var h := size.target / 2;
    var c := TwoWords(h, size.target);
    assert forall i :: 0 <= i < |c| ==> c[i] == if i == h then ' ' else 'a';
    assert h < size.target;
    var b := FindLast(c, h, size.target + 1);
    assert c[h] == ' ' && b.Some?;
  }

  lemma {:induction false} StuckRunNeverEnds(c: string, size: Size, spans: seq<Span>, k: nat)
    requires Accepted(size) && IsRun(c, size, spans) && k < |spans|
    requires EndOf(c, size, 0) < |c| && NextStart(c, size, EndOf(c, size, 0)) == 0
    ensures spans[k].start == 0
  {
    if k > 0 {
      StuckRunNeverEnds(c, size, spans, k - 1);
      assert Follows(c, size, spans[k - 1], spans[k]);
    }
  }

  /** The loop stops on every text exactly when the overlap is below half the target. */
  lemma {:induction false} TerminatesIffOverlapIsSmall(size: Size)
    requires Accepted(size)
    ensures (forall text :: Cleaned(text) != "" ==> Terminates(Cleaned(text), size)) <==> size.overlap < size.target / 2
  {
    if size.overlap < size.target / 2 {
      forall text | Cleaned(text) != "" ensures Terminates(Cleaned(text), size) {
        var spans := RunFrom(Cleaned(text), size, 0);
        assert IsRun(Cleaned(text), size, spans);
      }
    } else {
      var c := TwoWords(size.target / 2, size.target);
      StuckText(size);
      TwoWordsAreClean(size.target / 2, size.target);
      forall spans | IsRun(c, size, spans) ensures false {
        StuckRunNeverEnds(c, size, spans, |spans| - 1);
      }
      assert !Terminates(Cleaned(c), size);
    }
  }

  /** A text has at most one complete run. */
  lemma {:induction false} RunsAgree(c: string, size: Size, a: seq<Span>, b: seq<Span>, k: nat)
    requires Accepted(size) && IsRun(c, size, a) && IsRun(c, size, b) && k < |a|
    ensures k < |b| && a[k] == b[k]
  {
    if k > 0 {
      RunsAgree(c, size, a, b, k - 1);
      assert Follows(c, size, a[k - 1], a[k]);
      assert k < |b|;
      assert Follows(c, size, b[k - 1], b[k]);
    }
    assert IsSpan(c, size, a[k]) && IsSpan(c, size, b[k]);
  }

  lemma {:induction false} RunIsUnique(c: string, size: Size, a: seq<Span>, b: seq<Span>)
    requires Accepted(size) && IsRun(c, size, a) && IsRun(c, size, b)
    ensures a == b
  {
    RunsAgree(c, size, a, b, |a| - 1);
    RunsAgree(c, size, b, a, |b| - 1);
    forall k | 0 <= k < |a| ensures a[k] == b[k] {
      RunsAgree(c, size, a, b, k);
    }
  }

  // ---------- the chunks ----------

  predicate InBounds(c: string, span: Span) {
    span.start < span.end <= |c|
  }

  function ChunkOf(c: string, span: Span): string
    requires InBounds(c, span)
  {
    // `s.strip()`
    Strip(IsSpace, c[span.start..span.end])
  }

  function ChunksOf(c: string, spans: seq<Span>): (r: seq<string>)
    requires forall i :: 0 <= i < |spans| ==> InBounds(c, spans[i])
    ensures |r| == |spans| && forall i :: 0 <= i < |r| ==> r[i] == ChunkOf(c, spans[i])
  {
    seq(|spans|, i requires 0 <= i < |spans| => ChunkOf(c, spans[i]))
  }

  /** A size is refused, but only for a text with words. */
  lemma {:induction false} RefusedIff(text: string, size: Size)
    ensures IsChunked(text, size, None) <==>
            Words(text) != [] && (size.target < 200 || size.overlap < 0 || size.overlap >= size.target)
    ensures Words(text) == [] ==> IsChunked(text, size, Some([]))
  {
    CleanedKeepsWords(text);
  }

  lemma {:induction false} SpansAreInBounds(c: string, size: Size, spans: seq<Span>)
    requires Accepted(size) && IsRun(c, size, spans)
    ensures forall i :: 0 <= i < |spans| ==> InBounds(c, spans[i])
  {
    forall i | 0 <= i < |spans| ensures InBounds(c, spans[i]) {
      assert IsSpan(c, size, spans[i]);
    }
  }

  /** What chunking a text yields: nothing for a bad size, no chunk for a blank text, else the chunks of the run. */
  ghost predicate IsChunked(text: string, size: Size, r: Option<seq<string>>) {
    var c := Cleaned(text);
    if c == "" then r == Some([])
    else if !Accepted(size) then r == None
    else exists spans :: IsRun(c, size, spans) && AreChunks(c, spans, r)
  }

  ghost predicate AreChunks(c: string, spans: seq<Span>, r: Option<seq<string>>) {
    (forall i :: 0 <= i < |spans| ==> InBounds(c, spans[i])) && r == Some(ChunksOf(c, spans))
  }

  method ChunkText(text: string, size: Size) returns (r: Option<seq<string>>)
    requires Cleaned(text) != "" && Accepted(size) ==> Terminates(Cleaned(text), size)
    ensures IsChunked(text, size, r)
  {
    var cleaned := Cleaned(text);
    if cleaned == "" {
      return Some([]);
    }
    if !Accepted(size) {
      return None;
    }
    ghost var run: seq<Span> :| IsRun(cleaned, size, run);
    SpansAreInBounds(cleaned, size, run);
    if |cleaned| <= size.target {
      CleanedKeepsWords(text);
      WholeTextIsOneRun(cleaned, size, run);
      return Some([cleaned]);
    }
    var chunks := CutChunks(cleaned, size, run);
    return Some(chunks);
  }

  /** The chunking loop, along the run it is known to make. */
  method CutChunks(cleaned: string, size: Size, ghost run: seq<Span>) returns (chunks: seq<string>)
    requires Accepted(size) && cleaned != "" && IsRun(cleaned, size, run)
    requires forall i :: 0 <= i < |run| ==> InBounds(cleaned, run[i])
    ensures chunks == ChunksOf(cleaned, run)
  {
    chunks := [];
    var start: nat := 0;
    ghost var k: nat := 0;
    ghost var all := ChunksOf(cleaned, run);
    while start < |cleaned|
      invariant k < |run| && start == run[k].start && start < |cleaned|
      invariant chunks == all[..k]
      decreases |run| - k
    {
      assert IsSpan(cleaned, size, run[k]);
      LastEndsTheRun(cleaned, size, run, k);
      var end := EndOf(cleaned, size, start);
      chunks := chunks + [ChunkOf(cleaned, Span(start, end))];
      assert all[..k] + [all[k]] == all[..k + 1];
      if end == |cleaned| {
        return;
      }
      assert Follows(cleaned, size, run[k], run[k + 1]);
      start := NextStart(cleaned, size, end);
      k := k + 1;
    }
  }

  /** Only the last span of a run reaches the end of the text. */
  lemma {:induction false} LastEndsTheRun(c: string, size: Size, run: seq<Span>, k: nat)
    requires Accepted(size) && IsRun(c, size, run) && k < |run|
    ensures run[k].end == |c| <==> k == |run| - 1
  {
    if k < |run| - 1 {
      assert Follows(c, size, run[k], run[k + 1]);
    }
  }

  /** A clean text that needs no cut is its own chunk. */
  lemma {:induction false} WholeTextIsOneRun(c: string, size: Size, run: seq<Span>)
    requires Accepted(size) && c != "" && |c| <= size.target && IsRun(c, size, run) && IsClean(c)
    ensures AreChunks(c, run, Some([c]))
  {
    assert IsSpan(c, size, run[0]);
    LastEndsTheRun(c, size, run, 0);
    assert c[0..|c|] == c;
    assert |run| == 1 && InBounds(c, run[0]) && ChunkOf(c, run[0]) == c;
    assert ChunksOf(c, run) == [c];
  }

  /** Every chunk keeps its span but for a blank that leads it; it is never empty, never longer than the target. */
  lemma {:induction false} ChunkIsTrimmedSpan(c: string, size: Size, span: Span)
    requires Accepted(size) && IsClean(c) && IsSpan(c, size, span)
    ensures var start := if c[span.start] == ' ' then span.start + 1 else span.start;
            start < span.end <= |c| && !IsSpace(c[start]) && !IsSpace(c[span.end - 1])
            && ChunkOf(c, span) == c[start..span.end]
    ensures 0 < |ChunkOf(c, span)| <= size.target
  {
    LastCharacterIsNoSpace(c, size, span);
    var s := c[span.start..span.end];
    assert s[|s| - 1] == c[span.end - 1];
    if c[span.start] == ' ' {
      assert !IsDouble(c, span.start) && s[0] == ' ' && s[1..] == c[span.start + 1..span.end];
      assert s[1..][0] == c[span.start + 1];
      assert StripLeft(IsSpace, s[1..]) == s[1..];
    } else {
      assert s[0] == c[span.start];
      assert StripLeft(IsSpace, s) == s;
    }
  }

  lemma {:induction false} LastCharacterIsNoSpace(c: string, size: Size, span: Span)
    requires Accepted(size) && IsClean(c) && IsSpan(c, size, span)
    ensures !IsSpace(c[span.end - 1])
  {
    if span.end < |c| {
      assert c[span.end] == ' ' || c[span.end - 1] != ' ';
      assert !IsDouble(c, span.end - 1);
    }
  }

  // ---------- coverage ----------

  lemma {:induction false} RunCoversUpTo(c: string, size: Size, spans: seq<Span>, k: nat, p: nat) returns (i: nat)
    requires Accepted(size) && IsRun(c, size, spans) && k < |spans| && p < spans[k].end
    ensures i <= k && spans[i].start <= p < spans[i].end
  {
    if spans[k].start <= p {
      i := k;
    } else {
      assert Follows(c, size, spans[k - 1], spans[k]);
      i := RunCoversUpTo(c, size, spans, k - 1, p);
    }
  }

  predicate Covered(spans: seq<Span>, p: nat) {
    exists i :: 0 <= i < |spans| && spans[i].start <= p < spans[i].end
  }

  /** The spans of a run leave no gap, and neighbours overlap by at most `overlap`. */
  lemma {:induction false} RunCovers(c: string, size: Size, spans: seq<Span>)
    requires Accepted(size) && IsRun(c, size, spans)
    ensures forall p :: 0 <= p < |c| ==> Covered(spans, p)
    ensures forall i :: 0 <= i < |spans| - 1 ==>
              spans[i + 1].start <= spans[i].end <= spans[i + 1].start + size.overlap
  {
    forall p | 0 <= p < |c| ensures Covered(spans, p) {
      var i := RunCoversUpTo(c, size, spans, |spans| - 1, p);
    }
    forall i | 0 <= i < |spans| - 1
      ensures spans[i + 1].start <= spans[i].end <= spans[i + 1].start + size.overlap
    {
      assert IsSpan(c, size, spans[i]) && Follows(c, size, spans[i], spans[i + 1]);
    }
  }

  // ---------- whole words ----------

  /** The span starts and ends at word boundaries. */
  predicate IsWhole(c: string, span: Span) {
    && InBounds(c, span)
    && (span.start == 0 || c[span.start - 1] == ' ')
    && c[span.start] != ' '
    && (span.end == |c| || c[span.end] == ' ')
  }

  predicate ShortWords(c: string, limit: int) {
    forall w :: w in Words(c) ==> |w| < limit
  }

  /** A stretch without whitespace lies inside one word. */
  lemma {:induction false} StretchInWord(c: string, low: nat, high: nat) returns (w: string)
    requires low < high <= |c| && forall i :: low <= i < high ==> !IsSpace(c[i])
    ensures w in Words(c) && |w| >= high - low
    decreases |c|
  {
    if IsSpace(c[0]) {
      w := StretchInWord(c[1..], low - 1, high - 1);
    } else {
      var first := FirstRun(c, Word);
      if low < |first| {
        w := first;
      } else {
        w := StretchInWord(c[|first|..], low - |first|, high - |first|);
      }
    }
  }

  /** With words below the limit, any stretch of that length holds a blank. */
  lemma {:induction false} StretchHasBlank(c: string, limit: nat, low: nat, high: nat)
    requires IsClean(c) && ShortWords(c, limit) && low + limit <= high <= |c| && limit > 0
    ensures exists i :: low <= i < high && c[i] == ' '
  {
    if forall i :: low <= i < high ==> !IsSpace(c[i]) {
      var w := StretchInWord(c, low, high);
      assert false;
    }
  }

  /** With words shorter than the overlap, spans are cut at whole words and neighbours share some. */
  lemma {:induction false} NextSpanIsWhole(c: string, size: Size, span: Span, next: Span)
    requires Accepted(size) && 0 < size.overlap < size.target / 2 && IsClean(c) && ShortWords(c, size.overlap)
    requires IsSpan(c, size, span) && Follows(c, size, span, next) && IsWhole(c, span)
    ensures span.start + 1 < next.start < span.end && c[next.start - 1] == ' ' && c[next.start] != ' '
  {
    StretchHasBlank(c, size.overlap, span.end - size.overlap, span.end);
    LastCharacterIsNoSpace(c, size, span);
    assert c[next.start - 1] == ' ' && !IsDouble(c, next.start - 1);
  }

  lemma {:induction false} EndIsWhole(c: string, size: Size, span: Span)
    requires Accepted(size) && 0 < size.overlap < size.target / 2 && IsClean(c) && ShortWords(c, size.overlap)
    requires IsSpan(c, size, span)
    ensures span.end == |c| || c[span.end] == ' '
  {
    if span.start + size.target < |c| {
      StretchHasBlank(c, size.overlap, span.start + size.target / 2, span.start + size.target + 1);
    }
  }

  lemma {:induction false} SpansAreWhole(c: string, size: Size, spans: seq<Span>, k: nat)
    requires Accepted(size) && 0 < size.overlap < size.target / 2 && IsClean(c) && ShortWords(c, size.overlap)
    requires IsRun(c, size, spans) && k < |spans|
    ensures IsWhole(c, spans[k])
  {
    assert IsSpan(c, size, spans[k]);
    EndIsWhole(c, size, spans[k]);
    if k > 0 {
      SpansAreWhole(c, size, spans, k - 1);
      assert IsSpan(c, size, spans[k - 1]) && Follows(c, size, spans[k - 1], spans[k]);
      NextSpanIsWhole(c, size, spans[k - 1], spans[k]);
    }
  }

  /** The last `k` words of `a` are the first `k` of `b`, and there are some. */
  predicate Share(a: seq<string>, b: seq<string>, k: nat) {
    0 < k <= |a| && k <= |b| && a[|a| - k..] == b[..k]
  }

  /** Word lists laid end to end, leaving out of each the words it shares with the one before. */
  function Glue(lists: seq<seq<string>>, shared: seq<nat>): seq<string>
    requires |lists| == |shared| + 1
    requires forall i :: 0 <= i < |shared| ==> shared[i] <= |lists[i + 1]|
  {
    if shared == [] then lists[0]
    else
      var n := |shared| - 1;
      Glue(lists[..n + 1], shared[..n]) + lists[n + 1][shared[n]..]
  }

  /** Two whole spans, each reaching beyond the other, with words between. */
  predicate AreNeighbours(c: string, a: Span, b: Span) {
    && InBounds(c, a) && InBounds(c, b)
    && a.start < b.start - 1 && b.start < a.end < b.end
    && c[b.start - 1] == ' ' && c[a.end] == ' '
    && Words(c[b.start..a.end]) != []
  }

  /** How neighbouring spans divide the words. */
  lemma {:induction false} NeighboursShareWords(c: string, a: Span, b: Span)
    returns (shared: seq<string>, rest: seq<string>)
    requires AreNeighbours(c, a, b)
    ensures shared == Words(c[b.start..a.end]) && shared != []
    ensures Words(c[a.start..a.end]) == Words(c[a.start..b.start - 1]) + shared
    ensures Words(c[b.start..b.end]) == shared + rest
    ensures Words(c[..b.end]) == Words(c[..a.end]) + rest
  {
    shared, rest := Words(c[b.start..a.end]), Words(c[a.end + 1..b.end]);
    SplitAt(c, a.start, b.start - 1, b.start, a.end);
    SplitAt(c, b.start, a.end, a.end + 1, b.end);
    SplitPrefix(c, a.end, a.end + 1, b.end);
  }

  lemma {:induction false} HasWord(c: string, low: nat, high: nat)
    requires IsClean(c) && low < high <= |c| && c[low] != ' '
    ensures Words(c[low..high]) != []
  {
    assert c[low..high][0] == c[low];
  }

  lemma {:induction false} SplitAt(c: string, low: nat, blank: nat, next: nat, high: nat)
    requires low <= blank < high <= |c| && c[blank] == ' ' && next == blank + 1
    ensures Words(c[low..high]) == Words(c[low..blank]) + Words(c[next..high])
  {
    assert c[low..high] == c[low..blank] + [' '] + c[next..high];
    RunsSplit(c[low..blank], ' ', c[next..high], Word);
  }

  lemma {:induction false} SplitPrefix(c: string, blank: nat, next: nat, high: nat)
    requires blank < high <= |c| && c[blank] == ' ' && next == blank + 1
    ensures Words(c[..high]) == Words(c[..blank]) + Words(c[next..high])
  {
    assert c[..high] == c[..blank] + [' '] + c[next..high];
    RunsSplit(c[..blank], ' ', c[next..high], Word);
  }

  function WordLists(chunks: seq<string>): (lists: seq<seq<string>>)
    ensures |lists| == |chunks| && forall i :: 0 <= i < |lists| ==> lists[i] == Words(chunks[i])
  {
    seq(|chunks|, i requires 0 <= i < |chunks| => Words(chunks[i]))
  }

  /** Neighbouring word lists share words, and glued over them give `whole`. */
  ghost predicate GluesTo(lists: seq<seq<string>>, shared: seq<nat>, whole: seq<string>) {
    && |lists| == |shared| + 1
    && (forall i :: 0 <= i < |shared| ==> Share(lists[i], lists[i + 1], shared[i]))
    && Glue(lists, shared) == whole
  }

  lemma {:induction false} GlueOneMore(lists: seq<seq<string>>, shared: seq<nat>, whole: seq<string>,
                                       common: seq<string>, rest: seq<string>, before: seq<string>)
    requires GluesTo(lists, shared, whole) && common != []
    requires lists[|lists| - 1] == before + common
    ensures GluesTo(lists + [common + rest], shared + [|common|], whole + rest)
  {
    var more, counts := lists + [common + rest], shared + [|common|];
    var n := |shared|;
    assert more[..n + 1] == lists && counts[..n] == shared;
    assert more[n + 1][counts[n]..] == rest;
    forall i | 0 <= i < |counts| ensures Share(more[i], more[i + 1], counts[i]) {
      if i < n {
        assert Share(lists[i], lists[i + 1], shared[i]);
      }
    }
  }

  lemma {:induction false} SpansAreNeighbours(c: string, size: Size, spans: seq<Span>, k: nat)
    requires Accepted(size) && 0 < size.overlap < size.target / 2 && IsClean(c) && ShortWords(c, size.overlap)
    requires IsRun(c, size, spans) && 0 < k < |spans|
    ensures AreNeighbours(c, spans[k - 1], spans[k])
  {
    var a, b := spans[k - 1], spans[k];
    SpansAreWhole(c, size, spans, k - 1);
    SpansAreWhole(c, size, spans, k);
    assert IsSpan(c, size, a) && IsSpan(c, size, b) && Follows(c, size, a, b);
    NextSpanIsWhole(c, size, a, b);
    SpansAdvance(c, size, a, b);
    HasWord(c, b.start, a.end);
  }

  function SpanWords(c: string, span: Span): seq<string> {
    if InBounds(c, span) then Words(c[span.start..span.end]) else []
  }

  function SpanLists(c: string, spans: seq<Span>): (lists: seq<seq<string>>)
    ensures |lists| == |spans| && forall i :: 0 <= i < |lists| ==> lists[i] == SpanWords(c, spans[i])
  {
    seq(|spans|, i requires 0 <= i < |spans| => SpanWords(c, spans[i]))
  }

  lemma {:induction false} SpanListsNext(c: string, spans: seq<Span>, k: nat)
    requires k < |spans|
    ensures SpanLists(c, spans[..k + 1]) == SpanLists(c, spans[..k]) + [SpanWords(c, spans[k])]
  {
  }

  lemma {:induction false} GlueNext(c: string, spans: seq<Span>, k: nat, counts: seq<nat>) returns (shared: seq<nat>)
    requires 0 < k < |spans| && AreNeighbours(c, spans[k - 1], spans[k])
    requires GluesTo(SpanLists(c, spans[..k]), counts, Words(c[..spans[k - 1].end]))
    ensures GluesTo(SpanLists(c, spans[..k + 1]), shared, Words(c[..spans[k].end]))
  {
    var a, b := spans[k - 1], spans[k];
    var lists := SpanLists(c, spans[..k]);
    var common, rest := NeighboursShareWords(c, a, b);
    var n: nat := |common|;
    shared := counts + [n];
    assert lists[|lists| - 1] == SpanWords(c, a);
    SpanListsNext(c, spans, k);
    GlueOneMore(lists, counts, Words(c[..a.end]), common, rest, Words(c[a.start..b.start - 1]));
  }

  lemma {:induction false} GlueUpTo(c: string, size: Size, spans: seq<Span>, k: nat) returns (shared: seq<nat>)
    requires Accepted(size) && 0 < size.overlap < size.target / 2 && IsClean(c) && ShortWords(c, size.overlap)
    requires IsRun(c, size, spans) && k < |spans|
    ensures spans[k].end <= |c| && GluesTo(SpanLists(c, spans[..k + 1]), shared, Words(c[..spans[k].end]))
  {
    if k == 0 {
      var b := spans[0];
      assert IsSpan(c, size, b);
      shared := [];
      assert c[0..b.end] == c[..b.end];
      assert SpanLists(c, spans[..1])[0] == Words(c[..b.end]);
    } else {
      SpansAreNeighbours(c, size, spans, k);
      var counts := GlueUpTo(c, size, spans, k - 1);
      shared := GlueNext(c, spans, k, counts);
    }
  }

  lemma {:induction false} WholeSpanIsChunk(c: string, size: Size, spans: seq<Span>, k: nat)
    requires Accepted(size) && 0 < size.overlap < size.target / 2 && IsClean(c) && ShortWords(c, size.overlap)
    requires IsRun(c, size, spans) && k < |spans|
    ensures InBounds(c, spans[k]) && ChunkOf(c, spans[k]) == c[spans[k].start..spans[k].end]
  {
    assert IsSpan(c, size, spans[k]);
    SpansAreWhole(c, size, spans, k);
    ChunkIsTrimmedSpan(c, size, spans[k]);
  }

  lemma {:induction false} WholeSpansAreChunks(c: string, size: Size, spans: seq<Span>, chunks: seq<string>)
    requires Accepted(size) && 0 < size.overlap < size.target / 2 && IsClean(c) && ShortWords(c, size.overlap)
    requires IsRun(c, size, spans) && AreChunks(c, spans, Some(chunks))
    ensures SpanLists(c, spans) == WordLists(chunks)
  {
    forall i | 0 <= i < |spans| ensures SpanLists(c, spans)[i] == WordLists(chunks)[i] {
      WholeSpanIsChunk(c, size, spans, i);
    }
  }

  lemma {:induction false} SpansGlue(c: string, size: Size, spans: seq<Span>) returns (shared: seq<nat>)
    requires Accepted(size) && 0 < size.overlap < size.target / 2 && IsClean(c) && ShortWords(c, size.overlap)
    requires IsRun(c, size, spans)
    ensures GluesTo(SpanLists(c, spans), shared, Words(c))
  {
    shared := GlueUpTo(c, size, spans, |spans| - 1);
    assert c[..spans[|spans| - 1].end] == c;
    assert spans[..|spans| - 1 + 1] == spans;
  }

  lemma {:induction false} RunKeepsWords(c: string, size: Size, spans: seq<Span>, chunks: seq<string>)
    requires Accepted(size) && 0 < size.overlap < size.target / 2 && IsClean(c) && ShortWords(c, size.overlap)
    requires IsRun(c, size, spans) && AreChunks(c, spans, Some(chunks))
    ensures exists shared :: GluesTo(WordLists(chunks), shared, Words(c))
  {
    var shared := SpansGlue(c, size, spans);
    WholeSpansAreChunks(c, size, spans, chunks);
  }

  /**
   When every word is shorter than the overlap, no word is cut: neighbouring chunks share
   words, and gluing the chunks over them gives back the words of the text.
   */
  lemma {:induction false} ChunksKeepWords(text: string, size: Size, chunks: seq<string>)
    requires Accepted(size) && 0 < size.overlap < size.target / 2 && ShortWords(text, size.overlap)
    requires Cleaned(text) != "" && IsChunked(text, size, Some(chunks))
    ensures exists shared :: GluesTo(WordLists(chunks), shared, Words(text))
  {
    var c := Cleaned(text);
    CleanedKeepsWords(text);
    var spans: seq<Span> :| IsRun(c, size, spans) && AreChunks(c, spans, Some(chunks));
    RunKeepsWords(c, size, spans, chunks);
  }
}
