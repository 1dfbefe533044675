/**
 The rules by which results are selected, stated from the candidate's fields: what a candidate
 is judged on, when it is good enough, and which candidates stand for one resource.
 */
module RelevanceRules {
  import opened Text
  import opened Json
  import opened Relevance

  // ---------- fields ----------

  /** The field is missing, or counts as false. */
  predicate Lacks(candidate: Candidate, name: string) {
    var v := Lookup(candidate, name);
    v.None? || IsFalsy(v.value)
  }

  /** The field has a value, which reads so. */
  predicate ReadsAs(locale: Locale, candidate: Candidate, name: string, s: string) {
    && !Lacks(candidate, name)
    && var v := Lookup(candidate, name).value;
    s == if v.Str? then v.s else locale.show(v)
  }

  predicate IsText(locale: Locale, candidate: Candidate, name: string, s: string) {
    ReadsAs(locale, candidate, name, s) || (Lacks(candidate, name) && s == "")
  }

  /** The snippet, or the text of the chunk, or just the text. */
  predicate IsSnippet(locale: Locale, candidate: Candidate, s: string) {
    || ReadsAs(locale, candidate, "snippet", s)
    || (Lacks(candidate, "snippet") && ReadsAs(locale, candidate, "chunk_text", s))
    || (Lacks(candidate, "snippet") && Lacks(candidate, "chunk_text") && IsText(locale, candidate, "text", s))
  }

  /** The value of the first of two fields that has one. */
  function First(candidate: Candidate, name: string, other: string): Option<Value> {
    if Lacks(candidate, name) then Lookup(candidate, other) else Lookup(candidate, name)
  }

  /** The score is the number in the field, moved into the unit interval; nothing else scores. */
  predicate IsBase(candidate: Candidate, base: real) {
    var v := Lookup(candidate, "score");
    if v.Some? && v.value.Int? then base == if v.value.n >= 1 then 1.0 else 0.0
    else if v.Some? && v.value.Real? then
      0.0 <= base <= 1.0 && (base > v.value.x ==> base == 0.0) && (base < v.value.x ==> base == 1.0)
    else base == 0.0
  }

  lemma {:induction false} TextMeans(locale: Locale, candidate: Candidate, name: string, s: string)
    ensures IsText(locale, candidate, name, s) <==> Shown(locale, Get(candidate, name)) == s
  {
    TruthyMeans(Get(candidate, name));
  }

  lemma {:induction false} SnippetMeans(locale: Locale, candidate: Candidate, s: string)
    ensures IsSnippet(locale, candidate, s) <==> Snippet(locale, candidate) == s
  {
    TruthyMeans(Get(candidate, "snippet"));
    TruthyMeans(Get(candidate, "chunk_text"));
    TruthyMeans(Get(candidate, "text"));
  }

  lemma {:induction false} BaseMeans(candidate: Candidate, base: real)
    ensures IsBase(candidate, base) <==> BoundedScore(Get(candidate, "score")) == base
  {
  }

  // ---------- terms ----------

  predicate IsTokenChar(c: char) {
    'a' <= c <= 'z' || '0' <= c <= '9'
  }

  /** A stretch of lower-case letters and digits of the lowered text that cannot be extended. */
  ghost predicate IsToken(locale: Locale, text: string, t: string) {
    var s := Lower(locale, text);
    exists i: nat, j: nat {:trigger s[i..j]} ::
      && i < j <= |s| && s[i..j] == t && (forall k :: i <= k < j ==> IsTokenChar(s[k]))
      && (i > 0 ==> !IsTokenChar(s[i - 1])) && (j < |s| ==> !IsTokenChar(s[j]))
  }

  /** Lower-casing goes character by character. */
  lemma {:induction false} LowerOfOne(locale: Locale, c: char)
    ensures Lower(locale, [c]) ==
            if 'A' <= c <= 'Z' then [(c as int + 32) as char]
            else if c as int < 128 then [c]
            else locale.fold(c)
  {
    assert Lower(locale, [c][1..]) == "";
    assert LowerChar(locale, c) + "" == LowerChar(locale, c);
  }

  /** Words of a query that say nothing about its subject. */
  predicate IsStopWord(t: string) {
    || t == "a" || t == "an" || t == "and" || t == "are" || t == "documents" || t == "emails"
    || t == "find" || t == "for" || t == "in" || t == "me" || t == "my" || t == "of"
    || t == "on" || t == "related" || t == "research" || t == "the" || t == "to" || t == "with"
  }

  ghost predicate IsTerm(locale: Locale, query: string, t: string) {
    IsToken(locale, query, t) && |t| >= 2 && !IsStopWord(t)
  }

  lemma {:induction false} TokenMeans(locale: Locale, text: string, t: string)
    ensures t in Tokens(locale, text) <==> IsToken(locale, text, t)
  {
    var s := Lower(locale, text);
    RunsAreMaximal(s, Token, t);
    assert forall c :: IsTokenChar(c) <==> Belongs(c, Token);
    forall i: nat, j: nat | i < j <= |s|
      ensures IsRunOf(s[i..j], Token) <==> forall k :: i <= k < j ==> IsTokenChar(s[k])
    {
      assert forall k :: i <= k < j ==> s[i..j][k - i] == s[k];
    }
  }

  lemma {:induction false} StopWordMeans(t: string)
    ensures t in STOP_WORDS <==> IsStopWord(t)
  {
  }

  lemma {:induction false} TermMeans(locale: Locale, query: string, t: string)
    ensures t in MeaningfulTokens(locale, query) <==> IsTerm(locale, query, t)
  {
    TokenMeans(locale, query, t);
    StopWordMeans(t);
  }

  // ---------- judgement ----------

  /** What a candidate is judged on: the query's terms, and those found anywhere or in the title. */
  datatype Evidence = Evidence(
    title: string, snippet: string, base: real, terms: set<string>, found: set<string>, titled: set<string>)

  ghost predicate IsEvidence(locale: Locale, query: string, candidate: Candidate, e: Evidence) {
    && IsText(locale, candidate, "title", e.title)
    && IsSnippet(locale, candidate, e.snippet)
    && IsBase(candidate, e.base)
    && (forall t {:trigger t in e.terms} :: t in e.terms <==> IsTerm(locale, query, t))
    && (forall t {:trigger t in e.found} :: t in e.found <==>
         t in e.terms && (IsToken(locale, e.title, t) || IsToken(locale, e.snippet, t)))
    && forall t {:trigger t in e.titled} :: t in e.titled <==> t in e.terms && IsToken(locale, e.title, t)
  }

  /** Six tenths for the base, three for the share of terms found, one for the share found in the title. */
  function Score(e: Evidence): real {
    0.6 * e.base + 0.3 * Share(e.found, e.terms) + 0.1 * Share(e.titled, e.terms)
  }

  /** The share of the terms that is found; nothing of no terms. */
  function Share(found: set<string>, terms: set<string>): real {
    if terms == {} then 0.0 else |found| as real / |terms| as real
  }

  lemma {:induction false} CoverageIsShare(terms: set<string>, tokens: set<string>)
    ensures Coverage(terms, tokens) == Share(terms * tokens, terms)
  {
  }

  /** No service is named, or that of the candidate is among those named. */
  ghost predicate IsAskedFor(locale: Locale, services: set<string>, candidate: Candidate) {
    services == {} || exists s :: s in services && IsText(locale, candidate, "service", s)
  }

  lemma {:induction false} AskedForMeans(locale: Locale, services: set<string>, candidate: Candidate)
    ensures IsAskedFor(locale, services, candidate) <==>
            (services != {} ==> Service(locale, candidate) in services)
  {
    forall s ensures IsText(locale, candidate, "service", s) <==> Service(locale, candidate) == s {
      TextMeans(locale, candidate, "service", s);
    }
  }

  /** The candidate's service is asked for, its score is high enough, and it has a term or a base of six tenths. */
  ghost predicate IsRelevant(locale: Locale, query: Query, candidate: Candidate, e: Evidence) {
    && IsAskedFor(locale, query.services, candidate)
    && Score(e) >= query.minimum
    && (e.found != {} || e.base >= 0.6)
  }

  function EvidenceOf(locale: Locale, query: string, candidate: Candidate): (e: Evidence)
    ensures IsEvidence(locale, query, candidate, e)
  {
    var title, snippet := Title(locale, candidate), Snippet(locale, candidate);
    var terms := MeaningfulTokens(locale, query);
    var e := Evidence(title, snippet, BoundedScore(Get(candidate, "score")), terms,
                      terms * Tokens(locale, title + " " + snippet), terms * Tokens(locale, title));
    EvidenceMeans(locale, query, candidate, e);
    e
  }

  lemma {:induction false} EvidenceMeans(locale: Locale, query: string, candidate: Candidate, e: Evidence)
    requires e.title == Title(locale, candidate) && e.snippet == Snippet(locale, candidate)
    requires e.base == BoundedScore(Get(candidate, "score")) && e.terms == MeaningfulTokens(locale, query)
    requires e.found == e.terms * Tokens(locale, e.title + " " + e.snippet)
    requires e.titled == e.terms * Tokens(locale, e.title)
    ensures IsEvidence(locale, query, candidate, e)
  {
    TextMeans(locale, candidate, "title", e.title);
    SnippetMeans(locale, candidate, e.snippet);
    BaseMeans(candidate, e.base);
    TokensOfJoined(locale, e.title, e.snippet);
    forall t
      ensures t in e.terms <==> IsTerm(locale, query, t)
      ensures t in Tokens(locale, e.title) <==> IsToken(locale, e.title, t)
      ensures t in Tokens(locale, e.snippet) <==> IsToken(locale, e.snippet, t)
    {
      TermMeans(locale, query, t);
      TokenMeans(locale, e.title, t);
      TokenMeans(locale, e.snippet, t);
    }
  }

  /** The evidence is determined by query and candidate. */
  lemma {:induction false} EvidenceIsUnique(locale: Locale, query: string, candidate: Candidate, e: Evidence)
    requires IsEvidence(locale, query, candidate, e)
    ensures e == EvidenceOf(locale, query, candidate)
  {
    var f := EvidenceOf(locale, query, candidate);
    TextMeans(locale, candidate, "title", e.title);
    TextMeans(locale, candidate, "title", f.title);
    SnippetMeans(locale, candidate, e.snippet);
    SnippetMeans(locale, candidate, f.snippet);
    BaseMeans(candidate, e.base);
    BaseMeans(candidate, f.base);
    assert e.terms == f.terms;
    assert e.found == f.found;
    assert e.titled == f.titled;
  }

  lemma {:induction false} ScoreMeans(locale: Locale, query: Query, candidate: Candidate)
    ensures Score(EvidenceOf(locale, query.text, candidate)) == ScoreOf(locale, query, candidate)
  {
    var e := EvidenceOf(locale, query.text, candidate);
    CoverageIsShare(e.terms, Tokens(locale, e.title + " " + e.snippet));
    CoverageIsShare(e.terms, Tokens(locale, e.title));
  }

  /** A candidate passes exactly when it is relevant, with the score of its evidence. */
  lemma {:induction false} JudgedByEvidence(locale: Locale, query: Query, candidate: Candidate, at: nat, e: Evidence)
    requires IsEvidence(locale, query.text, candidate, e)
    ensures Judge(locale, query, candidate, at).Some? <==> IsRelevant(locale, query, candidate, e)
    ensures Judge(locale, query, candidate, at).Some? ==>
              Judge(locale, query, candidate, at).value.score == Score(e)
  {
    EvidenceIsUnique(locale, query.text, candidate, e);
    ScoreMeans(locale, query, candidate);
    AskedForMeans(locale, query.services, candidate);
  }

  // ---------- resources ----------

  /** The mail thread that the first kind of metadata names. */
  predicate IsThread(candidate: Candidate, thread: string) {
    var metadata := First(candidate, "metadata", "resource_metadata");
    && metadata.Some? && metadata.value.Obj?
    && thread != "" && Lookup(metadata.value.fields, "thread_id") == Some(Str(thread))
  }

  predicate IsId(candidate: Candidate, id: string) {
    id != "" && First(candidate, "external_resource_id", "id") == Some(Str(id))
  }

  ghost predicate HasThread(candidate: Candidate) {
    exists thread :: IsThread(candidate, thread)
  }

  ghost predicate HasId(candidate: Candidate) {
    exists id :: IsId(candidate, id)
  }

  ghost predicate IsThreadName(candidate: Candidate, name: string) {
    exists thread :: IsThread(candidate, thread) && name == "thread:" + thread
  }

  ghost predicate IsTitleName(locale: Locale, candidate: Candidate, name: string) {
    exists title :: IsText(locale, candidate, "title", title) && name == Cleaned(Lower(locale, title))
  }

  /**
   What the candidates for one resource share: the service with the thread of a mail, else with
   the external id, else with the lowered title in single blanks.
   */
  ghost predicate IsKey(locale: Locale, candidate: Candidate, key: Key) {
    && IsText(locale, candidate, "service", key.0)
    && (key.0 == "gmail" && HasThread(candidate) ==> IsThreadName(candidate, key.1))
    && (!(key.0 == "gmail" && HasThread(candidate)) && HasId(candidate) ==> IsId(candidate, key.1))
    && (!(key.0 == "gmail" && HasThread(candidate)) && !HasId(candidate) ==> IsTitleName(locale, candidate, key.1))
  }

  lemma {:induction false} FirstMeans(candidate: Candidate, name: string, other: string)
    ensures First(candidate, name, other).Some? ==>
              First(candidate, name, other).value == Or(Get(candidate, name), Get(candidate, other))
    ensures First(candidate, name, other).None? ==> Or(Get(candidate, name), Get(candidate, other)) == Null
  {
    TruthyMeans(Get(candidate, name));
  }

  lemma {:induction false} ThreadMeans(candidate: Candidate, thread: string)
    ensures var metadata := Or(Get(candidate, "metadata"), Get(candidate, "resource_metadata"));
            IsThread(candidate, thread) <==>
            thread != "" && metadata.Obj? && GetOr(metadata.fields, "thread_id", Null) == Str(thread)
  {
    FirstMeans(candidate, "metadata", "resource_metadata");
  }

  lemma {:induction false} IdMeans(candidate: Candidate, id: string)
    ensures IsId(candidate, id) <==>
            id != "" && Or(Get(candidate, "external_resource_id"), Get(candidate, "id")) == Str(id)
  {
    FirstMeans(candidate, "external_resource_id", "id");
  }

  lemma {:induction false} ThreadIsNamed(candidate: Candidate)
    ensures var metadata := Or(Get(candidate, "metadata"), Get(candidate, "resource_metadata"));
            var thread := if metadata.Obj? then GetOr(metadata.fields, "thread_id", Null) else Null;
            && (HasThread(candidate) <==> thread.Str? && thread.s != "")
            && (HasThread(candidate) ==> IsThreadName(candidate, "thread:" + thread.s))
  {
    var metadata := Or(Get(candidate, "metadata"), Get(candidate, "resource_metadata"));
    var thread := if metadata.Obj? then GetOr(metadata.fields, "thread_id", Null) else Null;
    forall t ensures IsThread(candidate, t) <==> t != "" && thread == Str(t) {
      ThreadMeans(candidate, t);
    }
  }

  lemma {:induction false} IdIsNamed(candidate: Candidate)
    ensures var id := Or(Get(candidate, "external_resource_id"), Get(candidate, "id"));
            && (HasId(candidate) <==> id.Str? && id.s != "")
            && (HasId(candidate) ==> IsId(candidate, id.s))
  {
    var id := Or(Get(candidate, "external_resource_id"), Get(candidate, "id"));
    forall i ensures IsId(candidate, i) <==> i != "" && id == Str(i) {
      IdMeans(candidate, i);
    }
  }

  lemma {:induction false} KeyMeans(locale: Locale, candidate: Candidate)
    ensures IsKey(locale, candidate, DeduplicationKey(locale, candidate))
  {
    TextMeans(locale, candidate, "service", Service(locale, candidate));
    TextMeans(locale, candidate, "title", Title(locale, candidate));
    ThreadIsNamed(candidate);
    IdIsNamed(candidate);
    assert IsTitleName(locale, candidate, Cleaned(Lower(locale, Title(locale, candidate))));
  }
}
