/**
 Character classes and whitespace handling shared by the model: the trimming that
 identifiers go through, the pattern they must match, decimal numerals, and the
 whitespace splitting and joining used by retrieval.
 */
module Text {

  datatype Option<+T> = None | Some(value: T)

  // ---------- identifiers ----------

  /** Unicode White_Space, which identifier trimming removes from both ends. */
  predicate IsTrimmable(c: char) {
    || '\t' <= c <= '\r' || c == ' '
    || c in {'\U{85}', '\U{A0}', '\U{1680}', '\U{2028}', '\U{2029}', '\U{202F}', '\U{205F}', '\U{3000}'}
    || '\U{2000}' <= c <= '\U{200A}'
  }

  function StripLeft(blank: char -> bool, s: string): string {
    if s != "" && blank(s[0]) then StripLeft(blank, s[1..]) else s
  }

  function StripRight(blank: char -> bool, s: string): string {
    if s != "" && blank(s[|s| - 1]) then StripRight(blank, s[..|s| - 1]) else s
  }

  /** The string without its blank ends. */
  function Strip(blank: char -> bool, s: string): string {
    StripRight(blank, StripLeft(blank, s))
  }

  function Trim(s: string): string {
    Strip(IsTrimmable, s)
  }

  predicate IsLetter(c: char) {
    'a' <= c <= 'z' || 'A' <= c <= 'Z'
  }

  predicate IsDigit(c: char) {
    '0' <= c <= '9'
  }

  /** The pattern `^[A-Za-z][A-Za-z0-9_-]*$`. */
  predicate IsIdentifier(s: string) {
    && s != ""
    && IsLetter(s[0])
    && forall i :: 0 <= i < |s| ==> IsLetter(s[i]) || IsDigit(s[i]) || s[i] == '_' || s[i] == '-'
  }

  /** Trimming is the identity on identifiers, so an identifier is never padded. */
  lemma {:induction false} IdentifierIsTrimmed(s: string)
    requires IsIdentifier(s)
    ensures Trim(s) == s
  {
    assert !IsTrimmable(s[0]);
    var last := s[|s| - 1];
    assert IsLetter(last) || IsDigit(last) || last == '_' || last == '-';
    assert !IsTrimmable(last);
  }

  // ---------- whitespace ----------

  /** What `str.split()` and `str.strip()` treat as whitespace. */
  predicate IsSpace(c: char) {
    IsTrimmable(c) || '\U{1C}' <= c <= '\U{1F}'
  }

  /** `s.strip()` is not empty. */
  predicate IsBlank(s: string) {
    forall i :: 0 <= i < |s| ==> IsSpace(s[i])
  }

  // ---------- runs of characters ----------

  /** The two kinds of text units: words between whitespace, and tokens `[a-z0-9]+`. */
  datatype Kind = Word | Token

  predicate Belongs(c: char, kind: Kind) {
    match kind
    case Word => !IsSpace(c)
    case Token => 'a' <= c <= 'z' || IsDigit(c)
  }

  /** The leading run of characters that belong to a unit. */
  function FirstRun(s: string, kind: Kind): (w: string)
    ensures w <= s && forall i :: 0 <= i < |w| ==> Belongs(w[i], kind)
    ensures |w| < |s| ==> !Belongs(s[|w|], kind)
    ensures s != "" && Belongs(s[0], kind) ==> w != ""
  {
    if s == "" || !Belongs(s[0], kind) then "" else [s[0]] + FirstRun(s[1..], kind)
  }

  predicate IsRunOf(w: string, kind: Kind) {
    w != "" && forall i :: 0 <= i < |w| ==> Belongs(w[i], kind)
  }

  /** The maximal runs of such characters, in order. */
  function Runs(s: string, kind: Kind): (runs: seq<string>)
    ensures forall i :: 0 <= i < |runs| ==> IsRunOf(runs[i], kind)
    decreases |s|
  {
    if s == "" then []
    else if !Belongs(s[0], kind) then Runs(s[1..], kind)
    else [FirstRun(s, kind)] + Runs(s[|FirstRun(s, kind)|..], kind)
  }

  lemma {:induction false} FirstRunOf(w: string, rest: string, kind: Kind)
    requires IsRunOf(w, kind) && (rest != "" ==> !Belongs(rest[0], kind))
    ensures FirstRun(w + rest, kind) == w
  {
    if |w| > 1 {
      assert (w + rest)[1..] == w[1..] + rest;
      FirstRunOf(w[1..], rest, kind);
    } else {
      assert (w + rest)[1..] == rest;
    }
  }

  lemma {:induction false} RunsAfterFirst(w: string, rest: string, kind: Kind)
    requires IsRunOf(w, kind) && (rest != "" ==> !Belongs(rest[0], kind))
    ensures Runs(w + rest, kind) == [w] + Runs(rest, kind)
  {
    FirstRunOf(w, rest, kind);
    assert (w + rest)[0] == w[0] && (w + rest)[|w|..] == rest;
  }

  lemma {:induction false} RunsAfterGap(gap: char, rest: string, kind: Kind)
    requires !Belongs(gap, kind)
    ensures Runs([gap] + rest, kind) == Runs(rest, kind)
  {
    assert ([gap] + rest)[1..] == rest;
  }

  /** A character that belongs to no unit splits the runs of a text in two. */
  lemma {:induction false} RunsSplit(a: string, gap: char, b: string, kind: Kind)
    requires !Belongs(gap, kind)
    ensures Runs(a + [gap] + b, kind) == Runs(a, kind) + Runs(b, kind)
    decreases |a|
  {
    if a == "" {
      assert a + [gap] + b == [gap] + b;
      RunsAfterGap(gap, b, kind);
    } else if !Belongs(a[0], kind) {
      assert a + [gap] + b == [a[0]] + (a[1..] + [gap] + b) && a == [a[0]] + a[1..];
      RunsAfterGap(a[0], a[1..] + [gap] + b, kind);
      RunsAfterGap(a[0], a[1..], kind);
      RunsSplit(a[1..], gap, b, kind);
    } else {
      var w := FirstRun(a, kind);
      var rest := a[|w|..];
      assert a == w + rest;
      RunsSplit(rest, gap, b, kind);
      SplitAfterFirst(w, rest, gap, b, kind);
    }
  }

  lemma {:induction false} Prepend(head: string, x: seq<string>, y: seq<string>)
    ensures [head] + (x + y) == [head] + x + y
  {
  }

  lemma {:induction false} SplitAfterFirst(w: string, rest: string, gap: char, b: string, kind: Kind)
    requires IsRunOf(w, kind) && !Belongs(gap, kind) && (rest != "" ==> !Belongs(rest[0], kind))
    requires Runs(rest + [gap] + b, kind) == Runs(rest, kind) + Runs(b, kind)
    ensures Runs(w + rest + [gap] + b, kind) == Runs(w + rest, kind) + Runs(b, kind)
  {
    var tail := rest + [gap] + b;
    assert w + rest + [gap] + b == w + tail;
    assert tail[0] == if rest == "" then gap else rest[0];
    RunsAfterFirst(w, tail, kind);
    RunsAfterFirst(w, rest, kind);
    Prepend(w, Runs(rest, kind), Runs(b, kind));
  }

  /** A stretch of such characters that cannot be extended. */
  predicate IsMaximal(s: string, i: nat, j: nat, kind: Kind) {
    && i < j <= |s| && IsRunOf(s[i..j], kind)
    && (i > 0 ==> !Belongs(s[i - 1], kind)) && (j < |s| ==> !Belongs(s[j], kind))
  }

  ghost predicate IsMaximalRun(s: string, t: string, kind: Kind) {
    exists i: nat, j: nat :: IsMaximal(s, i, j, kind) && s[i..j] == t
  }

  lemma {:induction false} MaximalInRest(s: string, n: nat, i: nat, j: nat, kind: Kind)
    requires n <= |s| && (n > 0 && n < |s| ==> !Belongs(s[n - 1], kind) || !Belongs(s[n], kind))
    ensures IsMaximal(s, n + i, n + j, kind) <==> IsMaximal(s[n..], i, j, kind)
    ensures IsMaximal(s[n..], i, j, kind) ==> s[n + i..n + j] == s[n..][i..j]
  {
    if i < j <= |s| - n {
      assert s[n + i..n + j] == s[n..][i..j];
      assert i == 0 && n > 0 && IsRunOf(s[n..][i..j], kind) ==> Belongs(s[n..][i..j][0], kind);
    }
  }

  /** The runs are the maximal ones. */
  lemma {:induction false} RunsAreMaximal(s: string, kind: Kind, t: string)
    ensures t in Runs(s, kind) <==> IsMaximalRun(s, t, kind)
    decreases |s|
  {
    if s != "" {
      var n := if Belongs(s[0], kind) then |FirstRun(s, kind)| else 1;
      RunsAreMaximal(s[n..], kind, t);
      forall i: nat, j: nat
        ensures IsMaximal(s, n + i, n + j, kind) <==> IsMaximal(s[n..], i, j, kind)
        ensures IsMaximal(s[n..], i, j, kind) ==> s[n + i..n + j] == s[n..][i..j]
      {
        MaximalInRest(s, n, i, j, kind);
      }
      if IsMaximalRun(s[n..], t, kind) {
        var i: nat, j: nat :| IsMaximal(s[n..], i, j, kind) && s[n..][i..j] == t;
        assert IsMaximal(s, n + i, n + j, kind);
      }
      if IsMaximalRun(s, t, kind) {
        var i: nat, j: nat :| IsMaximal(s, i, j, kind) && s[i..j] == t;
        MaximalStart(s, i, j, kind);
        if i >= n {
          assert IsMaximal(s[n..], i - n, j - n, kind);
        }
      }
      if Belongs(s[0], kind) {
        assert s[0..n] == FirstRun(s, kind);
        assert IsMaximal(s, 0, n, kind);
      }
    }
  }

  /** A maximal run starts with the first run or behind it. */
  lemma {:induction false} MaximalStart(s: string, i: nat, j: nat, kind: Kind)
    requires IsMaximal(s, i, j, kind)
    ensures Belongs(s[0], kind) ==>
              var n := |FirstRun(s, kind)|; i >= n || (i == 0 && j == n && s[i..j] == FirstRun(s, kind))
    ensures !Belongs(s[0], kind) ==> i >= 1
  {
    assert s[i..j][0] == s[i];
    if Belongs(s[0], kind) {
      var w := FirstRun(s, kind);
      assert forall k :: 0 <= k < |w| ==> s[k] == w[k];
      assert forall k :: i <= k < j ==> s[i..j][k - i] == s[k];
    }
  }

  // ---------- words ----------

  /** `s.split()` */
  function Words(s: string): seq<string> {
    Runs(s, Word)
  }

  /** `" ".join(words)` */
  function Join(words: seq<string>): string {
    if words == [] then ""
    else if |words| == 1 then words[0]
    else words[0] + " " + Join(words[1..])
  }

  /** `" ".join(text.split())` */
  function Cleaned(text: string): string {
    Join(Words(text))
  }

  /** Words separated by single blanks, without any other whitespace. */
  predicate IsClean(c: string) {
    && (c != "" ==> !IsSpace(c[0]) && !IsSpace(c[|c| - 1]))
    && (forall i :: 0 <= i < |c| && IsSpace(c[i]) ==> c[i] == ' ')
    && forall i :: 0 <= i < |c| - 1 ==> !IsDouble(c, i)
  }

  /** Whitespace at this position and the next. */
  predicate IsDouble(c: string, i: nat)
    requires i < |c| - 1
  {
    IsSpace(c[i]) && IsSpace(c[i + 1])
  }

  lemma {:induction false} WordsOfOne(w: string)
    requires IsRunOf(w, Word)
    ensures Words(w) == [w]
  {
    RunsAfterFirst(w, "", Word);
    assert w + "" == w;
  }

  lemma {:induction false} WordsOfJoin(words: seq<string>)
    requires forall i :: 0 <= i < |words| ==> IsRunOf(words[i], Word)
    ensures Words(Join(words)) == words
    ensures IsClean(Join(words)) && (words != [] ==> Join(words) != "")
  {
    if |words| == 1 {
      WordsOfOne(words[0]);
      assert forall i :: 0 <= i < |words[0]| ==> Belongs(words[0][i], Word);
    } else if |words| > 1 {
      var w, rest := words[0], Join(words[1..]);
      WordsOfJoin(words[1..]);
      WordsOfOne(w);
      assert w + " " + rest == w + [' '] + rest;
      RunsSplit(w, ' ', rest, Word);
      CleanJoins(w, rest);
    }
  }

  lemma {:induction false} CleanJoins(w: string, rest: string)
    requires IsRunOf(w, Word) && IsClean(rest) && rest != ""
    ensures IsClean(w + " " + rest)
  {
    var c := w + " " + rest;
    assert c[|c| - 1] == rest[|rest| - 1];
    assert forall i :: 0 <= i < |w| ==> c[i] == w[i] && Belongs(w[i], Word);
    assert c[|w|] == ' ';
    assert forall i :: |w| < i < |c| ==> c[i] == rest[i - |w| - 1];
    forall i | 0 <= i < |c| - 1 ensures !IsDouble(c, i) {
      if i > |w| {
        assert !IsDouble(rest, i - |w| - 1);
      }
    }
  }

  /** Cleaning keeps the words. */
  lemma {:induction false} CleanedKeepsWords(text: string)
    ensures Words(Cleaned(text)) == Words(text) && IsClean(Cleaned(text))
  {
    WordsOfJoin(Words(text));
  }

  // ---------- decimal numerals ----------

  function DigitChar(d: nat): (c: char)
    requires d < 10
    ensures IsDigit(c) && DigitValue(c) == d
  {
    '0' + d as char
  }

  function DigitValue(c: char): (d: nat)
    requires IsDigit(c)
    ensures d < 10
  {
    (c - '0') as nat
  }

  predicate IsNumeral(s: string) {
    s != "" && forall i :: 0 <= i < |s| ==> IsDigit(s[i])
  }

  /** The number a decimal numeral denotes (`int(s)`). */
  function Parse(s: string): nat
    requires forall i :: 0 <= i < |s| ==> IsDigit(s[i])
  {
    if s == "" then 0 else 10 * Parse(s[..|s| - 1]) + DigitValue(s[|s| - 1])
  }

  /** The decimal numeral of a number (`str(n)`). */
  function Numeral(n: nat): (s: string)
    ensures IsNumeral(s)
    ensures Parse(s) == n
  {
    if n < 10 then
      var s := [DigitChar(n)];
      assert Parse(s[..0]) == 0;
      s
    else
      var front := Numeral(n / 10);
      var s := front + [DigitChar(n % 10)];
      assert s[..|s| - 1] == front;
      s
  }

  lemma {:induction false} NumeralStarts(n: nat)
    ensures n > 0 ==> Numeral(n)[0] != '0'
  {
    if n >= 10 {
      NumeralStarts(n / 10);
    }
  }

  lemma {:induction false} NumeralInjective(m: nat, n: nat)
    requires Numeral(m) == Numeral(n)
    ensures m == n
  {
    assert Parse(Numeral(m)) == Parse(Numeral(n));
  }
}
