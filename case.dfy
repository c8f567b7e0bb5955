/**
 * `to_case(Case::Pascal)` of the `convert_case` crate, as far as the protocol's
 * identifiers exercise it. The input is split into words at separators
 * (`_`, `-`, space) and where a lower-case letter is followed by an upper-case
 * one. Each word is then written with an upper-case first letter and the rest
 * in lower case, and the words are joined with nothing between them.
 */
module Case {
  predicate IsLower(c: char) { 'a' <= c <= 'z' }
  predicate IsUpper(c: char) { 'A' <= c <= 'Z' }
  predicate IsSep(c: char) { c == '_' || c == '-' || c == ' ' }

  function Upper(c: char): (u: char)
    ensures IsLower(c) ==> IsUpper(u)
    ensures !IsLower(c) ==> u == c
  {
    if IsLower(c) then (c as int - 'a' as int + 'A' as int) as char else c
  }

  function Lower(c: char): (l: char)
    ensures IsUpper(c) ==> IsLower(l)
    ensures !IsUpper(c) ==> l == c
  {
    if IsUpper(c) then (c as int - 'A' as int + 'a' as int) as char else c
  }

  /**
   * The word splitter and capitaliser as one scan. `start` holds when the next
   * letter begins a word (at the front or after a separator). `prevLower` holds
   * when the last letter was lower case, so that an upper-case letter after it
   * begins a new word.
   */
  function PascalFrom(s: string, start: bool, prevLower: bool): string
    decreases |s|
  {
    if s == [] then []
    else if IsSep(s[0]) then PascalFrom(s[1..], true, false)
    else
      var first := start || (prevLower && IsUpper(s[0]));
      [if first then Upper(s[0]) else Lower(s[0])] + PascalFrom(s[1..], false, IsLower(s[0]))
  }

  function Pascal(s: string): string {
    PascalFrom(s, true, false)
  }

  // ---- the identifiers the protocol feeds to Pascal -----------------------------

  predicate LowerWord(w: string) { |w| >= 2 && forall i :: 0 <= i < |w| ==> IsLower(w[i]) }

  /**
   * The words of a snake_case name: lower-case words of at least two letters,
   * as in `["audio", "stream", "start"]`.
   */
  predicate SnakeWords(ws: seq<string>) {
    |ws| >= 1 && forall i :: 0 <= i < |ws| ==> LowerWord(ws[i])
  }

  /** The words joined by single underscores: `audio_stream_start`. */
  function SnakeJoin(ws: seq<string>): string
    requires |ws| >= 1
  {
    if |ws| == 1 then ws[0] else ws[0] + "_" + SnakeJoin(ws[1..])
  }

  function Capitalized(w: string): string
    requires w != []
  {
    [Upper(w[0])] + w[1..]
  }

  /** The words capitalised and joined with nothing between them: `AudioStreamStart`. */
  function PascalJoin(ws: seq<string>): string
    requires forall i :: 0 <= i < |ws| ==> ws[i] != []
  {
    if ws == [] then [] else Capitalized(ws[0]) + PascalJoin(ws[1..])
  }

  /**
   * A PascalCase name: ASCII letters, starting upper case, never two upper-case
   * letters in a row, ending lower case (`SessionUpdatedEvent`).
   */
  predicate PascalIdent(s: string) {
    |s| >= 1 && IsUpper(s[0]) && IsLower(s[|s| - 1])
    && (forall i :: 0 <= i < |s| ==> IsLower(s[i]) || IsUpper(s[i]))
    && (forall i :: 0 <= i < |s| - 1 && IsUpper(s[i]) ==> IsLower(s[i + 1]))
  }

  // ---- laws -----------------------------------------------------------------

  /** On a run of lower-case letters that does not begin a word, the scan copies the run. */
  lemma {:induction false} CopiesLowerRun(w: string, rest: string, prevLower: bool)
    requires forall i :: 0 <= i < |w| ==> IsLower(w[i])
    ensures PascalFrom(w + rest, false, prevLower) == w + PascalFrom(rest, false, prevLower || w != [])
    decreases |w|
  {
    if w == [] {
      assert w + rest == rest;
    } else {
      assert (w + rest)[0] == w[0] && (w + rest)[1..] == w[1..] + rest;
      CopiesLowerRun(w[1..], rest, true);
      assert w == [w[0]] + w[1..];
    }
  }

  /** An already Pascal-cased name is left as it is. */
  lemma {:induction false} PascalFromOfPascal(s: string, start: bool, prevLower: bool)
    requires s != [] ==> (forall i :: 0 <= i < |s| ==> IsLower(s[i]) || IsUpper(s[i]))
    requires s != [] ==> (forall i :: 0 <= i < |s| - 1 && IsUpper(s[i]) ==> IsLower(s[i + 1]))
    requires s != [] && IsUpper(s[0]) ==> start || prevLower
    requires s != [] && IsLower(s[0]) ==> !start
    ensures PascalFrom(s, start, prevLower) == s
    decreases |s|
  {
    if s != [] {
      PascalFromOfPascal(s[1..], false, IsLower(s[0]));
    }
  }

  lemma PascalOfPascal(s: string)
    requires PascalIdent(s)
    ensures Pascal(s) == s
  {
    PascalFromOfPascal(s, true, false);
  }

  /** Pascal case of a snake_case name capitalises each word and drops the underscores. */
  lemma {:induction false} PascalOfSnake(ws: seq<string>)
    requires SnakeWords(ws)
    ensures Pascal(SnakeJoin(ws)) == PascalJoin(ws)
    ensures PascalIdent(PascalJoin(ws))
  {
    var w := ws[0];
    if |ws| == 1 {
      PascalLastWord(w);
      assert PascalJoin(ws) == Capitalized(w) + PascalJoin([]);
      CapitalizedIsPascal(w);
    } else {
      PascalSnakeWord(w, SnakeJoin(ws[1..]));
      PascalOfSnake(ws[1..]);
      CapitalizedIsPascal(w);
      SuffixKeepsPascal(Capitalized(w), PascalJoin(ws[1..]));
    }
  }

  lemma CapitalizedIsPascal(w: string)
    requires LowerWord(w)
    ensures PascalIdent(Capitalized(w))
  {
    var c := Capitalized(w);
    assert forall i :: 1 <= i < |c| ==> c[i] == w[i];
  }

  /** Two PascalCase names joined are a PascalCase name (a capitalised word followed by `Event`, say). */
  lemma SuffixKeepsPascal(a: string, b: string)
    requires PascalIdent(a) && PascalIdent(b)
    ensures PascalIdent(a + b)
  {
    var s := a + b;
    forall i | 0 <= i < |s| - 1 && IsUpper(s[i]) ensures IsLower(s[i + 1]) {
      if i < |a| - 1 { assert s[i] == a[i] && s[i + 1] == a[i + 1]; }
      else { assert s[i] == b[i - |a|] && s[i + 1] == b[i + 1 - |a|]; }
    }
  }

  // ---- word-at-a-time evaluation, used for the concrete protocol names -------

  /** A leading lower-case word followed by an underscore. */
  lemma PascalSnakeWord(w: string, rest: string)
    requires LowerWord(w)
    ensures Pascal(w + "_" + rest) == Capitalized(w) + Pascal(rest)
  {
    var s := w + "_" + rest;
    assert s[1..] == w[1..] + ("_" + rest);
    CopiesLowerRun(w[1..], "_" + rest, true);
    assert ("_" + rest)[1..] == rest;
  }

  /** The last lower-case word. */
  lemma PascalLastWord(w: string)
    requires LowerWord(w)
    ensures Pascal(w) == Capitalized(w)
  {
    assert w[1..] == w[1..] + [];
    CopiesLowerRun(w[1..], [], true);
  }
}
