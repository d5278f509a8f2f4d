/**
 * The string operations of Rust's standard library that the todo-list format is
 * built on: char::is_whitespace, str::split_whitespace, str::trim, joining with
 * a single space, and BufRead::lines over an in-memory text.
 */
module Strings {

  /** char::is_whitespace: the characters with Unicode's White_Space property. */
  predicate IsSpace(c: char) {
    || ('\t' <= c <= '\r')
    || c == ' '
    || c == '\U{85}'
    || c == '\U{A0}'
    || c == '\U{1680}'
    || ('\U{2000}' <= c <= '\U{200A}')
    || c == '\U{2028}'
    || c == '\U{2029}'
    || c == '\U{202F}'
    || c == '\U{205F}'
    || c == '\U{3000}'
  }

  /** A token as split_whitespace yields it: non-empty and free of whitespace. */
  predicate IsWord(w: string) {
    |w| > 0 && forall i :: 0 <= i < |w| ==> !IsSpace(w[i])
  }

  predicate AllWords(ws: seq<string>) {
    forall i :: 0 <= i < |ws| ==> IsWord(ws[i])
  }

  lemma AllWordsSuffix(ws: seq<string>, k: nat)
    requires AllWords(ws) && k <= |ws|
    ensures AllWords(ws[k..])
  {
    forall i | 0 <= i < |ws| - k ensures IsWord(ws[k..][i]) {
      assert ws[k..][i] == ws[k + i];
    }
  }

  /** Every character is whitespace (what `s.trim().is_empty()` tests). */
  predicate IsBlank(s: string) {
    forall i :: 0 <= i < |s| ==> IsSpace(s[i])
  }

  /** The only whitespace in `s` is the plain space. */
  predicate IsFlat(s: string) {
    forall i :: 0 <= i < |s| ==> s[i] == ' ' || !IsSpace(s[i])
  }

  // ---------------------------------------------------------------------------
  // split_whitespace

  /** The length of the longest whitespace-free prefix of `s`. */
  function WordLength(s: string): (n: nat)
    ensures n <= |s|
    ensures forall i :: 0 <= i < n ==> !IsSpace(s[i])
    ensures n < |s| ==> IsSpace(s[n])
  {
    if s == [] || IsSpace(s[0]) then 0 else 1 + WordLength(s[1..])
  }

  /** str::split_whitespace: the maximal whitespace-free runs of `s`, in order. */
  function Tokens(s: string): (ts: seq<string>)
    ensures AllWords(ts)
    decreases |s|
  {
    if s == [] then []
    else if IsSpace(s[0]) then Tokens(s[1..])
    else
      var n := WordLength(s);
      [s[..n]] + Tokens(s[n..])
  }

  /** A word followed by nothing or by whitespace is measured exactly. */
  lemma {:induction false} WordLengthOfWord(w: string, rest: string)
    requires IsWord(w)
    requires rest == [] || IsSpace(rest[0])
    ensures WordLength(w + rest) == |w|
    decreases |w|
  {
    if |w| > 1 {
      assert (w + rest)[1..] == w[1..] + rest;
      WordLengthOfWord(w[1..], rest);
    } else {
      assert (w + rest)[1..] == rest;
    }
  }

  /** A word at the front of a text is its first token. */
  lemma TokensOfWordThen(w: string, rest: string)
    requires IsWord(w)
    requires rest == [] || IsSpace(rest[0])
    ensures Tokens(w + rest) == [w] + Tokens(rest)
  {
    WordLengthOfWord(w, rest);
    assert (w + rest)[..|w|] == w;
    assert (w + rest)[|w|..] == rest;
  }

  /** A leading space contributes no token. */
  lemma TokensOfSpaceThen(rest: string)
    ensures Tokens(" " + rest) == Tokens(rest)
  {
    assert (" " + rest)[1..] == rest;
  }

  /** The segment `w + " "` in front of a text contributes exactly the token `w`. */
  lemma TokensOfWordSpace(w: string, rest: string)
    requires IsWord(w)
    ensures Tokens(w + " " + rest) == [w] + Tokens(rest)
  {
    assert w + " " + rest == w + (" " + rest);
    TokensOfWordThen(w, " " + rest);
    TokensOfSpaceThen(rest);
  }

  /** A text has no tokens exactly when it is blank. */
  lemma {:induction false} TokensEmptyIffBlank(s: string)
    ensures Tokens(s) == [] <==> IsBlank(s)
    decreases |s|
  {
    if s != [] {
      if IsSpace(s[0]) {
        TokensEmptyIffBlank(s[1..]);
        assert IsBlank(s) <==> IsBlank(s[1..]) by {
          if IsBlank(s[1..]) {
            forall i | 0 <= i < |s| ensures IsSpace(s[i]) {
              if i > 0 { assert s[i] == s[1..][i - 1]; }
            }
          }
          if IsBlank(s) {
            forall i | 0 <= i < |s[1..]| ensures IsSpace(s[1..][i]) {
              assert s[1..][i] == s[i + 1];
            }
          }
        }
      } else {
        assert !IsBlank(s);
      }
    }
  }

  /** Trailing whitespace contributes no token. */
  lemma {:induction false} TokensOfBlankSuffix(s: string, b: string)
    requires IsBlank(b)
    ensures Tokens(s + b) == Tokens(s)
    decreases |s|
  {
    if s == [] {
      assert s + b == b;
      TokensEmptyIffBlank(b);
    } else if IsSpace(s[0]) {
      assert (s + b)[1..] == s[1..] + b;
      TokensOfBlankSuffix(s[1..], b);
    } else {
      var n := WordLength(s);
      var w := s[..n];
      assert IsWord(w);
      assert s == w + s[n..];
      assert s + b == w + (s[n..] + b);
      TokensOfWordThen(w, s[n..]);
      TokensOfWordThen(w, s[n..] + b);
      TokensOfBlankSuffix(s[n..], b);
    }
  }

  // ---------------------------------------------------------------------------
  // join(" ")

  /** `[&str]::join(" ")`. */
  function Join(ws: seq<string>): string
  {
    if ws == [] then []
    else if |ws| == 1 then ws[0]
    else ws[0] + " " + Join(ws[1..])
  }

  /** Splitting a joined sequence of words gives the words back. */
  lemma {:induction false} TokensOfJoin(ws: seq<string>)
    requires AllWords(ws)
    ensures Tokens(Join(ws)) == ws
  {
    if |ws| == 1 {
      assert ws[0] + [] == ws[0];
      TokensOfWordThen(ws[0], []);
    } else if |ws| > 1 {
      TokensOfWordSpace(ws[0], Join(ws[1..]));
      TokensOfJoin(ws[1..]);
    }
  }

  /**
   * A joined sequence of words has no leading or trailing whitespace, and
   * its only whitespace is the single spaces between the words.
   */
  lemma {:induction false} JoinShape(ws: seq<string>)
    requires AllWords(ws)
    ensures IsFlat(Join(ws))
    ensures Join(ws) == [] <==> ws == []
    ensures Join(ws) != [] ==> !IsSpace(Join(ws)[0]) && !IsSpace(Join(ws)[|Join(ws)| - 1])
  {
    if |ws| > 1 {
      JoinShape(ws[1..]);
      var j := Join(ws);
      var t := Join(ws[1..]);
      assert j == ws[0] + " " + t;
      assert IsFlat(j) by {
        forall i | 0 <= i < |j| ensures j[i] == ' ' || !IsSpace(j[i]) {
          if i < |ws[0]| {
            assert j[i] == ws[0][i];
          } else if i > |ws[0]| {
            assert j[i] == t[i - |ws[0]| - 1];
          }
        }
      }
      assert j[0] == ws[0][0];
      assert j[|j| - 1] == t[|t| - 1];
    } else if |ws| == 1 {
      assert IsWord(ws[0]);
    }
  }

  // ---------------------------------------------------------------------------
  // trim

  /** The number of whitespace characters `s` starts with. */
  function LeadingSpaces(s: string): (n: nat)
    ensures n <= |s|
    ensures forall i :: 0 <= i < n ==> IsSpace(s[i])
    ensures n < |s| ==> !IsSpace(s[n])
  {
    if s != [] && IsSpace(s[0]) then 1 + LeadingSpaces(s[1..]) else 0
  }

  /** The length of `s` without the whitespace it ends with. */
  function TrimmedLength(s: string): (n: nat)
    ensures n <= |s|
    ensures forall i :: n <= i < |s| ==> IsSpace(s[i])
    ensures 0 < n ==> !IsSpace(s[n - 1])
  {
    if s != [] && IsSpace(s[|s| - 1]) then TrimmedLength(s[..|s| - 1]) else |s|
  }

  /** str::trim_start: drops the leading whitespace. */
  function TrimStart(s: string): string {
    s[LeadingSpaces(s)..]
  }

  /** str::trim_end: drops the trailing whitespace. */
  function TrimEnd(s: string): string {
    s[..TrimmedLength(s)]
  }

  /** str::trim. */
  function Trim(s: string): string {
    TrimEnd(TrimStart(s))
  }

  lemma TokensOfTrimStart(s: string)
    ensures Tokens(TrimStart(s)) == Tokens(s)
  {
    var n := LeadingSpaces(s);
    var lead := s[..n];
    assert IsBlank(lead) by {
      forall i | 0 <= i < n ensures IsSpace(lead[i]) {
        assert lead[i] == s[i];
      }
    }
    assert s == lead + s[n..];
    TokensOfBlankPrefix(lead, s[n..]);
  }

  lemma TokensOfTrimEnd(s: string)
    ensures Tokens(TrimEnd(s)) == Tokens(s)
  {
    var n := TrimmedLength(s);
    var tail := s[n..];
    assert IsBlank(tail) by {
      forall i | 0 <= i < |tail| ensures IsSpace(tail[i]) {
        assert tail[i] == s[n + i];
      }
    }
    assert s == s[..n] + tail;
    TokensOfBlankSuffix(s[..n], tail);
  }

  /** Trimming never changes the tokens. */
  lemma TokensOfTrim(s: string)
    ensures Tokens(Trim(s)) == Tokens(s)
  {
    TokensOfTrimStart(s);
    TokensOfTrimEnd(TrimStart(s));
  }

  /** Leading whitespace contributes no token. */
  lemma {:induction false} TokensOfBlankPrefix(b: string, s: string)
    requires IsBlank(b)
    ensures Tokens(b + s) == Tokens(s)
    decreases |b|
  {
    if b != [] {
      assert (b + s)[1..] == b[1..] + s;
      assert IsSpace(b[0]);
      TokensOfBlankPrefix(b[1..], s);
    } else {
      assert b + s == s;
    }
  }

  /** A text is blank exactly when trimming it leaves nothing. */
  lemma TrimEmptyIffBlank(s: string)
    ensures Trim(s) == [] <==> IsBlank(s)
  {
    TokensOfTrim(s);
    TokensEmptyIffBlank(s);
    TokensEmptyIffBlank(Trim(s));
  }

  /** A text that neither starts nor ends with whitespace is its own trim. */
  lemma TrimOfTrimmed(s: string)
    requires s == [] || (!IsSpace(s[0]) && !IsSpace(s[|s| - 1]))
    ensures Trim(s) == s
  {
  }

  // ---------------------------------------------------------------------------
  // BufRead::lines

  /** The index of the first '\n' in `s`, or |s| when there is none. */
  function LineLength(s: string): (n: nat)
    ensures n <= |s|
    ensures forall i :: 0 <= i < n ==> s[i] != '\n'
    ensures n < |s| ==> s[n] == '\n'
  {
    if s == [] || s[0] == '\n' then 0 else 1 + LineLength(s[1..])
  }

  /** Drops one '\r' from the end of a line that was terminated by '\n'. */
  function DropCarriageReturn(line: string): string {
    if line != [] && line[|line| - 1] == '\r' then line[..|line| - 1] else line
  }

  /**
   * BufRead::lines over an in-memory text: the pieces between '\n's, with a
   * "\r\n" terminator dropped whole; a last piece without a terminator is a
   * line only when it is not empty.
   */
  function Lines(text: string): seq<string>
    decreases |text|
  {
    if text == [] then []
    else
      var n := LineLength(text);
      if n == |text| then [text]
      else [DropCarriageReturn(text[..n])] + Lines(text[n + 1..])
  }

  /** What `writeln!` leaves for a sequence of lines: each one followed by '\n'. */
  function Unlines(ls: seq<string>): string {
    if ls == [] then [] else ls[0] + "\n" + Unlines(ls[1..])
  }

  /** A line that holds no '\n' and does not end in '\r' survives being written and read back. */
  predicate IsPlainLine(l: string) {
    (forall i :: 0 <= i < |l| ==> l[i] != '\n') && (l == [] || l[|l| - 1] != '\r')
  }

  /** Reading back lines written one per '\n' gives the same lines. */
  lemma {:induction false} LinesOfUnlines(ls: seq<string>)
    requires forall i :: 0 <= i < |ls| ==> IsPlainLine(ls[i])
    ensures Lines(Unlines(ls)) == ls
  {
    if ls != [] {
      assert IsPlainLine(ls[0]);
      LinesOfLine(ls[0], Unlines(ls[1..]));
      LinesOfUnlines(ls[1..]);
    }
  }

  lemma {:induction false} LineLengthOfPlain(l: string, rest: string)
    requires forall i :: 0 <= i < |l| ==> l[i] != '\n'
    requires rest != [] && rest[0] == '\n'
    ensures LineLength(l + rest) == |l|
    decreases |l|
  {
    if l != [] {
      assert (l + rest)[1..] == l[1..] + rest;
      LineLengthOfPlain(l[1..], rest);
    } else {
      assert l + rest == rest;
    }
  }

  lemma FlatAppend(a: string, b: string)
    requires IsFlat(a) && IsFlat(b)
    ensures IsFlat(a + b)
  {
    forall i | 0 <= i < |a + b| ensures (a + b)[i] == ' ' || !IsSpace((a + b)[i]) {
      if i >= |a| {
        assert (a + b)[i] == b[i - |a|];
      }
    }
  }

  /** Reading a plain line written with its terminator gives that line, then the rest. */
  lemma LinesOfLine(l: string, rest: string)
    requires IsPlainLine(l)
    ensures Lines(l + "\n" + rest) == [l] + Lines(rest)
  {
    var text := l + "\n" + rest;
    assert text == l + ("\n" + rest);
    LineLengthOfPlain(l, "\n" + rest);
    assert text[..|l|] == l;
    assert text[|l| + 1..] == rest;
  }

  /** A flat text holds no line break, so it is a plain line. */
  lemma FlatIsPlainLine(s: string)
    requires IsFlat(s)
    ensures IsPlainLine(s)
  {
    if s != [] {
      assert s[|s| - 1] == ' ' || !IsSpace(s[|s| - 1]);
    }
  }
}
