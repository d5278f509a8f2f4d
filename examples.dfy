/**
 * Lines from the repository's tests and two further cases (a repeated tag,
 * and the writing back of one task), and what the model makes of them. Each
 * line is first shown to split into its tokens, then parsed.
 */
module Examples {
  import opened Wrappers
  import opened Strings
  import opened Dates
  import opened Items

  // ---------------------------------------------------------------------------
  // Splitting the test lines

  /** Every character is printable ASCII other than the space. */
  predicate AllPrintable(w: string) {
    w == [] || ('!' <= w[0] <= '~' && AllPrintable(w[1..]))
  }

  /** A non-empty run of printable ASCII other than the space. */
  predicate IsPrintable(w: string) {
    |w| > 0 && AllPrintable(w)
  }

  lemma {:induction false} PrintableHasNoSpace(w: string)
    requires AllPrintable(w)
    ensures forall i :: 0 <= i < |w| ==> !IsSpace(w[i])
  {
    if w != [] {
      PrintableHasNoSpace(w[1..]);
      forall i | 0 <= i < |w| ensures !IsSpace(w[i]) {
        if i > 0 {
          assert w[i] == w[1..][i - 1];
        }
      }
    }
  }

  lemma PrintableIsWord(w: string)
    requires IsPrintable(w)
    ensures IsWord(w)
  {
    PrintableHasNoSpace(w);
  }

  lemma JoinCons(w: string, ws: seq<string>)
    requires ws != []
    ensures Join([w] + ws) == w + " " + Join(ws)
  {
    assert ([w] + ws)[1..] == ws;
  }

  /** A line that is the single-space join of words splits into those words. */
  lemma SplitsInto(line: string, ws: seq<string>)
    requires AllWords(ws) && Join(ws) == line
    ensures Tokens(line) == ws
  {
    TokensOfJoin(ws);
  }

  /** A line of four printable words, one space apart, splits into them. */
  lemma SplitsIntoFour(line: string, a: string, b: string, c: string, d: string)
    requires IsPrintable(a) && IsPrintable(b) && IsPrintable(c) && IsPrintable(d)
    requires line == a + " " + b + " " + c + " " + d
    ensures Tokens(line) == [a, b, c, d] && Join([a, b, c, d]) == line
  {
    var ws := [a, b, c, d];
    PrintableIsWord(a);
    PrintableIsWord(b);
    PrintableIsWord(c);
    PrintableIsWord(d);
    assert ws[1..] == [b, c, d] && ws[2..] == [c, d] && ws[3..] == [d];
    JoinCons(a, [b, c, d]);
    JoinCons(b, [c, d]);
    JoinCons(c, [d]);
    assert Join(ws) == a + " " + (b + " " + (c + " " + d));
    SplitsInto(line, ws);
  }

  /** A line of three printable words, one space apart, splits into them. */
  lemma SplitsIntoThree(line: string, a: string, b: string, c: string)
    requires IsPrintable(a) && IsPrintable(b) && IsPrintable(c)
    requires line == a + " " + b + " " + c
    ensures Tokens(line) == [a, b, c] && Join([a, b, c]) == line
  {
    var ws := [a, b, c];
    PrintableIsWord(a);
    PrintableIsWord(b);
    PrintableIsWord(c);
    assert ws[1..] == [b, c] && ws[2..] == [c];
    JoinCons(a, [b, c]);
    JoinCons(b, [c]);
    assert Join(ws) == a + " " + (b + " " + c);
    SplitsInto(line, ws);
  }

  /** A line of two printable words, one space apart, splits into them. */
  lemma SplitsIntoTwo(line: string, a: string, b: string)
    requires IsPrintable(a) && IsPrintable(b)
    requires line == a + " " + b
    ensures Tokens(line) == [a, b] && Join([a, b]) == line
  {
    PrintableIsWord(a);
    PrintableIsWord(b);
    JoinCons(a, [b]);
    SplitsInto(line, [a, b]);
  }

  // ---------------------------------------------------------------------------
  // The test lines
  //
  // Each example takes its test line as a parameter, written word by word
  // (`"x" + " " + "(F)" + " " + "test"` is the line `x (F) test`), and first
  // splits it into its tokens; a second lemma then parses those tokens.

  /** An `x` that is not the first token is description text. */
  lemma XInTheMiddle(line: string)
    requires line == "Buy" + " " + "milk" + " " + "x" + " " + "eggs"
    ensures var r := Parse(line);
      !r.completed && r.description == line
  {
    SplitsIntoFour(line, "Buy", "milk", "x", "eggs");
    XInTheMiddleTokens();
  }

  lemma XInTheMiddleTokens()
    ensures var r := ParseTokens(["Buy", "milk", "x", "eggs"]);
      !r.completed && r.description == Join(["Buy", "milk", "x", "eggs"])
  {
  }

  /** A lowercase letter is not a priority. */
  lemma LowercasePriority(line: string)
    requires line == "(a)" + " " + "Lowercase" + " " + "is" + " " + "invalid"
    ensures Parse(line).priority == None
  {
    SplitsIntoFour(line, "(a)", "Lowercase", "is", "invalid");
    BadPriorityTokens();
  }

  /** Two letters are not a priority. */
  lemma TwoLetterPriority(line: string)
    requires line == "(AA)" + " " + "Too" + " " + "long"
    ensures Parse(line).priority == None
  {
    SplitsIntoThree(line, "(AA)", "Too", "long");
    BadPriorityTokens();
  }

  /** A digit is not a priority. */
  lemma DigitPriority(line: string)
    requires line == "(1)" + " " + "Not" + " " + "a" + " " + "letter"
    ensures Parse(line).priority == None
  {
    SplitsIntoFour(line, "(1)", "Not", "a", "letter");
    BadPriorityTokens();
  }

  lemma BadPriorityTokens()
    ensures ParseTokens(["(a)", "Lowercase", "is", "invalid"]).priority == None
    ensures ParseTokens(["(AA)", "Too", "long"]).priority == None
    ensures ParseTokens(["(1)", "Not", "a", "letter"]).priority == None
  {
  }

  /** A sigil inside a word does not make a tag. */
  lemma SigilsInsideWords(line: string)
    requires line == "Send" + " " + "email@work" + " " + "to" + " " + "boss+manager"
    ensures var r := Parse(line);
      r.projects == {} && r.contexts == {}
  {
    SplitsIntoFour(line, "Send", "email@work", "to", "boss+manager");
    SigilsInsideWordsTokens();
  }

  lemma SigilsInsideWordsTokens()
    ensures var r := ParseTokens(["Send", "email@work", "to", "boss+manager"]);
      r.projects == {} && r.contexts == {}
  {
    var ts := ["Send", "email@work", "to", "boss+manager"];
    assert ReadHeader(ts).end == 0;
    assert ts[0..] == ts;
    assert forall i :: 0 <= i < |ts| ==> ts[i][0] != '+' && ts[i][0] != '@';
    forall name | name in Tags(ts, '+') ensures false {
      TagsMembership(ts, '+', name);
    }
    forall name | name in Tags(ts, '@') ensures false {
      TagsMembership(ts, '@', name);
    }
  }

  /** A single date is the creation date, and a priority after it is description text. */
  lemma OneDateThenPriority(line: string)
    requires line == "2023-12-30" + " " + "(F)"
    ensures var r := Parse(line);
      && r.creationDate == Some(Ymd(2023, 12, 30)) && r.completionDate == None
      && r.priority == None && r.description == "(F)"
  {
    SplitsIntoTwo(line, "2023-12-30", "(F)");
    OneDateThenPriorityTokens();
  }

  lemma OneDateThenPriorityTokens()
    ensures var r := ParseTokens(["2023-12-30", "(F)"]);
      && r.creationDate == Some(Ymd(2023, 12, 30)) && r.completionDate == None
      && r.priority == None && r.description == "(F)"
  {
    var d: Date := Ymd(2023, 12, 30);
    assert FormatDate(d) == "2023-12-30";
    ParseOfFormat(d);
    var ts := ["2023-12-30", "(F)"];
    assert PriorityOf(ts[0]) == None && ParseDate(ts[1]) == None;
    var h := ReadHeader(ts);
    assert h.date1 == Some(d) && h.date2 == None && h.end == 1;
    assert ts[1..] == ["(F)"];
  }

  /** The marker, then the priority, then the description. */
  lemma PrecedenceLine(line: string)
    requires line == "x" + " " + "(F)" + " " + "test"
    ensures var r := Parse(line);
      && r.completed && r.priority == Some('F') && r.description == "test"
      && r.completionDate == None && r.creationDate == None
  {
    SplitsIntoThree(line, "x", "(F)", "test");
    PrecedenceLineTokens();
  }

  lemma PrecedenceLineTokens()
    ensures var r := ParseTokens(["x", "(F)", "test"]);
      && r.completed && r.priority == Some('F') && r.description == "test"
      && r.completionDate == None && r.creationDate == None
  {
  }

  /** The same task written back: marker, priority, description, one space apart. */
  lemma ShowPrecedenceLine()
    ensures Show(TodoItem(true, Some('F'), None, None, {}, {}, "test")) == Some("x (F) test")
  {
    var r := TodoItem(true, Some('F'), None, None, {}, {}, "test");
    TrimOfTrimmed("test");
    assert PriorityText(r) == "(F) ";
    assert "x " + "(F) " + "" + "test" == "x (F) test";
  }

  /** A repeated tag is collected once and kept twice in the description. */
  lemma DuplicateTagsCollapse(line: string)
    requires line == "+x" + " " + "+x"
    ensures var r := Parse(line);
      r.projects == {"x"} && r.contexts == {} && r.description == line
  {
    SplitsIntoTwo(line, "+x", "+x");
    DuplicateTagsCollapseTokens();
  }

  lemma DuplicateTagsCollapseTokens()
    ensures var r := ParseTokens(["+x", "+x"]);
      r.projects == {"x"} && r.contexts == {} && r.description == Join(["+x", "+x"])
  {
    var ts := ["+x", "+x"];
    assert ReadHeader(ts).end == 0;
    assert ts[0..] == ts;
    assert ts[..1] == ["+x"] && ts[..1][..0] == [];
  }
}
