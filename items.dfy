/**
 * One task of the todo-list format: the TodoItem record, the line parser
 * (`TodoItem::from_str`) and the line serialiser (`Display for TodoItem`).
 *
 * A line is read as its whitespace-separated tokens, front to back: an optional
 * completion marker `x`, then an optional priority `(A)`..`(Z)`, then up to two
 * dates; every token left over is the description, and its `+name` and `@name`
 * tokens are also collected as projects and contexts.
 */
module Items {
  import opened Wrappers
  import opened Strings
  import opened Dates

  datatype TodoItem = TodoItem(
    completed: bool,
    priority: Option<char>,
    completionDate: Option<Date>,
    creationDate: Option<Date>,
    contexts: set<string>,
    projects: set<string>,
    description: string)

  /** The item `from_str` makes of a blank line. */
  const EmptyItem := TodoItem(false, None, None, None, {}, {}, [])

  predicate IsUpper(c: char) {
    'A' <= c <= 'Z'
  }

  // ---------------------------------------------------------------------------
  // Field tokens

  /** How the serialiser writes a priority: `(`, the letter, `)`. */
  function PriorityToken(c: char): string {
    "(" + [c] + ")"
  }

  /**
   * The priority a token stands for. The source asks for a token that starts
   * with `(`, ends with `)`, is three bytes long and whose middle character is
   * an uppercase letter; three bytes with one-byte brackets leave room only for
   * an ASCII letter, so this is exactly `(A)`..`(Z)`.
   */
  function PriorityOf(t: string): (p: Option<char>)
    ensures p.Some? ==> IsUpper(p.value) && t == PriorityToken(p.value)
  {
    if |t| == 3 && t[0] == '(' && t[2] == ')' && IsUpper(t[1]) then Some(t[1]) else None
  }

  /** A written priority is read back as the same priority, and only a letter is. */
  lemma PriorityOfToken(c: char)
    ensures PriorityOf(PriorityToken(c)) == (if IsUpper(c) then Some(c) else None)
  {
  }

  /** The tag a token contributes: its name when the token is the sigil and at least one more character. */
  function Tag(w: string, sigil: char): set<string> {
    if |w| > 1 && w[0] == sigil then {w[1..]} else {}
  }

  /** The names of the tags among `ws`, duplicates collapsed. */
  function Tags(ws: seq<string>, sigil: char): set<string> {
    if ws == [] then {} else Tags(ws[..|ws| - 1], sigil) + Tag(ws[|ws| - 1], sigil)
  }

  function Projects(ws: seq<string>): set<string> {
    Tags(ws, '+')
  }

  function Contexts(ws: seq<string>): set<string> {
    Tags(ws, '@')
  }

  /** A name is a tag of `ws` exactly when some token of `ws` is the sigil followed by that name. */
  lemma {:induction false} TagsMembership(ws: seq<string>, sigil: char, name: string)
    ensures name in Tags(ws, sigil) <==>
            exists i :: 0 <= i < |ws| && |ws[i]| > 1 && ws[i][0] == sigil && ws[i][1..] == name
  {
    if ws != [] {
      var init := ws[..|ws| - 1];
      TagsMembership(init, sigil, name);
      if name in Tags(init, sigil) {
        var i :| 0 <= i < |init| && |init[i]| > 1 && init[i][0] == sigil && init[i][1..] == name;
        assert ws[i] == init[i];
      }
      if exists i :: 0 <= i < |ws| && |ws[i]| > 1 && ws[i][0] == sigil && ws[i][1..] == name {
        var i :| 0 <= i < |ws| && |ws[i]| > 1 && ws[i][0] == sigil && ws[i][1..] == name;
        if i < |init| {
          assert init[i] == ws[i];
        }
      }
    }
  }

  // ---------------------------------------------------------------------------
  // The parser

  /**
   * The header fields of a line as from_str reads them, and the index of the
   * first token left for the description.
   */
  datatype Header = Header(
    completed: bool,
    priority: Option<char>,
    date1: Option<Date>,
    date2: Option<Date>,
    end: nat)

  /**
   * The positional stages of from_str over a cursor into the tokens: the
   * marker `x`, then a priority, then a first and a second date. Each stage
   * looks only at the token under the cursor and moves past it only when it
   * fits; so a token that fails one stage is offered to the next, and in the
   * end left for the description.
   */
  function ReadHeader(ts: seq<string>): (h: Header)
    ensures h.end <= |ts|
  {
    var completed := 0 < |ts| && ts[0] == "x";
    var i1 := if completed then 1 else 0;
    var priority := if i1 < |ts| then PriorityOf(ts[i1]) else None;
    var i2 := if priority.Some? then i1 + 1 else i1;
    var date1 := if i2 < |ts| then ParseDate(ts[i2]) else None;
    var i3 := if date1.Some? then i2 + 1 else i2;
    var date2 := if i3 < |ts| then ParseDate(ts[i3]) else None;
    var i4 := if date2.Some? then i3 + 1 else i3;
    Header(completed, priority, date1, date2, i4)
  }

  /**
   * from_str on the token sequence: two dates are completion then creation,
   * a single date is the creation date, and the tokens after the header are
   * the description and the source of the tags.
   */
  function ParseTokens(ts: seq<string>): TodoItem
  {
    var h := ReadHeader(ts);
    var rest := ts[h.end..];
    var dates: (Option<Date>, Option<Date>) :=
      match (h.date1, h.date2)
      case (Some(d1), Some(d2)) => (Some(d1), Some(d2))
      case (Some(d1), None) => (None, Some(d1))
      case _ => (None, None);
    TodoItem(h.completed, h.priority, dates.0, dates.1, Contexts(rest), Projects(rest), Join(rest))
  }

  /** `TodoItem::from_str`. It has no failure path: every text is a task. */
  function Parse(s: string): TodoItem {
    ParseTokens(Tokens(s))
  }

  /**
   * The loop at the end of from_str: every remaining token `+name` adds
   * `name` to the projects, every `@name` adds it to the contexts.
   */
  method CollectTags(remaining: seq<string>) returns (projects: set<string>, contexts: set<string>)
    ensures projects == Projects(remaining)
    ensures contexts == Contexts(remaining)
  {
    projects, contexts := {}, {};
    for k := 0 to |remaining|
      invariant projects == Projects(remaining[..k])
      invariant contexts == Contexts(remaining[..k])
    {
      var word := remaining[k];
      assert remaining[..k + 1][..k] == remaining[..k];
      if |word| > 1 && word[0] == '+' {
        projects := projects + {word[1..]};
      } else if |word| > 1 && word[0] == '@' {
        contexts := contexts + {word[1..]};
      }
    }
    assert remaining[..|remaining|] == remaining;
  }

  /**
   * The imperative reading of from_str: a cursor over the tokens, one guarded
   * step per stage, and a loop that collects the tags.
   */
  method FromStr(s: string) returns (item: TodoItem)
    ensures item == Parse(s)
  {
    var tokens := Tokens(s);
    ghost var h := ReadHeader(tokens);
    var i := 0;

    var completed := false;
    if i < |tokens| && tokens[i] == "x" {
      completed := true;
      i := i + 1;
    }

    var priority: Option<char> := None;
    if i < |tokens| && |tokens[i]| == 3 && tokens[i][0] == '(' && tokens[i][2] == ')' {
      var c := tokens[i][1];
      if IsUpper(c) {
        priority := Some(c);
        i := i + 1;
      }
    }

    var date1: Option<Date> := None;
    if i < |tokens| && ParseDate(tokens[i]).Some? {
      date1 := ParseDate(tokens[i]);
      i := i + 1;
    }

    var date2: Option<Date> := None;
    if i < |tokens| && ParseDate(tokens[i]).Some? {
      date2 := ParseDate(tokens[i]);
      i := i + 1;
    }

    var completionDate: Option<Date>, creationDate: Option<Date>;
    match (date1, date2) {
      case (Some(d1), Some(d2)) => completionDate, creationDate := Some(d1), Some(d2);
      case (Some(d1), None) => completionDate, creationDate := None, Some(d1);
      case _ => completionDate, creationDate := None, None;
    }

    assert completed == h.completed && priority == h.priority;
    assert date1 == h.date1 && date2 == h.date2 && i == h.end;
    var remaining := tokens[i..];
    var description := Join(remaining);

    var projects, contexts := CollectTags(remaining);

    item := TodoItem(completed, priority, completionDate, creationDate, contexts, projects, description);
  }

  // ---------------------------------------------------------------------------
  // The serialiser

  /** The dates as the serialiser writes them: completion first, then creation. */
  function DateTokens(r: TodoItem): seq<string> {
    match (r.creationDate, r.completionDate)
    case (Some(creat), Some(comp)) => [FormatDate(comp), FormatDate(creat)]
    case (Some(creat), None) => [FormatDate(creat)]
    case _ => []
  }

  /** The tokens the serialiser writes in front of the description, in order. */
  function HeaderTokens(r: TodoItem): seq<string> {
    (if r.completed then ["x"] else [])
    + (if r.priority.Some? then [PriorityToken(r.priority.value)] else [])
    + DateTokens(r)
  }

  /** Each of `ws` followed by one space. */
  function Spaced(ws: seq<string>): string {
    if ws == [] then [] else ws[0] + " " + Spaced(ws[1..])
  }

  /** The first write of `Display`: `x ` for a completed task. */
  function MarkerText(r: TodoItem): string {
    if r.completed then "x " else ""
  }

  /** The second write: `(P) ` when a priority is set. */
  function PriorityText(r: TodoItem): string {
    if r.priority.Some? then "(" + [r.priority.value] + ") " else ""
  }

  /**
   * The third write: completion and creation date, or the creation date
   * alone, or nothing; a completion date without a creation date is the
   * error case (`fmt::Error`), modelled as None.
   */
  function DatesText(r: TodoItem): Option<string> {
    match (r.creationDate, r.completionDate)
    case (Some(creat), Some(comp)) => Some(FormatDate(comp) + " " + FormatDate(creat) + " ")
    case (Some(creat), None) => Some(FormatDate(creat) + " ")
    case (None, None) => Some("")
    case (None, Some(_)) => None
  }

  /** `Display for TodoItem`, the text `to_string` gives, or None for `fmt::Error`. */
  function Show(r: TodoItem): Option<string> {
    var dates := DatesText(r);
    if dates.None? then None
    else Some(MarkerText(r) + PriorityText(r) + dates.value + Trim(r.description))
  }

  /** The one state the serialiser refuses: a completion date without a creation date. */
  predicate DatesAreOrdered(r: TodoItem) {
    r.completionDate.Some? ==> r.creationDate.Some?
  }

  lemma SpacedDates(r: TodoItem)
    requires DatesAreOrdered(r)
    ensures DatesText(r) == Some(Spaced(DateTokens(r)))
  {
    match (r.creationDate, r.completionDate)
    case (Some(creat), Some(comp)) =>
      var a, b := FormatDate(comp), FormatDate(creat);
      assert DateTokens(r)[1..] == [b];
      assert Spaced([b]) == b + " ";
      assert Spaced(DateTokens(r)) == a + " " + (b + " ");
      assert a + " " + (b + " ") == a + " " + b + " ";
    case (Some(creat), None) =>
      var b := FormatDate(creat);
      assert DateTokens(r) == [b] && DateTokens(r)[1..] == [];
      assert Spaced(DateTokens(r)) == b + " " + [];
      assert b + " " + [] == b + " ";
    case (None, None) =>
  }

  /**
   * The serialiser fails exactly on a completion date without a creation
   * date; otherwise it writes each header token followed by a space, then the
   * trimmed description.
   */
  lemma ShowSpec(r: TodoItem)
    ensures Show(r).Some? <==> DatesAreOrdered(r)
    ensures Show(r).Some? ==> Show(r).value == Spaced(HeaderTokens(r)) + Trim(r.description)
  {
    if DatesAreOrdered(r) {
      var marker := if r.completed then ["x"] else [];
      var prio := if r.priority.Some? then [PriorityToken(r.priority.value)] else [];
      SpacedAppend(marker, prio);
      SpacedAppend(marker + prio, DateTokens(r));
      assert HeaderTokens(r) == marker + prio + DateTokens(r);
      assert Spaced(marker) == MarkerText(r);
      assert Spaced(prio) == PriorityText(r);
      SpacedDates(r);
    }
  }

  lemma {:induction false} SpacedAppend(a: seq<string>, b: seq<string>)
    ensures Spaced(a + b) == Spaced(a) + Spaced(b)
  {
    if a != [] {
      assert (a + b)[1..] == a[1..] + b;
      SpacedAppend(a[1..], b);
    } else {
      assert a + b == b;
    }
  }

  /** The tokens of a spaced sequence of words are those words, whatever follows. */
  lemma {:induction false} TokensOfSpaced(ws: seq<string>, rest: string)
    requires AllWords(ws)
    ensures Tokens(Spaced(ws) + rest) == ws + Tokens(rest)
  {
    if ws == [] {
      assert Spaced(ws) + rest == rest;
    } else {
      assert Spaced(ws) + rest == ws[0] + " " + (Spaced(ws[1..]) + rest);
      TokensOfWordSpace(ws[0], Spaced(ws[1..]) + rest);
      TokensOfSpaced(ws[1..], rest);
      calc {
        Tokens(Spaced(ws) + rest);
        [ws[0]] + Tokens(Spaced(ws[1..]) + rest);
        [ws[0]] + (ws[1..] + Tokens(rest));
        ([ws[0]] + ws[1..]) + Tokens(rest);
        { assert [ws[0]] + ws[1..] == ws; }
        ws + Tokens(rest);
      }
    }
  }

  lemma {:induction false} SpacedIsFlat(ws: seq<string>)
    requires AllWords(ws)
    ensures IsFlat(Spaced(ws))
  {
    if ws != [] {
      SpacedIsFlat(ws[1..]);
      var s := Spaced(ws);
      var t := Spaced(ws[1..]);
      assert s == ws[0] + " " + t;
      forall i | 0 <= i < |s| ensures s[i] == ' ' || !IsSpace(s[i]) {
        if i < |ws[0]| {
          assert s[i] == ws[0][i];
        } else if i > |ws[0]| {
          assert s[i] == t[i - |ws[0]| - 1];
        }
      }
    }
  }

  /** A header whose priority is not whitespace consists of words. */
  lemma HeaderIsWords(r: TodoItem)
    requires r.priority.Some? ==> !IsSpace(r.priority.value)
    ensures AllWords(HeaderTokens(r))
  {
    var h := HeaderTokens(r);
    match (r.creationDate, r.completionDate)
    case (Some(creat), Some(comp)) =>
      FormatIsWord(comp);
      FormatIsWord(creat);
    case (Some(creat), None) =>
      FormatIsWord(creat);
    case _ =>
  }

  /**
   * What a later parse sees: the serialised line splits into the header
   * tokens followed by the tokens of the description.
   */
  lemma ShowTokens(r: TodoItem)
    requires DatesAreOrdered(r)
    requires r.priority.Some? ==> !IsSpace(r.priority.value)
    ensures Show(r).Some?
    ensures Tokens(Show(r).value) == HeaderTokens(r) + Tokens(r.description)
  {
    ShowSpec(r);
    HeaderIsWords(r);
    TokensOfSpaced(HeaderTokens(r), Trim(r.description));
    TokensOfTrim(r.description);
  }
}
