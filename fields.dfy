/**
 * What `from_str` promises about each field of the task it returns, stated
 * over the whitespace-separated tokens of the line.
 */
module Fields {
  import opened Wrappers
  import opened Strings
  import opened Dates
  import opened Items
  import opened RoundTrip

  /** The position of the first token after the completion marker, if any. */
  function AfterMarker(r: TodoItem): nat {
    if r.completed then 1 else 0
  }

  /** The position of the first token after the marker and the priority. */
  function AfterPriority(r: TodoItem): nat {
    AfterMarker(r) + (if r.priority.Some? then 1 else 0)
  }

  /**
   * A task is completed exactly when the first token is `x`; any other `x`
   * token is description text.
   */
  lemma ParseCompleted(s: string)
    ensures var ts := Tokens(s);
      Parse(s).completed <==> |ts| > 0 && ts[0] == "x"
    ensures var ts, r := Tokens(s), Parse(s);
      forall i :: 0 <= i < |ts| && ts[i] == "x" && (i > 0 || !r.completed) ==>
        |HeaderTokens(r)| <= i
  {
    var ts, r := Tokens(s), Parse(s);
    ParseSplitsTokens(ts);
    var h := HeaderTokens(r);
    FieldTokenFacts(r);
    forall i | 0 <= i < |ts| && ts[i] == "x" && (i > 0 || !r.completed) ensures |h| <= i {
      if i < |h| {
        assert ts[i] == h[i];
        HeaderTokenKinds(r, i);
      }
    }
  }

  /** Which kind of token each header position holds. */
  lemma HeaderTokenKinds(r: TodoItem, i: nat)
    requires i < |HeaderTokens(r)|
    ensures var t := HeaderTokens(r)[i];
      if i < AfterMarker(r) then t == "x"
      else if i < AfterPriority(r) then t == PriorityToken(r.priority.value)
      else i - AfterPriority(r) < |DateTokens(r)| && t == DateTokens(r)[i - AfterPriority(r)]
  {
    var m := if r.completed then ["x"] else [];
    var p := if r.priority.Some? then [PriorityToken(r.priority.value)] else [];
    assert HeaderTokens(r) == m + p + DateTokens(r);
  }

  /**
   * The priority is set exactly when the token right after the optional
   * marker is `(`, an uppercase letter, `)`; a priority-shaped token anywhere
   * else (after a date, after another word) is description text.
   */
  lemma ParsePriority(s: string, c: char)
    ensures var ts, r := Tokens(s), Parse(s);
      var i := AfterMarker(r);
      r.priority == Some(c) <==> i < |ts| && ts[i] == PriorityToken(c) && IsUpper(c)
    ensures var ts, r := Tokens(s), Parse(s);
      forall i :: 0 <= i < |ts| && PriorityOf(ts[i]).Some? && i != AfterMarker(r) ==>
        |HeaderTokens(r)| <= i
  {
    var ts, r := Tokens(s), Parse(s);
    ParseSplitsTokens(ts);
    var h := HeaderTokens(r);
    FieldTokenFacts(r);
    PriorityOfToken(c);
    if r.priority.Some? {
      HeaderTokenKinds(r, AfterMarker(r));
    }
    forall i | 0 <= i < |ts| && PriorityOf(ts[i]).Some? && i != AfterMarker(r) ensures |h| <= i {
      if i < |h| {
        assert ts[i] == h[i];
        HeaderTokenKinds(r, i);
        if AfterPriority(r) <= i {
          DateTokenFacts(r, i - AfterPriority(r));
        }
      }
    }
  }

  lemma DateTokenFacts(r: TodoItem, k: nat)
    requires k < |DateTokens(r)|
    ensures PriorityOf(DateTokens(r)[k]).None?
  {
    FieldTokenFacts(r);
  }

  /**
   * Up to two dates are read right after the marker and the priority: two
   * dates are the completion date and then the creation date, a single date
   * is the creation date; so there is never a completion date without a
   * creation date.
   */
  lemma ParseDates(s: string)
    ensures DatesAreOrdered(Parse(s))
    ensures var ts, r := Tokens(s), Parse(s);
      var j := AfterPriority(r);
      r.completionDate.Some? <==> j + 1 < |ts| && ParseDate(ts[j]).Some? && ParseDate(ts[j + 1]).Some?
    ensures var ts, r := Tokens(s), Parse(s);
      var j := AfterPriority(r);
      r.completionDate.Some? ==> r.completionDate == ParseDate(ts[j]) && r.creationDate == ParseDate(ts[j + 1])
    ensures var ts, r := Tokens(s), Parse(s);
      var j := AfterPriority(r);
      r.completionDate.None? ==> r.creationDate == (if j < |ts| then ParseDate(ts[j]) else None)
  {
    var ts := Tokens(s);
    HeaderFields(ts);
    DatesOfHeader(ts, Parse(s));
  }

  lemma DatesOfHeader(ts: seq<string>, r: TodoItem)
    requires FromHeader(r, ReadHeader(ts))
    ensures DatesAreOrdered(r)
    ensures var j := AfterPriority(r);
      r.completionDate.Some? <==> j + 1 < |ts| && ParseDate(ts[j]).Some? && ParseDate(ts[j + 1]).Some?
    ensures var j := AfterPriority(r);
      r.completionDate.Some? ==> r.completionDate == ParseDate(ts[j]) && r.creationDate == ParseDate(ts[j + 1])
    ensures var j := AfterPriority(r);
      r.completionDate.None? ==> r.creationDate == (if j < |ts| then ParseDate(ts[j]) else None)
  {
  }

  /**
   * The description is the tokens left after the header, in their order,
   * joined by single spaces: it has no leading or trailing whitespace and
   * keeps tag tokens verbatim.
   */
  lemma ParseDescription(s: string)
    ensures var ts, r := Tokens(s), Parse(s);
      Tokens(r.description) == ts[|HeaderTokens(r)|..]
    ensures var r := Parse(s);
      r.description == Join(Tokens(r.description)) && Trim(r.description) == r.description
    ensures IsFlat(Parse(s).description)
  {
    var ts, r := Tokens(s), Parse(s);
    ParseSplitsTokens(ts);
    var d := Tokens(r.description);
    assert ts[|HeaderTokens(r)|..] == d;
    ParseIsCanonical(s);
    JoinShape(d);
    TrimOfTrimmed(r.description);
  }

  /**
   * The projects are the names `n` of the description tokens `+n` with `n`
   * non-empty, and the contexts those of the tokens `@n`; only a token that
   * starts with the sigil counts, so `email@work` adds nothing.
   */
  lemma ParseTags(s: string, name: string)
    ensures var d := Tokens(Parse(s).description);
      name in Parse(s).projects <==>
        exists i :: 0 <= i < |d| && |d[i]| > 1 && d[i][0] == '+' && d[i][1..] == name
    ensures var d := Tokens(Parse(s).description);
      name in Parse(s).contexts <==>
        exists i :: 0 <= i < |d| && |d[i]| > 1 && d[i][0] == '@' && d[i][1..] == name
  {
    var d := Tokens(Parse(s).description);
    ParseIsCanonical(s);
    TagsMembership(d, '+', name);
    TagsMembership(d, '@', name);
  }
}
