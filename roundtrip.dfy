/**
 * What the parser promises about the fields it fills, and the round trip
 * between the parser and the serialiser: the serialiser writes back exactly
 * the tokens the parser read, so a lookalike token left in the description
 * (`(a)`, a second `x`, `(F)` after a date) is never promoted to a field.
 */
module RoundTrip {
  import opened Wrappers
  import opened Strings
  import opened Dates
  import opened Items

  /** Whether the first description token `t` would be read as one more header field of `r`. */
  predicate WouldBeField(r: TodoItem, t: string) {
    if r.completionDate.Some? then false
    else if r.creationDate.Some? then ParseDate(t).Some?
    else
      || ParseDate(t).Some?
      || (r.priority.None? && PriorityOf(t).Some?)
      || (!r.completed && r.priority.None? && t == "x")
  }

  /**
   * The records the parser can produce: dates in an order the serialiser
   * accepts, a letter as priority, a description made of single-space
   * separated tokens whose first one cannot be mistaken for a header field,
   * and exactly the tags that the description holds.
   */
  predicate Canonical(r: TodoItem) {
    var d := Tokens(r.description);
    && DatesAreOrdered(r)
    && (r.priority.Some? ==> IsUpper(r.priority.value))
    && r.description == Join(d)
    && r.projects == Projects(d)
    && r.contexts == Contexts(d)
    && (d != [] ==> !WouldBeField(r, d[0]))
  }

  /** The fields of `r` are those the parser takes from the header `h`. */
  predicate FromHeader(r: TodoItem, h: Header) {
    && r.completed == h.completed && r.priority == h.priority
    && (h.date2.Some? ==> h.date1.Some?)
    && r.completionDate == (if h.date2.Some? then h.date1 else None)
    && r.creationDate == (if h.date2.Some? then h.date2 else h.date1)
  }

  /** The parser fills the header fields from the header it read. */
  lemma HeaderFields(ts: seq<string>)
    ensures FromHeader(ParseTokens(ts), ReadHeader(ts))
  {
  }

  /** What the header `h` says about the tokens it was read from, stage by stage. */
  predicate Reads(ts: seq<string>, h: Header) {
    var i1 := if h.completed then 1 else 0;
    var i2 := if h.priority.Some? then i1 + 1 else i1;
    && (h.date2.Some? ==> h.date1.Some?)
    && h.end == i2 + (if h.date1.Some? then 1 else 0) + (if h.date2.Some? then 1 else 0)
    && h.end <= |ts|
    && (h.completed ==> ts[0] == "x")
    && (h.priority.Some? ==> ts[i1] == PriorityToken(h.priority.value))
    && (h.date1.Some? ==> ParseDate(ts[i2]) == h.date1)
    && (h.date2.Some? ==> ParseDate(ts[i2 + 1]) == h.date2)
  }

  lemma ReadHeaderReads(ts: seq<string>)
    ensures Reads(ts, ReadHeader(ts))
  {
  }

  /** A record with the fields of a header read from `ts` is written back as that prefix of `ts`. */
  lemma HeaderTokensOfHeader(ts: seq<string>, h: Header, r: TodoItem)
    requires Reads(ts, h) && FromHeader(r, h)
    ensures HeaderTokens(r) == ts[..h.end]
  {
    var i1 := if h.completed then 1 else 0;
    var i2 := if h.priority.Some? then i1 + 1 else i1;
    var e := h.end;
    var m := if r.completed then ["x"] else [];
    var p := if r.priority.Some? then [PriorityToken(r.priority.value)] else [];
    assert ts[..i1] == m;
    assert ts[i1..i2] == p;
    if h.date2.Some? {
      TwoDateTokens(r, ts[i2], ts[i2 + 1]);
      SliceOfTwo(ts, i2, e);
    } else if h.date1.Some? {
      OneDateToken(r, ts[i2]);
      SliceOfOne(ts, i2, e);
    } else {
      assert ts[i2..e] == DateTokens(r);
    }
    SliceInThree(ts, i1, i2, e, m, p, DateTokens(r));
  }

  /** Two consecutive elements as a slice. */
  lemma SliceOfTwo<T>(s: seq<T>, i: nat, k: nat)
    requires k == i + 2 <= |s|
    ensures s[i..k] == [s[i], s[i + 1]]
  {
  }

  /** One element as a slice. */
  lemma SliceOfOne<T>(s: seq<T>, i: nat, k: nat)
    requires k == i + 1 <= |s|
    ensures s[i..k] == [s[i]]
  {
  }

  /** A prefix cut into three consecutive slices. */
  lemma SliceInThree<T>(s: seq<T>, i: nat, j: nat, k: nat, a: seq<T>, b: seq<T>, c: seq<T>)
    requires i <= j <= k <= |s|
    requires s[..i] == a && s[i..j] == b && s[j..k] == c
    ensures s[..k] == a + b + c
  {
    assert s[..k] == s[..i] + s[i..j] + s[j..k];
  }

  /** Two date tokens the parser read are written back verbatim. */
  lemma TwoDateTokens(r: TodoItem, t1: string, t2: string)
    requires ParseDate(t1).Some? && ParseDate(t1) == r.completionDate
    requires ParseDate(t2).Some? && ParseDate(t2) == r.creationDate
    ensures DateTokens(r) == [t1, t2]
  {
    FormatOfParse(t1);
    FormatOfParse(t2);
  }

  /** A single date token the parser read is written back verbatim. */
  lemma OneDateToken(r: TodoItem, t: string)
    requires ParseDate(t).Some? && ParseDate(t) == r.creationDate && r.completionDate.None?
    ensures DateTokens(r) == [t]
  {
    FormatOfParse(t);
  }

  /** The header the parser read is the prefix of the tokens that the serialiser writes for it. */
  lemma HeaderTokensOfParse(ts: seq<string>)
    ensures HeaderTokens(ParseTokens(ts)) == ts[..ReadHeader(ts).end]
  {
    HeaderFields(ts);
    ReadHeaderReads(ts);
    HeaderTokensOfHeader(ts, ReadHeader(ts), ParseTokens(ts));
  }

  /** Words split at `e` into a header and the words of a description joined from the rest. */
  lemma SplitAt(ts: seq<string>, e: nat, header: seq<string>, description: string)
    requires AllWords(ts) && e <= |ts|
    requires header == ts[..e] && description == Join(ts[e..])
    ensures ts == header + Tokens(description)
  {
    AllWordsSuffix(ts, e);
    TokensOfJoin(ts[e..]);
    assert ts == ts[..e] + ts[e..];
  }

  /**
   * The parser splits the tokens of a line into a prefix that it turns into
   * header fields and a suffix that becomes the description.
   */
  lemma ParseSplitsTokens(ts: seq<string>)
    requires AllWords(ts)
    ensures ts == HeaderTokens(ParseTokens(ts)) + Tokens(ParseTokens(ts).description)
  {
    var e := ReadHeader(ts).end;
    var r := ParseTokens(ts);
    HeaderTokensOfParse(ts);
    assert r.description == Join(ts[e..]);
    SplitAt(ts, e, HeaderTokens(r), r.description);
  }

  /** The header tokens a parse can meet, and what each stage makes of them. */
  lemma FieldTokenFacts(r: TodoItem)
    ensures PriorityOf("x").None? && ParseDate("x").None?
    ensures r.priority.Some? ==>
      var t := PriorityToken(r.priority.value);
      t != "x" && ParseDate(t).None?
    ensures r.completionDate.Some? ==>
      var t := FormatDate(r.completionDate.value);
      t != "x" && PriorityOf(t).None? && ParseDate(t) == r.completionDate
    ensures r.creationDate.Some? ==>
      var t := FormatDate(r.creationDate.value);
      t != "x" && PriorityOf(t).None? && ParseDate(t) == r.creationDate
  {
    if r.completionDate.Some? {
      FormatIsWord(r.completionDate.value);
      ParseOfFormat(r.completionDate.value);
    }
    if r.creationDate.Some? {
      FormatIsWord(r.creationDate.value);
      ParseOfFormat(r.creationDate.value);
    }
  }

  /** Reading the serialised header of a canonical record gives back its fields and stops at the description. */
  lemma ReadHeaderOfCanonical(r: TodoItem)
    requires Canonical(r)
    ensures var h := ReadHeader(HeaderTokens(r) + Tokens(r.description));
      && h.completed == r.completed
      && h.priority == r.priority
      && h.date1 == (if r.completionDate.Some? then r.completionDate else r.creationDate)
      && h.date2 == (if r.completionDate.Some? then r.creationDate else None)
      && h.end == |HeaderTokens(r)|
  {
    var d := Tokens(r.description);
    FieldTokenFacts(r);
    PriorityOfToken(if r.priority.Some? then r.priority.value else 'A');
    var m := if r.completed then ["x"] else [];
    var p := if r.priority.Some? then [PriorityToken(r.priority.value)] else [];
    var ds := DateTokens(r);
    var ts := HeaderTokens(r) + d;
    assert ts == m + p + ds + d;
    var i1 := |m|;
    var i2 := |m| + |p|;
    assert 0 < |ts| ==> ts[0] == (if m != [] then "x" else if p != [] then p[0] else if ds != [] then ds[0] else d[0]);
    assert i1 < |ts| ==> ts[i1] == (if p != [] then p[0] else if ds != [] then ds[0] else d[0]);
    if r.completionDate.Some? {
      assert ts[i2] == ds[0] && ts[i2 + 1] == ds[1];
    } else if r.creationDate.Some? {
      assert ts[i2] == ds[0];
      assert i2 + 1 < |ts| ==> ts[i2 + 1] == d[0];
    } else {
      assert i2 < |ts| ==> ts[i2] == d[0];
    }
  }

  /** Every record the parser produces is canonical. */
  lemma ParseIsCanonical(s: string)
    ensures Canonical(Parse(s))
  {
    var ts := Tokens(s);
    var e := ReadHeader(ts).end;
    ParseSplitsTokens(ts);
    assert Tokens(Parse(s).description) == ts[e..];
  }

  /** A canonical record is written and read back unchanged. */
  lemma ShowParseOfCanonical(r: TodoItem)
    requires Canonical(r)
    ensures Show(r).Some?
    ensures Parse(Show(r).value) == r
  {
    var d := Tokens(r.description);
    ShowTokens(r);
    ReadHeaderOfCanonical(r);
    var ts := HeaderTokens(r) + d;
    assert Tokens(Show(r).value) == ts;
    var h := ReadHeader(ts);
    var rest := ts[h.end..];
    assert rest == d;
    var q := ParseTokens(ts);
    assert q.completed == r.completed && q.priority == r.priority;
    assert q.completionDate == r.completionDate && q.creationDate == r.creationDate;
    assert q.description == r.description;
    assert q.projects == r.projects && q.contexts == r.contexts;
  }

  /** The records that survive a serialise-then-parse round trip are exactly the parser's outputs. */
  lemma CanonicalIffRoundTrips(r: TodoItem)
    ensures Canonical(r) <==> (Show(r).Some? && Parse(Show(r).value) == r)
  {
    if Canonical(r) {
      ShowParseOfCanonical(r);
    }
    if Show(r).Some? && Parse(Show(r).value) == r {
      ParseIsCanonical(Show(r).value);
    }
  }

  /**
   * The serialiser writes back exactly the tokens the parser read, so the
   * parse of the written line is the parse of the original: no token of the
   * description is upgraded into a field on the second pass.
   */
  lemma ParseShowParse(s: string)
    ensures Show(Parse(s)).Some?
    ensures Tokens(Show(Parse(s)).value) == Tokens(s)
    ensures Parse(Show(Parse(s)).value) == Parse(s)
  {
    var r := Parse(s);
    ParseIsCanonical(s);
    ShowTokens(r);
    ParseSplitsTokens(Tokens(s));
  }
}
