/**
 * The in-memory task list: appending a parsed line, the stable sort by
 * priority, and reading and writing the list one line per task.
 */
module Lists {
  import opened Wrappers
  import opened Strings
  import opened Items
  import opened RoundTrip

  // ---------------------------------------------------------------------------
  // The priority order

  /** The derived order of `Option<char>`: `None` below every letter, letters by code point. */
  predicate PriorityLess(p: Option<char>, q: Option<char>) {
    match (p, q)
    case (None, Some(_)) => true
    case (Some(a), Some(b)) => a < b
    case _ => false
  }

  /** A number for each priority that orders priorities the same way. */
  function Rank(p: Option<char>): nat {
    if p.None? then 0 else p.value as nat + 1
  }

  lemma RankOrder(p: Option<char>, q: Option<char>)
    ensures PriorityLess(p, q) <==> Rank(p) < Rank(q)
  {
  }

  /** No item is outranked by an item after it. */
  predicate IsSortedByPriority(s: seq<TodoItem>) {
    forall i, j :: 0 <= i < j < |s| ==> Rank(s[j].priority) <= Rank(s[i].priority)
  }

  /** The items whose priority is `p`, in their order. */
  function WithPriority(s: seq<TodoItem>, p: Option<char>): seq<TodoItem> {
    if s == [] then []
    else (if s[0].priority == p then [s[0]] else []) + WithPriority(s[1..], p)
  }

  /**
   * Puts `x` after every item of the sorted `s` that it does not outrank:
   * the step of a stable sort by the comparator `b.priority.cmp(&a.priority)`.
   */
  function Insert(x: TodoItem, s: seq<TodoItem>): seq<TodoItem> {
    if s == [] || PriorityLess(s[0].priority, x.priority) then [x] + s
    else [s[0]] + Insert(x, s[1..])
  }

  /** The stable sort of `s` by descending priority. */
  function SortedByPriority(s: seq<TodoItem>): seq<TodoItem> {
    if s == [] then [] else Insert(s[|s| - 1], SortedByPriority(s[..|s| - 1]))
  }

  /** The sortedness predicate says that no item's priority is below a later one's. */
  lemma SortedMeansDescending(s: seq<TodoItem>, i: nat, j: nat)
    requires IsSortedByPriority(s) && i < j < |s|
    ensures !PriorityLess(s[i].priority, s[j].priority)
  {
    RankOrder(s[i].priority, s[j].priority);
  }

  lemma {:induction false} InsertIsPermutation(x: TodoItem, s: seq<TodoItem>)
    ensures multiset(Insert(x, s)) == multiset(s) + multiset{x}
  {
    if s != [] && !PriorityLess(s[0].priority, x.priority) {
      InsertIsPermutation(x, s[1..]);
      assert s == [s[0]] + s[1..];
    }
  }

  lemma {:induction false} InsertIsSorted(x: TodoItem, s: seq<TodoItem>)
    requires IsSortedByPriority(s)
    ensures IsSortedByPriority(Insert(x, s))
    ensures |Insert(x, s)| == |s| + 1
    ensures forall i :: 0 <= i < |Insert(x, s)| ==>
      Insert(x, s)[i] == x || (Rank(Insert(x, s)[i].priority) <= (if s == [] then 0 else Rank(s[0].priority)))
  {
    RankOrder(if s == [] then None else s[0].priority, x.priority);
    if s != [] && !PriorityLess(s[0].priority, x.priority) {
      InsertIsSorted(x, s[1..]);
      var t := Insert(x, s[1..]);
      assert Insert(x, s) == [s[0]] + t;
      forall i | 0 <= i < |t| ensures Rank(t[i].priority) <= Rank(s[0].priority) {
        if t[i] != x {
          assert Rank(t[i].priority) <= Rank(s[1].priority);
        }
      }
    }
  }

  lemma {:induction false} WithPriorityAppend(a: seq<TodoItem>, b: seq<TodoItem>, p: Option<char>)
    ensures WithPriority(a + b, p) == WithPriority(a, p) + WithPriority(b, p)
  {
    if a != [] {
      assert (a + b)[1..] == a[1..] + b;
      WithPriorityAppend(a[1..], b, p);
    } else {
      assert a + b == b;
    }
  }

  lemma {:induction false} WithPriorityOfOthers(s: seq<TodoItem>, p: Option<char>)
    requires forall i :: 0 <= i < |s| ==> s[i].priority != p
    ensures WithPriority(s, p) == []
  {
    if s != [] {
      WithPriorityOfOthers(s[1..], p);
    }
  }

  /** Putting `x` in front of items it outranks adds it last among its priority. */
  lemma InsertAtFront(x: TodoItem, s: seq<TodoItem>, p: Option<char>)
    requires IsSortedByPriority(s)
    requires s == [] || PriorityLess(s[0].priority, x.priority)
    ensures WithPriority([x] + s, p) == WithPriority(s, p) + (if x.priority == p then [x] else [])
  {
    assert ([x] + s)[1..] == s;
    if x.priority == p && s != [] {
      RankOrder(s[0].priority, x.priority);
      forall i | 0 <= i < |s| ensures s[i].priority != p {
        assert Rank(s[i].priority) <= Rank(s[0].priority);
      }
      WithPriorityOfOthers(s, p);
    }
  }

  /** Inserting keeps `x` behind every earlier item of the same priority. */
  lemma {:induction false} InsertIsStable(x: TodoItem, s: seq<TodoItem>, p: Option<char>)
    requires IsSortedByPriority(s)
    ensures WithPriority(Insert(x, s), p) == WithPriority(s, p) + (if x.priority == p then [x] else [])
  {
    if s == [] || PriorityLess(s[0].priority, x.priority) {
      assert Insert(x, s) == [x] + s;
      InsertAtFront(x, s, p);
    } else {
      assert Insert(x, s) == [s[0]] + Insert(x, s[1..]);
      assert s == [s[0]] + s[1..];
      SortedTail(s);
      InsertIsStable(x, s[1..], p);
      WithPriorityCons(s[0], Insert(x, s[1..]), s[1..], p, if x.priority == p then [x] else []);
    }
  }

  lemma SortedTail(s: seq<TodoItem>)
    requires IsSortedByPriority(s) && s != []
    ensures IsSortedByPriority(s[1..])
  {
  }

  /** An item put in front of two lists whose `p`-items differ by a suffix keeps that difference. */
  lemma WithPriorityCons(h: TodoItem, t: seq<TodoItem>, u: seq<TodoItem>, p: Option<char>, e: seq<TodoItem>)
    requires WithPriority(t, p) == WithPriority(u, p) + e
    ensures WithPriority([h] + t, p) == WithPriority([h] + u, p) + e
  {
    var c := if h.priority == p then [h] else [];
    assert ([h] + t)[1..] == t;
    assert WithPriority([h] + t, p) == c + WithPriority(t, p);
    assert ([h] + u)[1..] == u;
    assert WithPriority([h] + u, p) == c + WithPriority(u, p);
    AppendAssoc(c, WithPriority(u, p), e);
  }

  lemma AppendAssoc<T>(a: seq<T>, b: seq<T>, c: seq<T>)
    ensures a + (b + c) == (a + b) + c
  {
  }

  /** The sort leaves the list ordered by descending priority. */
  lemma {:induction false} SortIsOrdered(s: seq<TodoItem>)
    ensures IsSortedByPriority(SortedByPriority(s))
    ensures |SortedByPriority(s)| == |s|
  {
    if s != [] {
      SortIsOrdered(s[..|s| - 1]);
      InsertIsSorted(s[|s| - 1], SortedByPriority(s[..|s| - 1]));
    }
  }

  /** The sort neither drops nor duplicates an item. */
  lemma {:induction false} SortIsPermutation(s: seq<TodoItem>)
    ensures multiset(SortedByPriority(s)) == multiset(s)
  {
    if s != [] {
      SortIsPermutation(s[..|s| - 1]);
      InsertIsPermutation(s[|s| - 1], SortedByPriority(s[..|s| - 1]));
      assert s == s[..|s| - 1] + [s[|s| - 1]];
    }
  }

  /** The sort is stable: the items of each priority keep their relative order. */
  lemma {:induction false} SortIsStable(s: seq<TodoItem>, p: Option<char>)
    ensures WithPriority(SortedByPriority(s), p) == WithPriority(s, p)
  {
    if s != [] {
      var init, last := s[..|s| - 1], s[|s| - 1];
      SortIsStable(init, p);
      SortIsOrdered(init);
      InsertIsStable(last, SortedByPriority(init), p);
      WithPriorityAppend(init, [last], p);
      assert s == init + [last];
    }
  }

  /** After the sort, every item without a priority comes after every item with one. */
  lemma UnprioritisedLast(s: seq<TodoItem>, i: nat, j: nat)
    requires i < j < |SortedByPriority(s)|
    requires SortedByPriority(s)[i].priority.None?
    ensures SortedByPriority(s)[j].priority.None?
  {
    SortIsOrdered(s);
  }

  /** The position where the insertion sort's inner loop stops is where `Insert` puts `x`. */
  lemma {:induction false} InsertAt(x: TodoItem, s: seq<TodoItem>, j: nat)
    requires IsSortedByPriority(s) && j <= |s|
    requires forall m :: j <= m < |s| ==> PriorityLess(s[m].priority, x.priority)
    requires j == 0 || !PriorityLess(s[j - 1].priority, x.priority)
    ensures Insert(x, s) == s[..j] + [x] + s[j..]
  {
    if j == 0 {
      assert s[..j] == [] && s[j..] == s;
    } else {
      RankOrder(s[j - 1].priority, x.priority);
      RankOrder(s[0].priority, x.priority);
      assert Rank(s[j - 1].priority) <= Rank(s[0].priority);
      var t := s[1..];
      forall m | j - 1 <= m < |t| ensures PriorityLess(t[m].priority, x.priority) {
        assert t[m] == s[m + 1];
      }
      if j > 1 {
        assert t[j - 2] == s[j - 1];
      }
      InsertAt(x, t, j - 1);
      assert s[..j] == [s[0]] + t[..j - 1];
      assert s[j..] == t[j - 1..];
    }
  }

  // ---------------------------------------------------------------------------
  // Writing

  /** What `save_to_writer` leaves in the writer, and whether it got through every item. */
  datatype Saved = Saved(text: string, complete: bool)

  /** `s` with `prefix` written before it. */
  function After(prefix: string, s: Saved): Saved {
    Saved(prefix + s.text, s.complete)
  }

  /**
   * One `writeln!` per item, stopping at the first item the serialiser
   * refuses; that item's completion marker and priority, written before the
   * refusal, stay in the output.
   */
  function Save(items: seq<TodoItem>): Saved {
    if items == [] then Saved([], true)
    else
      match Show(items[0])
      case None => Saved(MarkerText(items[0]) + PriorityText(items[0]), false)
      case Some(line) => After(line + "\n", Save(items[1..]))
  }

  lemma SaveCons(x: TodoItem, rest: seq<TodoItem>)
    ensures Save([x] + rest) ==
      if Show(x).None? then Saved(MarkerText(x) + PriorityText(x), false)
      else After(Show(x).value + "\n", Save(rest))
  {
    assert ([x] + rest)[0] == x && ([x] + rest)[1..] == rest;
  }

  /** The save of a suffix, one item at a time. */
  lemma SaveStep(items: seq<TodoItem>, k: nat)
    requires k < |items|
    ensures Save(items[k..]) ==
      if Show(items[k]).None? then Saved(MarkerText(items[k]) + PriorityText(items[k]), false)
      else After(Show(items[k]).value + "\n", Save(items[k + 1..]))
  {
    assert items[k..] == [items[k]] + items[k + 1..];
    SaveCons(items[k], items[k + 1..]);
  }

  lemma AfterAssoc(p: string, q: string, s: Saved)
    ensures After(p, After(q, s)) == After(p + q, s)
  {
    assert p + (q + s.text) == (p + q) + s.text;
  }

  lemma AfterNothing(s: Saved)
    ensures After([], s) == s
  {
    assert [] + s.text == s.text;
  }

  /** Saving goes through exactly when no item has a completion date without a creation date. */
  lemma {:induction false} SaveCompleteIff(items: seq<TodoItem>)
    ensures Save(items).complete <==> forall i :: 0 <= i < |items| ==> DatesAreOrdered(items[i])
  {
    if items != [] {
      var x, rest := items[0], items[1..];
      assert items == [x] + rest;
      SaveCons(x, rest);
      ShowSpec(x);
      SaveCompleteIff(rest);
      if forall i :: 0 <= i < |rest| ==> DatesAreOrdered(rest[i]) {
        if DatesAreOrdered(x) {
          forall i | 0 <= i < |items| ensures DatesAreOrdered(items[i]) {
            if i > 0 {
              assert items[i] == rest[i - 1];
            }
          }
        }
      } else {
        var k :| 0 <= k < |rest| && !DatesAreOrdered(rest[k]);
        assert items[k + 1] == rest[k];
      }
    }
  }

  /**
   * Saving two lists one after the other writes the first and, when the
   * first went through, then the second.
   */
  lemma {:induction false} SaveAppend(a: seq<TodoItem>, b: seq<TodoItem>)
    ensures Save(a + b) == if Save(a).complete then After(Save(a).text, Save(b)) else Save(a)
  {
    if a == [] {
      assert a + b == b;
      AfterNothing(Save(b));
    } else {
      var x, a1 := a[0], a[1..];
      assert a == [x] + a1;
      assert a + b == [x] + (a1 + b);
      SaveCons(x, a1 + b);
      SaveCons(x, a1);
      SaveAppend(a1, b);
      if Show(x).Some? && Save(a1).complete {
        AfterAssoc(Show(x).value + "\n", Save(a1).text, Save(b));
      }
    }
  }

  /** A single item is written as its line followed by a line break. */
  lemma SaveOne(x: TodoItem)
    requires DatesAreOrdered(x)
    ensures Save([x]) == Saved(Show(x).value + "\n", true)
  {
    ShowSpec(x);
    SaveCons(x, []);
    assert [x] + [] == [x];
    assert Show(x).value + "\n" + [] == Show(x).value + "\n";
  }

  // ---------------------------------------------------------------------------
  // Reading

  /** One step of `BufRead::lines`: a line, or the I/O error that ended the read. */
  datatype LineRead = Line(text: string) | ReadError(cause: string)

  /** The tasks a single line contributes: none for a whitespace-only line. */
  function Kept(line: string): seq<TodoItem> {
    if Trim(line) == [] then [] else [Parse(line)]
  }

  /** `r` with the tasks `ts` read before it. */
  function Prepend(ts: seq<TodoItem>, r: Result<seq<TodoItem>, string>): Result<seq<TodoItem>, string> {
    if r.Ok? then Ok(ts + r.value) else r
  }

  /** `load_from_reader`: the parses of the non-blank lines, or the first read error. */
  function Load(reader: seq<LineRead>): Result<seq<TodoItem>, string> {
    if reader == [] then Ok([])
    else
      match reader[0]
      case ReadError(cause) => Err(cause)
      case Line(text) => Prepend(Kept(text), Load(reader[1..]))
  }

  lemma LoadCons(x: LineRead, rest: seq<LineRead>)
    ensures Load([x] + rest) == if x.Line? then Prepend(Kept(x.text), Load(rest)) else Err(x.cause)
  {
    assert ([x] + rest)[0] == x && ([x] + rest)[1..] == rest;
  }

  /** The load of a suffix, one line at a time. */
  lemma LoadStep(reader: seq<LineRead>, k: nat)
    requires k < |reader|
    ensures Load(reader[k..]) ==
      if reader[k].Line? then Prepend(Kept(reader[k].text), Load(reader[k + 1..])) else Err(reader[k].cause)
  {
    assert reader[k..] == [reader[k]] + reader[k + 1..];
    LoadCons(reader[k], reader[k + 1..]);
  }

  lemma PrependAssoc(k: seq<TodoItem>, u: seq<TodoItem>, r: Result<seq<TodoItem>, string>)
    ensures Prepend(k, Prepend(u, r)) == Prepend(k + u, r)
  {
    if r.Ok? {
      assert k + (u + r.value) == (k + u) + r.value;
    }
  }

  lemma PrependNothing(r: Result<seq<TodoItem>, string>)
    ensures Prepend([], r) == r
  {
    if r.Ok? {
      assert [] + r.value == r.value;
    }
  }

  /** A whitespace-only line is skipped; any other line is parsed into one task. */
  lemma LoadOne(text: string)
    ensures Load([Line(text)]) == Ok(if IsBlank(text) then [] else [Parse(text)])
  {
    TrimEmptyIffBlank(text);
    LoadCons(Line(text), []);
    assert [Line(text)] + [] == [Line(text)];
    assert Kept(text) + [] == Kept(text);
  }

  /** Loading is line by line: two readers one after the other load as their concatenation. */
  lemma {:induction false} LoadAppend(a: seq<LineRead>, b: seq<LineRead>)
    ensures Load(a + b) == if Load(a).Ok? then Prepend(Load(a).value, Load(b)) else Load(a)
  {
    if a == [] {
      assert a + b == b;
      PrependNothing(Load(b));
    } else {
      var x, a1 := a[0], a[1..];
      assert a == [x] + a1;
      assert a + b == [x] + (a1 + b);
      LoadCons(x, a1 + b);
      LoadCons(x, a1);
      LoadAppend(a1, b);
      if x.Line? && Load(a1).Ok? {
        PrependAssoc(Kept(x.text), Load(a1).value, Load(b));
      }
    }
  }

  /** Loading succeeds exactly when no read fails. */
  lemma {:induction false} LoadSucceedsIff(reader: seq<LineRead>)
    ensures Load(reader).Ok? <==> forall i :: 0 <= i < |reader| ==> reader[i].Line?
  {
    if reader != [] {
      var x, rest := reader[0], reader[1..];
      assert reader == [x] + rest;
      LoadCons(x, rest);
      LoadSucceedsIff(rest);
      if x.Line? && !Load(rest).Ok? {
        var k :| 0 <= k < |rest| && !rest[k].Line?;
        assert reader[k + 1] == rest[k];
      }
      if x.Line? && Load(rest).Ok? {
        forall i | 0 <= i < |reader| ensures reader[i].Line? {
          if i > 0 {
            assert reader[i] == rest[i - 1];
          }
        }
      }
    }
  }

  /** A failed load reports the first read error; nothing after it is read. */
  lemma {:induction false} LoadStopsAtFirstError(reader: seq<LineRead>, k: nat)
    requires k < |reader| && reader[k].ReadError?
    requires forall i :: 0 <= i < k ==> reader[i].Line?
    ensures Load(reader) == Err(reader[k].cause)
  {
    LoadStep(reader, 0);
    assert reader[0..] == reader;
    if k > 0 {
      var rest := reader[1..];
      assert rest[k - 1] == reader[k];
      forall i | 0 <= i < k - 1 ensures rest[i].Line? {
        assert rest[i] == reader[i + 1];
      }
      LoadStopsAtFirstError(rest, k - 1);
    }
  }

  /** The reader over an in-memory text: every line of `BufRead::lines`, none failing. */
  function Reader(text: string): (reader: seq<LineRead>)
    ensures |reader| == |Lines(text)|
    ensures forall i :: 0 <= i < |reader| ==> reader[i] == Line(Lines(text)[i])
  {
    var ls := Lines(text);
    seq(|ls|, i requires 0 <= i < |ls| => Line(ls[i]))
  }

  function LoadText(text: string): Result<seq<TodoItem>, string> {
    Load(Reader(text))
  }

  /** Reading from a text cannot fail. */
  lemma LoadTextSucceeds(text: string)
    ensures LoadText(text).Ok?
  {
    var reader := Reader(text);
    forall i | 0 <= i < |reader| ensures reader[i].Line? {
      assert reader[i] == Line(Lines(text)[i]);
    }
    LoadSucceedsIff(reader);
  }

  // ---------------------------------------------------------------------------
  // The save/load round trip

  /** The tasks that survive being written and read back: parser outputs with at least one token. */
  predicate Reloadable(r: TodoItem) {
    Canonical(r) && HeaderTokens(r) + Tokens(r.description) != []
  }

  /** A non-blank line parses into a reloadable task. */
  lemma ParseIsReloadable(s: string)
    requires !IsBlank(s)
    ensures Reloadable(Parse(s))
  {
    ParseIsCanonical(s);
    ParseSplitsTokens(Tokens(s));
    TokensEmptyIffBlank(s);
  }

  /** A line parses into the empty task exactly when it is blank. */
  lemma ParseEmptyIffBlank(s: string)
    ensures Parse(s) == EmptyItem <==> IsBlank(s)
  {
    TokensEmptyIffBlank(s);
    if IsBlank(s) {
      assert ReadHeader([]).end == 0;
    } else {
      ParseSplitsTokens(Tokens(s));
    }
  }

  /**
   * The task `add_item` makes of a blank line is not reloadable: it is saved
   * as an empty line, and the load skips that line.
   */
  lemma BlankTaskIsDropped()
    ensures !Reloadable(EmptyItem)
    ensures Save([EmptyItem]) == Saved("\n", true)
    ensures LoadText("\n") == Ok([])
  {
    assert Tokens([]) == [];
    TrimOfTrimmed([]);
    SaveCons(EmptyItem, []);
    assert Lines("\n") == [[]];
    LoadOne([]);
  }

  predicate AllReloadable(items: seq<TodoItem>) {
    forall i :: 0 <= i < |items| ==> Reloadable(items[i])
  }

  lemma AllReloadableAppend(a: seq<TodoItem>, b: seq<TodoItem>)
    requires AllReloadable(a) && AllReloadable(b)
    ensures AllReloadable(a + b)
  {
    forall i | 0 <= i < |a + b| ensures Reloadable((a + b)[i]) {
      if i < |a| {
        assert (a + b)[i] == a[i];
      } else {
        assert (a + b)[i] == b[i - |a|];
      }
    }
  }

  /** What a single line contributes to a load is reloadable. */
  lemma KeptIsReloadable(text: string)
    ensures AllReloadable(Kept(text))
  {
    TrimEmptyIffBlank(text);
    if Trim(text) != [] {
      ParseIsReloadable(text);
    }
  }

  /** Everything a load produced is reloadable. */
  lemma {:induction false} LoadedAreReloadable(reader: seq<LineRead>)
    requires Load(reader).Ok?
    ensures AllReloadable(Load(reader).value)
  {
    if reader != [] {
      var x, rest := reader[0], reader[1..];
      assert reader == [x] + rest;
      LoadCons(x, rest);
      LoadedAreReloadable(rest);
      KeptIsReloadable(x.text);
      AllReloadableAppend(Kept(x.text), Load(rest).value);
    }
  }

  /** The line written for a canonical task is flat: its only whitespace is the plain space. */
  lemma ShowIsFlat(r: TodoItem)
    requires Canonical(r)
    ensures Show(r).Some? && IsFlat(Show(r).value)
  {
    var d := Tokens(r.description);
    ShowSpec(r);
    HeaderIsWords(r);
    SpacedIsFlat(HeaderTokens(r));
    JoinShape(d);
    TrimOfTrimmed(r.description);
    FlatAppend(Spaced(HeaderTokens(r)), Trim(r.description));
  }

  /** The line written for a task with at least one token is not blank. */
  lemma ShowIsNotBlank(r: TodoItem)
    requires Reloadable(r)
    ensures Show(r).Some? && Trim(Show(r).value) != []
  {
    ShowTokens(r);
    TokensEmptyIffBlank(Show(r).value);
    TrimEmptyIffBlank(Show(r).value);
  }

  /** The line written for a reloadable task reads back as that task and is not skipped. */
  lemma ShowIsLine(r: TodoItem)
    requires Reloadable(r)
    ensures Show(r).Some?
    ensures IsPlainLine(Show(r).value) && Trim(Show(r).value) != []
    ensures Parse(Show(r).value) == r
  {
    ShowParseOfCanonical(r);
    ShowIsFlat(r);
    FlatIsPlainLine(Show(r).value);
    ShowIsNotBlank(r);
  }

  /** The reader over a text that starts with a plain line. */
  lemma ReaderOfLine(line: string, rest: string)
    requires IsPlainLine(line)
    ensures Reader(line + "\n" + rest) == [Line(line)] + Reader(rest)
  {
    LinesOfLine(line, rest);
    var a, b := Reader(line + "\n" + rest), [Line(line)] + Reader(rest);
    assert |a| == |b|;
    forall i | 0 <= i < |a| ensures a[i] == b[i] {
      if i > 0 {
        assert b[i] == Reader(rest)[i - 1];
      }
    }
  }

  /**
   * A list of reloadable tasks is saved whole and loads back unchanged. The
   * requirement is needed: a blank task, which `add_item` makes of a blank
   * line, is saved as an empty line that the load skips (`BlankTaskIsDropped`).
   */
  lemma {:induction false} SaveThenLoad(items: seq<TodoItem>)
    requires AllReloadable(items)
    ensures Save(items).complete
    ensures LoadText(Save(items).text) == Ok(items)
  {
    if items == [] {
      assert Reader([]) == [];
    } else {
      var x, more := items[0], items[1..];
      assert items == [x] + more;
      ShowIsLine(x);
      var line := Show(x).value;
      SaveCons(x, more);
      SaveThenLoad(more);
      var rest := Save(more).text;
      assert Save(items).text == line + "\n" + rest;
      ReaderOfLine(line, rest);
      LoadCons(Line(line), Reader(rest));
      assert Kept(line) == [x];
    }
  }

  /**
   * The file round trip: saving what a load produced goes through, and
   * loading the saved text gives the same tasks.
   */
  lemma LoadSaveLoad(reader: seq<LineRead>)
    requires Load(reader).Ok?
    ensures Save(Load(reader).value).complete
    ensures LoadText(Save(Load(reader).value).text) == Load(reader)
  {
    LoadedAreReloadable(reader);
    SaveThenLoad(Load(reader).value);
  }

  /** The same round trip starting from a text. */
  lemma LoadSaveLoadText(text: string)
    ensures LoadText(text).Ok?
    ensures Save(LoadText(text).value).complete
    ensures LoadText(Save(LoadText(text).value).text) == LoadText(text)
  {
    LoadTextSucceeds(text);
    LoadSaveLoad(Reader(text));
  }

  // ---------------------------------------------------------------------------
  // The list

  /** `TodoList`: the tasks, in the order they were added or read. */
  class TodoList {
    var items: seq<TodoItem>

    /** `TodoList::default()`. */
    constructor ()
      ensures items == []
    {
      items := [];
    }

    /** `add_item`: parses the line and appends the task; the parse cannot fail. */
    method AddItem(input: string)
      modifies this
      ensures items == old(items) + [Parse(input)]
    {
      var item := FromStr(input);
      items := items + [item];
    }

    /** `sort_by_priority`: the stable sort by descending priority, in place. */
    method SortByPriority()
      modifies this
      ensures items == SortedByPriority(old(items))
    {
      var a := items;
      ghost var s := items;
      for i := 0 to |a|
        invariant |a| == |s|
        invariant a[..i] == SortedByPriority(s[..i])
        invariant a[i..] == s[i..]
      {
        SortIsOrdered(s[..i]);
        assert a[i] == s[i];
        a := Settle(a, i);
        assert s[..i + 1][..i] == s[..i];
      }
      assert a == a[..|a|] && s == s[..|s|];
      items := a;
    }

    /** `save_to_writer`: writes one line per task and stops at the first refusal. */
    method SaveToWriter() returns (written: string, complete: bool)
      ensures Saved(written, complete) == Save(items)
    {
      written := [];
      AfterNothing(Save(items));
      assert items[0..] == items;
      for k := 0 to |items|
        invariant Save(items) == After(written, Save(items[k..]))
      {
        var item := items[k];
        SaveStep(items, k);
        var line := Show(item);
        if line.None? {
          assert written + (MarkerText(item) + PriorityText(item)) == written + MarkerText(item) + PriorityText(item);
          written := written + MarkerText(item) + PriorityText(item);
          complete := false;
          return;
        }
        AfterAssoc(written, line.value + "\n", Save(items[k + 1..]));
        written := written + (line.value + "\n");
      }
      assert items[|items|..] == [];
      assert written + [] == written;
      complete := true;
    }

    /** `load_from_reader`: skips whitespace-only lines, parses the rest, stops at a read error. */
    static method LoadFromReader(reader: seq<LineRead>) returns (r: Result<seq<TodoItem>, string>)
      ensures r == Load(reader)
    {
      var tasks: seq<TodoItem> := [];
      PrependNothing(Load(reader));
      assert reader[0..] == reader;
      for k := 0 to |reader|
        invariant Load(reader) == Prepend(tasks, Load(reader[k..]))
      {
        LoadStep(reader, k);
        match reader[k]
        case ReadError(cause) =>
          return Err(cause);
        case Line(line) =>
          PrependAssoc(tasks, Kept(line), Load(reader[k + 1..]));
          if Trim(line) != [] {
            var task := FromStr(line);
            tasks := tasks + [task];
          } else {
            assert tasks + Kept(line) == tasks;
          }
      }
      assert reader[|reader|..] == [];
      assert tasks + [] == tasks;
      return Ok(tasks);
    }
  }

  /** One pass of the insertion sort: moves `a[i]` left past every item it outranks. */
  method Settle(a: seq<TodoItem>, i: nat) returns (b: seq<TodoItem>)
    requires i < |a| && IsSortedByPriority(a[..i])
    ensures |b| == |a|
    ensures b[..i + 1] == Insert(a[i], a[..i])
    ensures b[i + 1..] == a[i + 1..]
  {
    var x := a[i];
    ghost var s := a[..i];
    b := a;
    var j := i;
    while j > 0 && PriorityLess(b[j - 1].priority, x.priority)
      invariant 0 <= j <= i && |b| == |a|
      invariant b[..i + 1] == s[..j] + [x] + s[j..]
      invariant b[i + 1..] == a[i + 1..]
      invariant forall m :: j <= m < i ==> PriorityLess(s[m].priority, x.priority)
    {
      var prev := b[j - 1];
      assert prev == s[j - 1] && b[j] == x;
      b := b[j - 1 := x][j := prev];
      j := j - 1;
      assert b[..i + 1] == s[..j] + [x] + s[j..];
    }
    assert j > 0 ==> b[j - 1] == s[j - 1];
    InsertAt(x, s, j);
  }
}
