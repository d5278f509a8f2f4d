# todo-inator in Dafny

A model of the library part of todo-inator, a one-task-per-line todo-list
format, with proofs about it. The library has three parts:

- **The line parser** (`TodoItem::from_str`). A line is split into its
  whitespace-separated tokens and read front to back:
  - an optional completion marker `x`;
  - an optional priority `(A)` to `(Z)`;
  - up to two `YYYY-MM-DD` dates (two dates are completion then creation;
    one date is the creation date);
  - the remaining tokens, joined by single spaces, as the description;
  - the `+name` and `@name` tokens of the description, also collected as
    the sets of projects and contexts.

  The parser never fails.
- **The line serialiser** (`Display for TodoItem`). It writes the fields
  back in that order and then the trimmed description. It refuses, with
  `fmt::Error`, a task that has a completion date but no creation date.
- **The task list** (`TodoList`):
  - `add_item` parses a line and appends the task;
  - `sort_by_priority` stably sorts by descending priority, with
    unprioritised tasks last;
  - `load_from_reader` skips whitespace-only lines, parses the others and
    stops at the first read error;
  - `save_to_writer` writes one line per task.

The modules follow that structure:

- `Wrappers`: Option and Result.
- `Strings`: `split_whitespace`, `trim`, `join(" ")` and `BufRead::lines`
  over `seq<char>`. Whitespace is Unicode's White_Space property, as
  `char::is_whitespace` uses it.
- `Dates`: the date type (a valid proleptic Gregorian day with a four-digit
  year), a strict `DDDD-DD-DD` recogniser and the zero-padded formatter.
- `Items`: the record, the parser and the serialiser.
  - The parser is the function `Parse`, with `ReadHeader` as its cursor over
    the tokens. The method `FromStr` follows the source's imperative reading
    and is proved equal to `Parse`.
  - The serialiser is `Show`. It returns `None` for `fmt::Error`.
- `RoundTrip`: the link between the two.
  - The parser splits the tokens into a header and a description.
  - The serialiser writes back exactly those tokens.
  - The parser's outputs are exactly the records that survive a
    serialise-then-parse trip (`Canonical`).
  - So `parse(show(parse(s))) == parse(s)`: a lookalike token left in the
    description (`(a)`, a second `x`, `(F)` after a date) is never promoted
    to a field.
- `Fields`: what the parser promises field by field, stated over the tokens
  of the line.
- `Lists`: the priority order and a stable sort as a specification, the
  `TodoList` class, and the save and load functions.
  - The reader is a sequence of `LineRead` values: a line, or the I/O error
    that ended the read.
  - The writer's output is a `Saved` value: the text written and whether
    every task was written.
  - This module also holds the file round trip
    `load(save(load(text))) == load(text)`.
- `Examples`: lines from the repository's tests and two further cases (a
  repeated tag, and the writing back of one task), and what the model makes
  of them.

The class methods are imperative, with a loop each where the source has one.
Each is proved equal to a specification function, and the properties are
proved about those functions:

- `SortByPriority`: an insertion sort on a local copy of the items whose
  inner pass is `Settle`.
- `SaveToWriter`: one loop pass per task.
- `LoadFromReader`: one loop pass per line.

Behaviour of the code worth noting:

- A token that has the date shape but names no real day (`2024-13-01`) is
  not an error. `parse_from_str` fails, the failure is discarded, and the
  token is left in the description. `TodoError::InvalidDate`
  (src/lib.rs:32-33) is declared but never produced.
- The second date stage (src/lib.rs:82-87) is not nested under the first.
  It is modelled as written. `RoundTrip.ReadHeaderReads` shows that a second
  date is never read without a first, so the `(None, Some(_))` case that
  the arm at src/lib.rs:93 would also absorb never arises.
- `add_item` cannot fail.
- The sort is stable, because `sort_by` is.

## Model

| member | source | states |
|---|---|---|
| Dates.ParseDate | src/lib.rs:75-80 | the recogniser accepts only a ten-character `DDDD-DD-DD` word, and only when it names a valid day |
| Dates.ParseOfFormat | src/lib.rs:132-138 | a date written by the serialiser is recognised as the same date |
| Dates.FormatOfParse | src/lib.rs:75-87 | a recognised token is exactly the serialiser's text for its date (strictness) |
| Dates.FormatIsWord | src/lib.rs:132-138 | a written date is one ten-character token without whitespace |
| Strings.Tokens | src/lib.rs:49 | every token of the split is non-empty and holds no whitespace |
| Strings.TokensEmptyIffBlank | src/lib.rs:181 | a text has no tokens exactly when it is whitespace only |
| Strings.TokensOfJoin | src/lib.rs:96-97 | splitting the single-space join of tokens gives back the same tokens |
| Strings.JoinShape | src/lib.rs:96-97 | a joined description has single spaces as its only whitespace, is empty only for no tokens, and neither starts nor ends with whitespace |
| Strings.TokensOfTrim | src/lib.rs:145 | trimming the description never changes its tokens |
| Strings.TrimEmptyIffBlank | src/lib.rs:181 | `line.trim().is_empty()` holds exactly when the line is whitespace only |
| Strings.LinesOfUnlines | src/lib.rs:177-179 | lines each written with a `\n` and read back by `lines()` are the same lines, when none holds `\n` or ends in `\r` |
| Strings.LinesOfLine | src/lib.rs:177-179 | reading a plain line and its terminator yields that line, followed by the lines of the rest |
| Items.PriorityOf | src/lib.rs:59-70 | a token is taken as a priority only when it is `(`, an uppercase letter `A`-`Z`, `)` |
| Items.PriorityOfToken | src/lib.rs:128-130 | the written priority `(P)` is read back as `P`, and only a letter is |
| Items.TagsMembership | src/lib.rs:99-108 | a name is a tag exactly when some token is the sigil followed by that non-empty name |
| Items.CollectTags | src/lib.rs:99-108 | the tag loop collects exactly the projects and contexts of the remaining tokens |
| Items.FromStr | src/lib.rs:48-119 | the imperative parse returns the parse of its input for every string (it has no error path) |
| Items.SpacedDates | src/lib.rs:132-143 | the dates are written completion first, then creation, each followed by a space |
| Items.ShowSpec | src/lib.rs:122-148 | serialising fails exactly for a completion date without a creation date; otherwise it writes each header token and a space, then the trimmed description |
| Items.ShowTokens | src/lib.rs:122-148 | the written line splits into the header tokens followed by the description's tokens |
| RoundTrip.HeaderFields | src/lib.rs:89-94 | two dates read become completion and creation date, one becomes the creation date |
| RoundTrip.ReadHeaderReads | src/lib.rs:51-87 | each stage consumes one token only when that token is its field, and a second date is read only after a first |
| RoundTrip.HeaderTokensOfHeader | src/lib.rs:51-94 | the header fields of a parse are written back as exactly the tokens they were read from |
| RoundTrip.HeaderTokensOfParse | src/lib.rs:51-94 | the serialised header of a parse is the prefix of the tokens that the parser consumed |
| RoundTrip.ParseSplitsTokens | src/lib.rs:48-97 | the tokens of a line are the serialised header of its parse followed by the tokens of its description |
| RoundTrip.ReadHeaderOfCanonical | src/lib.rs:51-87 | re-reading a canonical record's written tokens gives back its header fields and stops at its description |
| RoundTrip.ParseIsCanonical | src/lib.rs:45-120 | every parse has ordered dates, a letter priority, a single-spaced description, exactly the description's tags and no header lookalike at the head of the description |
| RoundTrip.ShowParseOfCanonical | src/lib.rs:122-149 | a canonical record is serialised and parsed back unchanged |
| RoundTrip.CanonicalIffRoundTrips | src/lib.rs:45-149 | a record survives serialise-then-parse exactly when it is canonical |
| RoundTrip.ParseShowParse | fuzz/fuzz_targets/fuzz_target_1.rs:14-20 | serialising a parse never fails, keeps the line's tokens, and parses back to the same record |
| Fields.ParseCompleted | src/lib.rs:51-57 | completed exactly when the first token is `x`; any other `x` lies in the description |
| Fields.ParsePriority | src/lib.rs:59-70 | the priority is `c` exactly when the token after the optional marker is `(c)` with `c` uppercase; a priority-shaped token anywhere else lies in the description |
| Fields.DatesOfHeader | src/lib.rs:72-94 | the date rules, stated over the header that was read |
| Fields.ParseDates | src/lib.rs:72-94 | a completion date is set exactly when two dates follow the marker and priority (first is completion, second creation); otherwise the creation date is the single date there, or none; never a completion date without a creation date |
| Fields.ParseDescription | src/lib.rs:96-97 | the description's tokens are the tokens after the header, in order; it is their single-space join, is its own trim and holds no other whitespace |
| Fields.ParseTags | src/lib.rs:99-108 | the projects and contexts are the names of the description's `+name` / `@name` tokens with a non-empty name |
| Lists.RankOrder | src/lib.rs:160 | the numeric rank orders priorities as `Option<char>` does, with `None` lowest |
| Lists.SortedMeansDescending | src/lib.rs:157-161 | in a sorted list no item has a lower priority than a later one |
| Lists.SortIsOrdered | src/lib.rs:157-161 | the sort yields a list ordered by descending priority, of the same length |
| Lists.SortIsPermutation | src/lib.rs:157-161 | the sort neither drops nor duplicates an item |
| Lists.SortIsStable | src/lib.rs:157-161 | the items of each priority keep their relative order |
| Lists.UnprioritisedLast | src/lib.rs:158-160 | after the sort, every item without a priority comes after every item with one |
| Lists.Settle | src/lib.rs:160 | one insertion pass puts the next item where the stable sort step places it and leaves the rest alone |
| Lists.SaveCompleteIff | src/lib.rs:211-216 | saving writes every item exactly when none has a completion date without a creation date |
| Lists.SaveAppend | src/lib.rs:211-216 | saving a list is saving its first part and, if that went through, then the rest |
| Lists.SaveOne | src/lib.rs:213 | a single item is written as its line and a line break |
| Lists.LoadOne | src/lib.rs:177-189 | a whitespace-only line yields no task; any other line yields its parse |
| Lists.LoadAppend | src/lib.rs:177-191 | loading is line by line: two readers in a row load as the tasks of the first followed by those of the second |
| Lists.LoadSucceedsIff | src/lib.rs:177-191 | loading succeeds exactly when no read fails |
| Lists.LoadStopsAtFirstError | src/lib.rs:179 | a failed load reports the first read error, whatever follows it |
| Lists.LoadTextSucceeds | src/lib.rs:174-192 | loading from an in-memory text cannot fail |
| Lists.ParseEmptyIffBlank | src/lib.rs:48-119 | a line parses into the empty task (no marker, priority, dates, tags or description) exactly when it is blank |
| Lists.BlankTaskIsDropped | src/lib.rs:174-216 | the empty task is not reloadable: it is saved as an empty line and loading that text gives no tasks |
| Lists.ParseIsReloadable | src/lib.rs:181-186 | a non-blank line parses into a canonical task with at least one token |
| Lists.LoadedAreReloadable | src/lib.rs:174-192 | every task a load produces is canonical and has at least one token |
| Lists.ShowIsLine | src/lib.rs:122-149 | such a task is written as one non-blank line without line breaks that parses back to the task |
| Lists.ReaderOfLine | src/lib.rs:177-179 | reading a written plain line yields that line, followed by whatever follows |
| Lists.SaveThenLoad | src/lib.rs:174-216 | a list of such tasks is saved whole and loads back unchanged; the requirement matters because a blank task, which `add_item` makes of a blank line, is dropped (see `BlankTaskIsDropped`) |
| Lists.LoadSaveLoad | fuzz/fuzz_targets/fileOperations.rs:14-26 | saving what a load produced goes through, and loading the saved text gives the same tasks |
| Lists.LoadSaveLoadText | fuzz/fuzz_targets/fileOperations.rs:14-26 | the same round trip from any text: load, save, load gives the first load's tasks |
| Lists.TodoList.constructor | src/lib.rs:22-25 | a new list holds no tasks |
| Lists.TodoList.AddItem | src/lib.rs:152-156 | the parse of the input is appended and the earlier items are unchanged |
| Lists.TodoList.SortByPriority | src/lib.rs:157-161 | the items become their stable sort by descending priority (ordered, a permutation and stable by the lemmas above) |
| Lists.TodoList.SaveToWriter | src/lib.rs:211-216 | the text written and whether every item was written are those of `Save` on the items |
| Lists.TodoList.LoadFromReader | src/lib.rs:174-192 | the loop returns the parses of the non-blank lines, or the first read error, as `Load` does |
| Examples.XInTheMiddle | tests/parsingAndToString.rs:56-63 | the line `Buy milk x eggs` parses to a task that is not completed and whose description is the whole line |
| Examples.LowercasePriority | tests/parsingAndToString.rs:66-79 | the line `(a) Lowercase is invalid` parses to a task with no priority |
| Examples.TwoLetterPriority | tests/parsingAndToString.rs:66-79 | the line `(AA) Too long` parses to a task with no priority |
| Examples.DigitPriority | tests/parsingAndToString.rs:66-79 | the line `(1) Not a letter` parses to a task with no priority |
| Examples.SigilsInsideWords | tests/parsingAndToString.rs:92-102 | the line `Send email@work to boss+manager` parses to a task with no projects and no contexts |
| Examples.OneDateThenPriority | tests/fileOperation.rs:21-34 | the line `2023-12-30 (F)` parses to a task with that creation date, no completion date, no priority, and description `(F)` |
| Examples.PrecedenceLine | tests/fileOperation.rs:14-27 | the line `x (F) test` parses to a completed task with priority `F`, no dates and description `test` |
| Examples.ShowPrecedenceLine | src/lib.rs:124-145 | that task is written back as `x (F) test` |
| Examples.DuplicateTagsCollapse | src/lib.rs:99-108 | the line `+x +x` parses to a task with the single project `x`, no contexts, and the whole line as its description |

## Left out

- `load_file` and `save_file` (src/lib.rs:166-172, 199-207) are not modelled. They open and create files, derive the `.tmp` path and rename it into place: filesystem I/O.
- The `#[cfg(fuzzing)]` wrappers (src/lib.rs:194-197, 218-221), src/main.rs (the GUI) and build.rs are not part of this model.
- `TodoError` and its messages are not modelled. An error is the string a failed read carries. `InvalidPriority`, `EmptyLine` and `Unknown` are never produced.
- Dates.ParseDate: recognises only `DDDD-DD-DD` with a four-digit year. chrono's `%Y-%m-%d` also takes unpadded fields, signs and longer years. Such tokens are description text in this model.
- Dates.FormatDate: writes four-digit years only, which are all the model's dates have.
- HashSet hashing and iteration order are not modelled. Tags are mathematical sets.
- Text is a sequence of Unicode scalar values. UTF-8 decoding is not modelled: invalid input to `lines()` is an error the caller's reader supplies as a `ReadError`.
- Lists.Save: when the serialiser refuses an item, `writeln!` reports an error or, in newer standard libraries, panics. Both are modelled as a stop with `complete` false. The text written before the refusal is kept, and which of the two happens is not modelled.
- Lists.Save: the writer is in memory. Its own I/O errors and `BufWriter` flushing are not modelled.
- Lists.TodoList.SortByPriority: the model sorts with an insertion sort on a local copy and assigns the result back. Rust's sort algorithm is not modelled, only its result, which is the stable sort.
- Lists.TodoList.AddItem: returns nothing. `add_item`'s `Result` is always `Ok` because the parse cannot fail.
- Lists.TodoList.LoadFromReader: the reader is a sequence of already-read lines or errors, not a stream.
- Lists.Reader: stands in for the `Cursor<&str>` the tests read from. It hands out the lines `Strings.Lines` cuts from an in-memory text, none of which fails; its contract only repeats that, so it has no row above.
