# SoundGoodDB rental core in Dafny

SoundGoodDB is a command-line client for a music school's instrument rental
database. A line typed at the prompt is parsed into a command. The controller
executes the command inside an explicit database transaction. The data access
gateway runs the SQL for it. This project models those three parts and proves
what they promise:

- `parser.dfy` (module `Parser`) models `src/parser.rs`. It covers Unicode
  trimming, splitting on single spaces, and dispatch on the first one or two
  characters of the first word. It also covers the `list`, `rent` and
  `terminate` argument readers. `ParseResult` and `ParseError` are datatypes.
- `db.dfy` (module `Db`) models `src/db.rs` over an in-memory database value,
  `Tables`. Its parts are the `rentings` rows, the state of the `rent_id`
  serial sequence, and the read-only `instruments`, `instrument_types` and
  `business_rules` tables.
  - Each read-only query is a function: the two counts, `find_to_terminate`,
    `get_max_rentals`, `list_all` and `list_type`. So are the rows
    `lock_rentings` locks and the rows `terminate_rid` touches.
  - The class `Store` holds the tables of one connection. Its methods
    `Rent` and `TerminateRid` perform the two writing statements, INSERT and
    UPDATE. `LockRentings` returns the locked rows and changes no data.
  - The getters `get_id` and `get_count` are the datatype fields.
- `controller.dfy` (module `Controller`) models `src/controller.rs`. The class
  `Controller` holds the committed store and a transaction slot. The slot is
  empty or holds one open transaction.
  - A transaction is a snapshot. `begin` copies the committed store into a
    fresh working store, and every command works on that copy. `commit`
    publishes the copy; `rollback` drops it.
  - The methods `Execute`, `BeginCmd`, `CommitCmd`, `RollbackCmd`, `RentCmd`,
    `TryTerminateCmd`, `TerminateCmd` and `ListCmd` follow the Rust code step
    by step. `ListCmd` keeps its `for` loop.
  - Each method's postcondition ties its result and the new state to a step
    function over `Session`, the value the controller's state abstracts to.
  - The properties are proved about the step functions in
    `controller_props.dfy` (module `ControllerProps`).
- `int_parse.dfy` (module `IntParse`) models Rust's `str::parse::<i32>()` and
  `str::parse::<i64>()`: an optional sign, then decimal digits, with range
  checks. `wrappers.dfy` holds `Option` and `Result`.

Modelling choices, in the system's own terms:

- `CURRENT_TIMESTAMP` is the parameter `now`.
- `rent_id` is issued from the field `nextRentId`.
- A `Converted(String)` error keeps what it was converted from (`Cause`)
  instead of the message text.
- A listing line is `ListEntry(instrument, available)` instead of the
  formatted string.
- `ControlResult`'s variants are named `Began`, `Committed`, `Listed`,
  `Rented`, `RolledBack`, `Terminated` and `TryTerminated`. This keeps them
  apart from `Command`'s `Begin`, `Commit`, `List`, `Rent`, `Rollback`,
  `Terminate` and `TryTerminate`.
- Every query returns its rows in the order of the table's sequence. The SQL
  has no `ORDER BY`, so the database promises no order; the model fixes one
  (see "Left out").
- `list_type` gets the pattern `lower(filter) || '%'`. It therefore matches the
  instrument types the lower-cased filter is a prefix of. `fetch_one` takes the
  first of them in the model's table order, and no match is `RowNotFound`.
- `list` reports `RowNotFound` only when no instrument is fetched at all. When
  instruments are fetched but none has a copy left, the code returns an empty
  listing, not an error. `ListNothingAvailable` proves the empty success.

## Model

| member | source | states |
|---|---|---|
| Db.CountUserRentals | src/db.rs:197-211 | the number of active rentings of the student is at most the number of rows, and is 0 exactly when no row is an active renting of that student |
| Db.UserCountIsRows | src/db.rs:197-211 | the student's count is exactly the number of rows that are active rentings of that student |
| Db.CountInstrumentRentals | src/db.rs:172-186 | the number of active rentings of the instrument is at most the number of rows, and is 0 exactly when no row is an active renting of that instrument |
| Db.InstrumentCountIsRows | src/db.rs:172-186 | the instrument's count is exactly the number of rows that are active rentings of that instrument |
| Db.FindToTerminate | src/db.rs:279-294 | a renting is found exactly when it is an active row of that student and that instrument; the rows found are no more than either count |
| Db.FoundArePairRows | src/db.rs:279-294 | one row is found for each active renting of the pair, so several matching rows are all reported |
| Db.LockScope | src/db.rs:226-240 | the rows locked are exactly those of the student or of the instrument, and they include every row `find_to_terminate` can return |
| Db.CountRentId | src/db.rs:307-320 | the rows the UPDATE affects are the rows with that key, and there are none exactly when no row has the key |
| Db.EndRentings | src/db.rs:307-320 | the UPDATE sets the end date of every row with the key, active or not, and leaves every other row and the row order as they were |
| Db.GetMaxRentals | src/db.rs:331-341 | the `rent_max_count` rule's text when the rule exists, `RowNotFound` exactly when it does not |
| Db.FirstTypeMatching | src/db.rs:142-153 | `fetch_one` of `LIKE prefix%`: no type exactly when none starts with the prefix, otherwise the first type in table order that does |
| Db.InstrumentsOfType | src/db.rs:155-161 | an instrument is listed exactly when it has that type id |
| Db.ListType | src/db.rs:142-161 | `RowNotFound` exactly when no type starts with the pattern; otherwise exactly the instruments of the first type, in table order, that starts with it |
| Db.CountRentIdOfKey | src/db.rs:307-320 | with `rent_id` a primary key, ending an existing renting by its key affects exactly one row |
| Db.EndRentingsCountUser | src/db.rs:307-320 | ending rentings never raises a student's count of active rentings |
| Db.AppendActiveCounts | src/db.rs:254-265 | inserting an active renting adds one to its student's and its instrument's counts and changes no other count |
| Db.FindAppend | src/db.rs:279-294 | inserting a renting adds it to the rows found for its (student, instrument) pair, at the end, when it is active |
| Db.Store.LockRentings | src/db.rs:226-240 | the lock returns the rows of the student or the instrument and changes no data |
| Db.Store.Rent | src/db.rs:254-265 | the INSERT appends one active renting with the next serial key, advances the sequence, keeps the keys unique and affects 1 row |
| Db.Store.TerminateRid | src/db.rs:307-320 | the UPDATE ends the rows with the key, changes nothing else and reports how many rows had the key |
| IntParse.ParseInt | src/controller.rs:239-241 | a parsed value lies in the type's range, and the `Empty` error happens exactly for the empty string |
| IntParse.ParseDecimal | src/controller.rs:239-241 | parsing the decimal text of any number in the type's range gives that number back |
| Controller.UIParse | src/controller.rs:239-241 | both ids parse as i32 exactly when the result is Ok, which then holds them user first; otherwise the user's parse error is reported first, then the instrument's |
| Controller.MaxRentals | src/controller.rs:173 | a missing rule is `RowNotFound`; otherwise the result is Ok exactly when the rule's text parses as an i64, with the parsed value, and else that parse error; the cap lies in the i64 range |
| Controller.ToLower | src/controller.rs:213 | the filter keeps its length; each ASCII capital becomes its small letter and every other character is kept |
| Controller.Availability | src/controller.rs:221-229 | a listing entry is exactly a fetched instrument with its number of copies left, where that number is positive |
| Controller.Controller.Guard | src/controller.rs:232-236 | the open transaction when there is one, `TransactionNone` exactly when there is none |
| Controller.Controller.Execute | src/controller.rs:126-136 | each command goes to its handler; the result and the new state are those of `Exec` on the old state |
| Controller.Controller.BeginCmd | src/controller.rs:138-146 | an open transaction is dropped, then a fresh working copy equal to the committed tables is opened; the result is `Began` |
| Controller.Controller.CommitCmd | src/controller.rs:148-156 | with no transaction: `TransactionNone` and no change; otherwise the working copy becomes the committed store and the slot is emptied |
| Controller.Controller.RollbackCmd | src/controller.rs:158-166 | the slot is emptied and the committed store is untouched; `TransactionNone` when there was no transaction |
| Controller.Controller.RentCmd | src/controller.rs:168-181 | parse, guard, lock, read the cap, count, then insert or refuse, with the outcome and new state of `RentStep` |
| Controller.Controller.TryTerminateCmd | src/controller.rs:183-201 | parse, guard, lock, find, then end the single match or report none or several, as `TryTerminateStep` does |
| Controller.Controller.TerminateCmd | src/controller.rs:203-207 | guard, then parse the renting id, then end that renting, as `TerminateStep` does |
| Controller.Controller.ListCmd | src/controller.rs:209-230 | `TransactionNone` without a transaction; otherwise the listing of the working copy, built by the loop exactly as `ListTx` specifies |
| ControllerProps.UIParseDecimal | src/controller.rs:239-241 | `u_i_parse` accepts the printed form of every pair of i32 ids and returns them |
| ControllerProps.RentOutcome | src/controller.rs:168-181 | a cap error is passed through; at or above the cap: `TooManyRentals` and no change; below it: `Rent(1)`, one new active renting, that student's count up by one, no other student's count changed |
| ControllerProps.InsertedCounts | src/db.rs:254-265 | an insertion keeps keys unique and raises the counts of its student and its instrument by one, and leaves every other student's and instrument's count unchanged |
| ControllerProps.RentKeepsCap | src/controller.rs:168-181 | `rent` never takes any student past the `rent_max_count` cap |
| ControllerProps.EndedKeepsCap | src/db.rs:307-320 | ending rentings never takes any student past the cap |
| ControllerProps.TryTerminateOutcome | src/controller.rs:183-201 | no match: `RowNotFound` and no change; one match: `TryTerminate(1)` and exactly that renting is ended; several: all of them reported and nothing changed |
| ControllerProps.TryTerminateTxKeeps | src/controller.rs:183-201 | `try_terminate` keeps keys unique and the cap respected |
| ControllerProps.TerminateOutcome | src/controller.rs:203-207 | `terminate` by an existing key reports 1 row, active or not, and the working copy becomes the one with that renting ended; by an unknown key it reports 0 and changes nothing; nothing is committed |
| ControllerProps.NoTransactionNoEffect | src/controller.rs:232-236 | without a transaction every command but `begin` fails with `TransactionNone` and changes nothing, once the ids parse |
| ControllerProps.IdsParsedBeforeGuard | src/controller.rs:168-170 | a malformed id in `rent` or `try_terminate` is a conversion error, with or without a transaction, and changes nothing |
| ControllerProps.TransactionLifecycle | src/controller.rs:138-166 | `begin` always opens a copy of the committed tables, so uncommitted work is lost; `commit` publishes the copy, `rollback` drops it, and both empty the slot |
| ControllerProps.OnlyCommitPublishes | src/controller.rs:126-136 | no command other than `commit` changes the committed tables |
| ControllerProps.ExecKeepsInvariant | src/controller.rs:126-136 | every command keeps `rent_id` unique and below the sequence, and the cap respected, in both the committed and the working tables |
| ControllerProps.RentStepKeepsInvariant | src/controller.rs:168-181 | `rent` keeps the invariant |
| ControllerProps.TryTerminateStepKeepsInvariant | src/controller.rs:183-201 | `try_terminate` keeps the invariant |
| ControllerProps.TerminateStepKeepsInvariant | src/controller.rs:203-207 | `terminate` keeps the invariant |
| ControllerProps.RunKeepsInvariant | src/controller.rs:126-136 | any sequence of commands keeps the invariant |
| ControllerProps.RentStepUnderCap | src/controller.rs:168-181 | with n rentings left under the cap, `rent` succeeds and leaves n-1, and with none left it is refused |
| ControllerProps.RentsUpToCap | src/controller.rs:257-283 | a student n rentings below the cap can rent n times, each giving `Rent(1)`, and the next attempt gives `TooManyRentals` |
| ControllerProps.RentTooManyScenario | src/controller.rs:257-283 | a student with no active renting, in an open transaction, rents `max` times with `Rent(1)` each time and is then refused with `TooManyRentals` |
| ControllerProps.TwoRents | src/controller.rs:286-307 | two rents of an instrument the student does not hold leave exactly the two new rentings to be found for termination |
| ControllerProps.RentStepInserts | src/controller.rs:168-181 | below the cap, `rent` reports `Rent(1)` and inserts the renting into the working copy |
| ControllerProps.TryTerminateStepMultiple | src/controller.rs:183-201 | with two or more matching rentings, `try_terminate` returns them all as `TerminateMultiple` and changes nothing |
| ControllerProps.TerminateMultipleScenario | src/controller.rs:286-307 | rent, rent, then `try_terminate` gives `Rent(1)`, `Rent(1)` and `TerminateMultiple` of the two new rentings, and `terminate` by the first one's id then reports one row and leaves the working copy with exactly that renting ended |
| ControllerProps.ListOutcome | src/controller.rs:209-230 | `list` fails only with `RowNotFound`; it succeeds exactly when the fetch succeeds with at least one instrument; with no filter it fails exactly when there are no instruments; an unmatched filter fails; otherwise its entries are the fetched instruments with copies left |
| ControllerProps.ListNothingAvailable | src/controller.rs:217-229 | when instruments are fetched but none has a copy left, `list` succeeds with an empty listing |
| ControllerProps.AvailabilityNone | src/controller.rs:221-229 | the loop keeps no entry when no fetched instrument has a copy left |
| ControllerProps.AvailabilityConcat | src/controller.rs:221-229 | the listing keeps the order of the fetched rows |
| Parser.TrimStart | src/parser.rs:84 | drops exactly the leading white space |
| Parser.TrimEnd | src/parser.rs:84 | drops exactly the trailing white space |
| Parser.Trim | src/parser.rs:84 | the result is a slice of the line with only white space before and after it; neither of its ends is white space; it is empty exactly when the line is all white space |
| Parser.Split | src/parser.rs:84 | at least one word, no word contains a space, and joining the words with single spaces gives the text back |
| Parser.Words | src/parser.rs:84 | the trimmed line's words: at least one, none containing a space, and joined with single spaces they give the trimmed line back |
| Parser.ParseWords | src/parser.rs:86-101 | never `Terminate`; `rent` and `terminate` arguments and a `list` filter are single words, and a filter is never empty; an empty first word is `Default` |
| Parser.ParseToCommand | src/parser.rs:83-103 | no line gives `Terminate`, and a blank line gives `Default` |
| ParserProps.TrimClean | src/parser.rs:84 | a line with no white space at either end is left as it is |
| ParserProps.TrimIdempotent | src/parser.rs:84 | trimming twice is trimming once |
| ParserProps.SplitWord | src/parser.rs:84 | a word with no space splits into itself |
| ParserProps.SplitAppend | src/parser.rs:84 | a word followed by a space is split off as the first word |
| ParserProps.SplitJoin | src/parser.rs:84 | splitting what was joined with single spaces gives the words back |
| ParserProps.FirstWordChars | src/parser.rs:84-96 | the first word's first two characters are read from the trimmed line; a space in second place means there is no second character |
| ParserProps.WordDispatch | src/parser.rs:86-101 | each outcome holds exactly when its first and second characters and its number of words are present |
| ParserProps.Dispatch | src/parser.rs:83-103 | `b`, `c`, `h`, `l`, `q` select their result whatever follows; `r` then `e` is `rent`, `r` then `o` is `rollback`, any other `r` word is `Default`; `t` is `try_terminate`; a missing student or instrument is `NoStudent` or `NoInstrument`; any other first character, including none, is `Default`; each in both directions |
| ParserProps.WordArguments | src/parser.rs:105-126 | `list`'s filter is the second word unless it is missing or empty; `rent` and `terminate` take the second and third words verbatim and ignore the rest |
| ParserProps.Arguments | src/parser.rs:105-126 | the same, stated on the line: arguments are the words of the trimmed line after the keyword, as they are |
| ParserProps.WordsOfOne | src/parser.rs:84 | a single token is one word |
| ParserProps.WordsOfTwo | src/parser.rs:84 | two tokens joined by a space are two words |
| ParserProps.WordsOfJoin | src/parser.rs:84 | words without spaces, neither end of the line white space, are the words of the line they join into |
| ParserProps.ParseLine | src/parser.rs:83-126 | every command of the form the parser produces is parsed back from any line made of a keyword for it, its arguments and any further words, when the line does not end in white space |
| ParserProps.Producibility | src/parser.rs:83-126 | some line parses to a command exactly when the command is not `terminate`, its ids have no spaces, and a `list` filter is a non-empty word |
| ParserProps.Accepts | src/parser.rs:83-126 | a keyword followed by a producible command's arguments, one space apart, parses to that command |
| ParserProps.KeywordAlone | src/parser.rs:83-103 | a keyword on its own gives its command, or `NoStudent` for `rent` and `terminate`, or `Default` for an unknown letter |
| ParserProps.MissingInstrument | src/parser.rs:114-126 | `rent` or `terminate` with only a student is `NoInstrument` |
| ParserProps.ExampleBegin | src/parser.rs:134-180 | `b` and `begin` parse to `Begin` |
| ParserProps.ExampleCommit | src/parser.rs:134-180 | `c` and `commit` parse to `Commit` |
| ParserProps.ExampleHelp | src/parser.rs:134-180 | `h` and `help` parse to `Help` |
| ParserProps.ExampleList | src/parser.rs:134-180 | `l` and `list` parse to `List(None)` |
| ParserProps.ExampleListFilter | src/parser.rs:134-180 | `l gui` and `list gui` parse to `List(Some("gui"))` |
| ParserProps.ExampleQuit | src/parser.rs:134-180 | `q` and `quit` parse to `Quit` |
| ParserProps.ExampleRent | src/parser.rs:134-180 | `re 1 2` and `rent 1 2` parse to `Rent("1", "2")` |
| ParserProps.ExampleRollback | src/parser.rs:134-180 | `ro` and `rollback` parse to `Rollback` |
| ParserProps.ExampleTerminate | src/parser.rs:134-180 | `t 1 2` and `terminate 1 2` parse to `TryTerminate("1", "2")` |
| ParserProps.ExampleUnknown | src/parser.rs:183-197 | `x` and the empty line give `Default` |
| ParserProps.ExampleNoStudent | src/parser.rs:183-197 | `re` and `t` give `NoStudent` |
| ParserProps.ExampleNoInstrument | src/parser.rs:183-197 | `re 1` and `t 1` give `NoInstrument` |

## Left out

- Connections, the pool, `async` and database I/O errors are left out. Of the
  failures that depend on the data, the model keeps the missing
  `rent_max_count` rule and a type filter that matches nothing, both
  `RowNotFound`. A `COUNT(*)` never returns a NULL column in the model.
- Store.Rent: always inserts and reports 1 row. Constraint violations of the
  INSERT (src/db.rs:255-262) are left out: a duplicate `rent_id` when the
  serial sequence lags behind the existing keys (the `WellFormed`
  precondition of both constructors rules this out), and a foreign-key
  violation for an unknown student or instrument. So is the state PostgreSQL
  leaves after such a server-side error, where the transaction is aborted
  until it is rolled back.
- Row locking and concurrent transactions are left out. `Store.LockRentings`
  returns the rows a `FOR UPDATE` would lock and changes no data. Isolation
  between sessions is not modelled.
- The `rent_id` serial sequence is part of the transaction's snapshot, so
  `rollback` resets it. PostgreSQL sequences are not transactional, so a
  rolled-back insertion still uses up its key. Keys stay unique either way.
- `Controller::new`, `run_repl` (and its rollback of an open transaction on
  exit), `setup_conn`, `src/repl.rs` and `src/main.rs` are left out. The
  constructor `Controller.Controller.constructor` starts from given tables with
  no transaction.
- `Display` texts of `ControlError`, `ParseError`, `Renting` and
  `Instrument::to_string` are left out. Prices are kept as a `real`, not a
  `BigDecimal`.
- Controller.ToLower: lower-cases ASCII capitals only and keeps every other
  character, because Rust's Unicode `to_lowercase` tables are not modelled
  (non-ASCII capitals, and characters whose lower case is longer, differ).
- `list_type` with `%`, `_` or `\` inside the filter is left out. The model
  reads the `LIKE` pattern as a plain prefix match. It does not treat `%` and
  `_` as wildcards, nor `\` as `LIKE`'s default escape character (the filter
  `a\b` gives the pattern `a\b%`, which matches types starting with `ab`).
- The order of query results is left out. `find_to_terminate`, `list_all`,
  `list_type`'s type lookup and its instrument query have no `ORDER BY`, so
  PostgreSQL may return their rows in any order. The model returns them in
  the order of the table's sequence. This fixes which type `list_type` picks
  when several types match, the order of the candidates in
  `TerminateMultiple`, and the order of the lines of a listing.
- In `parse_to_command`, the `None` branch of `words.next()` cannot be
  reached, because `split` always yields a first word. The model has no such
  branch.
- `ListAll`, `ParseList`, `ParseRent` and `ParseTerminate` carry no contract of
  their own. What they do is stated by `ControllerProps.ListOutcome`,
  `ParserProps.WordArguments` and `ParserProps.Dispatch`.
- `Controller.Controller.BeginCmd`, `CommitCmd`, `RollbackCmd`, `RentCmd`,
  `TryTerminateCmd` and `TerminateCmd` state their new state through `old()`.
  Their properties are proved about the step functions they are tied to.
