/** The command executor of `src/controller.rs`. A `Controller` holds the committed
    database and a slot that is empty or holds one open transaction. A transaction
    is a snapshot: `begin` copies the committed store into a working store, the
    commands work on that copy, `commit` publishes it and `rollback` drops it.

    The effect of each command is defined twice: by a method of `Controller`,
    which follows the Rust code, and by a step function over `Session`, the value
    the controller's state abstracts to. Each method's postcondition says the two
    agree; the properties are proved about the step functions in `ControllerProps`. */
module Controller {
  import opened Wrappers
  import opened IntParse
  import opened Db

  /** The commands `execute` accepts. */
  datatype Command =
    | Begin
    | Commit
    | List(filter: Option<string>)
    | Rent(user: string, inst: string)
    | Rollback
    | Terminate(id: string)
    | TryTerminate(user: string, inst: string)

  /** One line of a listing: an instrument with the number of copies left to rent out. */
  datatype ListEntry = ListEntry(instrument: Instrument, available: int)

  /** `ControlResult`, one variant per command. */
  datatype ControlResult =
    | Began
    | Committed
    | Listed(entries: seq<ListEntry>)
    | Rented(affected: nat)
    | RolledBack
    | Terminated(affected: nat)
    | TryTerminated(affected: nat)

  /** What a `Converted` error was converted from; stands for its message text. */
  datatype Cause = ParseIntError(kind: IntErrorKind) | SqlFailure(sql: SqlError)

  /** `ControlError`. */
  datatype ControlError =
    | Converted(cause: Cause)
    | TerminateMultiple(candidates: seq<Renting>)
    | TooManyRentals
    | TransactionNone

  type Outcome = Result<ControlResult, ControlError>

  /** `impl From<ParseIntError> for ControlError` */
  function FromParseInt(kind: IntErrorKind): ControlError {
    Converted(ParseIntError(kind))
  }

  /** `impl From<sqlx::Error> for ControlError` */
  function FromSql(e: SqlError): ControlError {
    Converted(SqlFailure(e))
  }

  /** `u_i_parse`: both ids as i32, the user's first. */
  function UIParse(user: string, inst: string): (r: Result<(int, int), ControlError>)
    ensures r.Ok? <==> ParseI32(user).Ok? && ParseI32(inst).Ok?
    ensures r.Ok? ==> r.value == (ParseI32(user).value, ParseI32(inst).value)
    ensures ParseI32(user).Err? ==> r == Err(FromParseInt(ParseI32(user).error))
    ensures ParseI32(user).Ok? && ParseI32(inst).Err? ==> r == Err(FromParseInt(ParseI32(inst).error))
  {
    var u :- ParseI32(user).MapFailure(FromParseInt);
    var i :- ParseI32(inst).MapFailure(FromParseInt);
    Ok((u, i))
  }

  /** The `rent_max_count` rule, read and parsed as an i64: a missing rule is
      `RowNotFound`, text that is not an i64 is that parse error, and otherwise
      the cap is the parsed value. */
  function MaxRentals(t: Tables): (r: Result<int, ControlError>)
    ensures MAX_RENTALS_KEY !in t.businessRules ==> r == Err(FromSql(RowNotFound))
    ensures MAX_RENTALS_KEY in t.businessRules ==>
              var parsed := ParseI64(t.businessRules[MAX_RENTALS_KEY]);
              && (r.Ok? <==> parsed.Ok?)
              && (r.Ok? ==> r.value == parsed.value)
              && (r.Err? ==> r.error == FromParseInt(parsed.error))
    ensures r.Ok? ==> I64_MIN <= r.value <= I64_MAX
  {
    var text :- GetMaxRentals(t.businessRules).MapFailure(FromSql);
    ParseI64(text).MapFailure(FromParseInt)
  }

  /** ASCII lower-casing of the type filter. */
  function ToLower(s: string): (r: string)
    ensures |r| == |s|
    ensures forall k :: 0 <= k < |s| ==> r[k] == LowerAscii(s[k])
  {
    if s == [] then []
    else [LowerAscii(s[0])] + ToLower(s[1..])
  }

  /** An ASCII capital becomes its small letter; every other character is kept. */
  function LowerAscii(c: char): (d: char)
    ensures 'A' <= c <= 'Z' ==> 'a' <= d <= 'z' && d as int == c as int + 32
    ensures !('A' <= c <= 'Z') ==> d == c
  {
    if 'A' <= c <= 'Z' then (c as int + 32) as char else c
  }

  /** The copies of `x` not currently rented out. */
  function Available(x: Instrument, rs: seq<Renting>): int {
    x.count - CountInstrumentRentals(rs, x.instrumentId)
  }

  /** The listing built from the fetched `rows`: an entry for each instrument with
      copies left, in the order of the rows. */
  function Availability(rows: seq<Instrument>, rs: seq<Renting>): (entries: seq<ListEntry>)
    ensures forall e :: e in entries <==> e.instrument in rows && e.available == Available(e.instrument, rs) && e.available > 0
  {
    if rows == [] then []
    else
      var x := rows[|rows| - 1];
      Availability(rows[..|rows| - 1], rs) + if Available(x, rs) > 0 then [ListEntry(x, Available(x, rs))] else []
  }

  /** The tables after a successful `rent`: one more active renting with a fresh key. */
  function Inserted(t: Tables, u: int, i: int, now: Stamp): Tables {
    t.(rentings := t.rentings + [Renting(t.nextRentId, u, i, now, None)], nextRentId := t.nextRentId + 1)
  }

  /** The tables after `terminate_rid(id)`. */
  function Ended(t: Tables, id: int, now: Stamp): Tables {
    t.(rentings := EndRentings(t.rentings, id, now))
  }

  /** `rent` on an open transaction, once the ids are parsed. */
  function RentTx(t: Tables, u: int, i: int, now: Stamp): (Outcome, Tables) {
    match MaxRentals(t)
    case Err(e) => (Err(e), t)
    case Ok(max) =>
      if CountUserRentals(t.rentings, u) >= max then (Err(TooManyRentals), t)
      else (Ok(Rented(1)), Inserted(t, u, i, now))
  }

  /** `try_terminate` on an open transaction, once the ids are parsed. */
  function TryTerminateTx(t: Tables, u: int, i: int, now: Stamp): (Outcome, Tables) {
    var found := FindToTerminate(t.rentings, u, i);
    if |found| == 0 then (Err(FromSql(RowNotFound)), t)
    else if |found| == 1 then
      (Ok(TryTerminated(CountRentId(t.rentings, found[0].rentId))), Ended(t, found[0].rentId, now))
    else (Err(TerminateMultiple(found)), t)
  }

  /** The instruments `list` fetches: those of the first type the lower-cased filter
      is a prefix of, or all of them. */
  function Fetch(t: Tables, filter: Option<string>): Result<seq<Instrument>, ControlError> {
    match filter
    case Some(f) => ListType(t.instruments, t.instrumentTypes, ToLower(f)).MapFailure(FromSql)
    case None => Ok(ListAll(t.instruments))
  }

  /** `list` on an open transaction. */
  function ListTx(t: Tables, filter: Option<string>): Outcome {
    var rows :- Fetch(t, filter);
    if rows == [] then Err(FromSql(RowNotFound)) else Ok(Listed(Availability(rows, t.rentings)))
  }

  /** What a controller's state abstracts to: the committed tables and, when a
      transaction is open, its working copy. */
  datatype Session = Session(committed: Tables, working: Option<Tables>)

  function BeginStep(s: Session): (Outcome, Session) {
    (Ok(Began), Session(s.committed, Some(s.committed)))
  }

  function CommitStep(s: Session): (Outcome, Session) {
    match s.working
    case None => (Err(TransactionNone), s)
    case Some(w) => (Ok(Committed), Session(w, None))
  }

  function RollbackStep(s: Session): (Outcome, Session) {
    match s.working
    case None => (Err(TransactionNone), s)
    case Some(_) => (Ok(RolledBack), Session(s.committed, None))
  }

  function RentStep(s: Session, user: string, inst: string, now: Stamp): (Outcome, Session) {
    match UIParse(user, inst)
    case Err(e) => (Err(e), s)
    case Ok((u, i)) =>
      match s.working
      case None => (Err(TransactionNone), s)
      case Some(w) => var (r, w') := RentTx(w, u, i, now); (r, s.(working := Some(w')))
  }

  function TryTerminateStep(s: Session, user: string, inst: string, now: Stamp): (Outcome, Session) {
    match UIParse(user, inst)
    case Err(e) => (Err(e), s)
    case Ok((u, i)) =>
      match s.working
      case None => (Err(TransactionNone), s)
      case Some(w) => var (r, w') := TryTerminateTx(w, u, i, now); (r, s.(working := Some(w')))
  }

  function TerminateStep(s: Session, id: string, now: Stamp): (Outcome, Session) {
    match s.working
    case None => (Err(TransactionNone), s)
    case Some(w) =>
      match ParseI32(id)
      case Err(k) => (Err(FromParseInt(k)), s)
      case Ok(rid) => (Ok(Terminated(CountRentId(w.rentings, rid))), s.(working := Some(Ended(w, rid, now))))
  }

  function ListStep(s: Session, filter: Option<string>): (Outcome, Session) {
    match s.working
    case None => (Err(TransactionNone), s)
    case Some(w) => (ListTx(w, filter), s)
  }

  /** `execute`: one command, at time `now`. */
  function Exec(s: Session, c: Command, now: Stamp): (Outcome, Session) {
    match c
    case Begin => BeginStep(s)
    case Commit => CommitStep(s)
    case Rent(u, i) => RentStep(s, u, i, now)
    case Rollback => RollbackStep(s)
    case Terminate(id) => TerminateStep(s, id, now)
    case TryTerminate(u, i) => TryTerminateStep(s, u, i, now)
    case List(f) => ListStep(s, f)
  }

  /** A sequence of commands executed in order, with the outcome of each. */
  function Run(s: Session, cs: seq<Command>, now: Stamp): (seq<Outcome>, Session)
    decreases |cs|
  {
    if cs == [] then ([], s)
    else
      var first := Exec(s, cs[0], now);
      var rest := Run(first.1, cs[1..], now);
      ([first.0] + rest.0, rest.1)
  }

  class Controller {
    var committed: Store
    var transaction: Option<Store>

    ghost function WorkingFrame(): set<object>
      reads this
    {
      if transaction.Some? then {transaction.value} else {}
    }

    ghost predicate Valid()
      reads this, committed, WorkingFrame()
    {
      && committed.Valid()
      && (transaction.Some? ==> transaction.value != committed && transaction.value.Valid())
    }

    ghost function State(): Session
      reads this, committed, WorkingFrame()
    {
      Session(committed.Snapshot(), if transaction.Some? then Some(transaction.value.Snapshot()) else None)
    }

    /** A controller over the database `db`, with no transaction open. */
    constructor (db: Tables)
      requires WellFormed(db)
      ensures Valid() && fresh(committed)
      ensures State() == Session(db, None)
    {
      committed := new Store(db);
      transaction := None;
    }

    /** `guard`: the open transaction, or `TransactionNone`. */
    function Guard(): (r: Result<Store, ControlError>)
      reads this
      ensures r.Ok? <==> transaction.Some?
      ensures r.Ok? ==> r.value == transaction.value
      ensures r.Err? ==> r.error == TransactionNone
    {
      match transaction
      case None => Err(TransactionNone)
      case Some(tx) => Ok(tx)
    }

    method Execute(c: Command, now: Stamp) returns (r: Outcome)
      requires Valid()
      modifies this, WorkingFrame()
      ensures Valid()
      ensures (r, State()) == Exec(old(State()), c, now)
    {
      match c {
        case Begin => r := BeginCmd();
        case Commit => r := CommitCmd();
        case Rent(u, i) => r := RentCmd(u, i, now);
        case Rollback => r := RollbackCmd();
        case Terminate(id) => r := TerminateCmd(id, now);
        case TryTerminate(u, i) => r := TryTerminateCmd(u, i, now);
        case List(f) => r := ListCmd(f);
      }
    }

    /** `begin`: an open transaction is rolled back first; either way the slot
        then holds a fresh copy of the committed tables. */
    method BeginCmd() returns (r: Outcome)
      requires Valid()
      modifies this
      ensures Valid()
      ensures committed == old(committed)
      ensures transaction.Some? && fresh(transaction.value)
      ensures transaction.value.Snapshot() == committed.Snapshot() == old(committed.Snapshot())
      ensures r == Ok(Began)
      ensures (r, State()) == BeginStep(old(State()))
    {
      if transaction.Some? {
        transaction := None;
      }
      var tx := new Store(committed.Snapshot());
      transaction := Some(tx);
      r := Ok(Began);
    }

    /** `commit`: publishes the working copy and empties the slot. */
    method CommitCmd() returns (r: Outcome)
      requires Valid()
      modifies this
      ensures Valid()
      ensures transaction.None?
      ensures old(transaction).None? ==> r == Err(TransactionNone) && committed == old(committed)
      ensures old(transaction).Some? ==> r == Ok(Committed) && committed == old(transaction).value
      ensures (r, State()) == CommitStep(old(State()))
    {
      match transaction {
        case None => r := Err(TransactionNone);
        case Some(tx) =>
          committed := tx;
          transaction := None;
          r := Ok(Committed);
      }
    }

    /** `rollback`: drops the working copy and empties the slot. */
    method RollbackCmd() returns (r: Outcome)
      requires Valid()
      modifies this
      ensures Valid()
      ensures transaction.None? && committed == old(committed)
      ensures r == if old(transaction).None? then Err(TransactionNone) else Ok(RolledBack)
      ensures (r, State()) == RollbackStep(old(State()))
    {
      match transaction {
        case None => r := Err(TransactionNone);
        case Some(_) =>
          transaction := None;
          r := Ok(RolledBack);
      }
    }

    /** `rent`: parse the ids, guard, lock, read the cap, count, then insert or refuse. */
    method RentCmd(user: string, inst: string, now: Stamp) returns (r: Outcome)
      requires Valid()
      modifies WorkingFrame()
      ensures Valid()
      ensures (r, State()) == RentStep(old(State()), user, inst, now)
    {
      var ids :- UIParse(user, inst);
      var tx :- Guard();
      var (u, i) := ids;
      var locked := tx.LockRentings(u, i);
      var text :- GetMaxRentals(tx.businessRules).MapFailure(FromSql);
      var max :- ParseI64(text).MapFailure(FromParseInt);
      var active := CountUserRentals(tx.rentings, u);
      if active >= max {
        r := Err(TooManyRentals);
      } else {
        var affected := tx.Rent(u, i, now);
        r := Ok(Rented(affected));
      }
    }

    /** `try_terminate`: end the one active renting of (user, instrument), or report
        that there is none or that there are several. */
    method TryTerminateCmd(user: string, inst: string, now: Stamp) returns (r: Outcome)
      requires Valid()
      modifies WorkingFrame()
      ensures Valid()
      ensures (r, State()) == TryTerminateStep(old(State()), user, inst, now)
    {
      var ids :- UIParse(user, inst);
      var tx :- Guard();
      var (u, i) := ids;
      var locked := tx.LockRentings(u, i);
      var found := FindToTerminate(tx.rentings, u, i);
      match |found| {
        case 0 => r := Err(FromSql(RowNotFound));
        case 1 =>
          var affected := tx.TerminateRid(found[0].rentId, now);
          r := Ok(TryTerminated(affected));
        case _ => r := Err(TerminateMultiple(found));
      }
    }

    /** `terminate`: guard first, then parse the renting id and end that renting. */
    method TerminateCmd(id: string, now: Stamp) returns (r: Outcome)
      requires Valid()
      modifies WorkingFrame()
      ensures Valid()
      ensures (r, State()) == TerminateStep(old(State()), id, now)
    {
      var tx :- Guard();
      var rid :- ParseI32(id).MapFailure(FromParseInt);
      var affected := tx.TerminateRid(rid, now);
      r := Ok(Terminated(affected));
    }

    /** `list`: fetch the rows, fail if there are none, then keep those with copies left. */
    method ListCmd(filter: Option<string>) returns (r: Outcome)
      ensures transaction.None? ==> r == Err(TransactionNone)
      ensures transaction.Some? ==> r == ListTx(transaction.value.Snapshot(), filter)
    {
      var tx :- Guard();
      var rows: seq<Instrument>;
      match filter {
        case Some(f) => rows :- ListType(tx.instruments, tx.instrumentTypes, ToLower(f)).MapFailure(FromSql);
        case None => rows := ListAll(tx.instruments);
      }
      if rows == [] {
        return Err(FromSql(RowNotFound));
      }
      var entries: seq<ListEntry> := [];
      for k := 0 to |rows|
        invariant entries == Availability(rows[..k], tx.rentings)
      {
        var rentCount := CountInstrumentRentals(tx.rentings, rows[k].instrumentId);
        var available := rows[k].count - rentCount;
        if available > 0 {
          entries := entries + [ListEntry(rows[k], available)];
        }
        assert rows[..k + 1][..k] == rows[..k];
      }
      assert rows[..|rows|] == rows;
      r := Ok(Listed(entries));
    }
  }
}
