/** The data access gateway of `src/db.rs`, over an in-memory store instead of
    Postgres. Each SQL statement becomes a function over the tables it reads,
    or a method of `Store` for the two statements that write (INSERT and UPDATE). */
module Db {
  import opened Wrappers

  /** The key of the business rule that caps a student's active rentings. */
  const MAX_RENTALS_KEY: string := "rent_max_count"

  /** A value of `CURRENT_TIMESTAMP`; only its presence matters here. */
  datatype Stamp = Stamp(instant: int)

  /** A row of the `rentings` table. */
  datatype Renting = Renting(rentId: int, studentId: int, instrumentId: int, startDate: Stamp, endDate: Option<Stamp>)
  {
    /** A renting is active while it has no end date. */
    predicate Active() {
      endDate.None?
    }
  }

  /** A row of the `instruments` table; `count` is how many copies the school owns. */
  datatype Instrument = Instrument(instrumentId: int, instrumentTypeId: int, brand: string, model: string, price: real, count: int)

  /** A row of the `instrument_types` table. */
  datatype InstrumentType = InstrumentType(instrumentTypeId: int, instrumentType: string)

  /** The one gateway failure the in-memory store can produce: `fetch_one` found no row. */
  datatype SqlError = RowNotFound

  /** The whole database as a value. `nextRentId` is the state of the serial
      sequence that issues `rent_id`, the primary key of `rentings`. */
  datatype Tables = Tables(
    rentings: seq<Renting>,
    nextRentId: int,
    instruments: seq<Instrument>,
    instrumentTypes: seq<InstrumentType>,
    businessRules: map<string, string>)

  /** `rent_id` is a primary key, and every key issued so far lies below the sequence. */
  predicate KeysWellFormed(rs: seq<Renting>, next: int) {
    && (forall k :: 0 <= k < |rs| ==> rs[k].rentId < next)
    && (forall j, k :: 0 <= j < k < |rs| ==> rs[j].rentId != rs[k].rentId)
  }

  predicate WellFormed(t: Tables) {
    KeysWellFormed(t.rentings, t.nextRentId)
  }

  /** The positions of the active rentings of student `u`. */
  ghost function UserRows(rs: seq<Renting>, u: int): set<int> {
    set k | 0 <= k < |rs| && rs[k].studentId == u && rs[k].Active()
  }

  /** The positions of the active rentings of instrument `i`. */
  ghost function InstrumentRows(rs: seq<Renting>, i: int): set<int> {
    set k | 0 <= k < |rs| && rs[k].instrumentId == i && rs[k].Active()
  }

  /** The positions of the active rentings of instrument `i` by student `u`. */
  ghost function PairRows(rs: seq<Renting>, u: int, i: int): set<int> {
    set k | 0 <= k < |rs| && rs[k].studentId == u && rs[k].instrumentId == i && rs[k].Active()
  }

  /** `SELECT COUNT(*) FROM rentings WHERE student_id = u AND end_date IS NULL`:
      the number of rows that are active rentings of the student. */
  function CountUserRentals(rs: seq<Renting>, u: int): (n: nat)
    ensures n <= |rs|
    ensures n == 0 <==> forall k :: 0 <= k < |rs| ==> !(rs[k].studentId == u && rs[k].Active())
  {
    if rs == [] then 0
    else
      var last := rs[|rs| - 1];
      CountUserRentals(rs[..|rs| - 1], u) + if last.studentId == u && last.Active() then 1 else 0
  }

  /** The count is the number of the student's active rows. It is a lemma rather
      than a postcondition so that proofs mentioning a count do not carry the set. */
  lemma {:induction false} UserCountIsRows(rs: seq<Renting>, u: int)
    ensures CountUserRentals(rs, u) == |UserRows(rs, u)|
    decreases |rs|
  {
    if rs == [] {
      assert UserRows(rs, u) == {};
    } else {
      UserRowsSnoc(rs, u);
      UserCountIsRows(rs[..|rs| - 1], u);
    }
  }

  /** `SELECT COUNT(*) FROM rentings WHERE instrument_id = i AND end_date IS NULL`:
      the number of rows that are active rentings of the instrument. */
  function CountInstrumentRentals(rs: seq<Renting>, i: int): (n: nat)
    ensures n <= |rs|
    ensures n == 0 <==> forall k :: 0 <= k < |rs| ==> !(rs[k].instrumentId == i && rs[k].Active())
  {
    if rs == [] then 0
    else
      var last := rs[|rs| - 1];
      CountInstrumentRentals(rs[..|rs| - 1], i) + if last.instrumentId == i && last.Active() then 1 else 0
  }

  /** The count is the number of the instrument's active rows. */
  lemma {:induction false} InstrumentCountIsRows(rs: seq<Renting>, i: int)
    ensures CountInstrumentRentals(rs, i) == |InstrumentRows(rs, i)|
    decreases |rs|
  {
    if rs == [] {
      assert InstrumentRows(rs, i) == {};
    } else {
      InstrumentRowsSnoc(rs, i);
      InstrumentCountIsRows(rs[..|rs| - 1], i);
    }
  }

  /** `SELECT * FROM rentings WHERE student_id = u AND instrument_id = i AND end_date IS NULL`,
      in table order: one row for each active renting of the pair, and only those.
      Every row found is also counted for the student and for the instrument. */
  function FindToTerminate(rs: seq<Renting>, u: int, i: int): (found: seq<Renting>)
    ensures forall x :: x in found <==> x in rs && x.studentId == u && x.instrumentId == i && x.Active()
    ensures |found| <= CountUserRentals(rs, u)
    ensures |found| <= CountInstrumentRentals(rs, i)
  {
    if rs == [] then []
    else
      var m := |rs| - 1;
      var last := rs[m];
      var init := rs[..m];
      var hit := last.studentId == u && last.instrumentId == i && last.Active();
      assert forall x :: x in rs <==> x in init || x == last by {
        assert rs == init + [last];
      }
      FindToTerminate(init, u, i) + if hit then [last] else []
  }

  /** One row found for each active renting of the pair. */
  lemma {:induction false} FoundArePairRows(rs: seq<Renting>, u: int, i: int)
    ensures |FindToTerminate(rs, u, i)| == |PairRows(rs, u, i)|
    decreases |rs|
  {
    if rs == [] {
      assert PairRows(rs, u, i) == {};
    } else {
      PairRowsSnoc(rs, u, i);
      FoundArePairRows(rs[..|rs| - 1], u, i);
    }
  }

  lemma UserRowsSnoc(rs: seq<Renting>, u: int)
    requires rs != []
    ensures var m := |rs| - 1;
      |UserRows(rs, u)| == |UserRows(rs[..m], u)| + if rs[m].studentId == u && rs[m].Active() then 1 else 0
  {
    var m := |rs| - 1;
    var init := rs[..m];
    assert UserRows(rs, u) == UserRows(init, u) + if rs[m].studentId == u && rs[m].Active() then {m} else {} by {
      forall k | 0 <= k < m ensures init[k] == rs[k] { }
    }
  }

  lemma InstrumentRowsSnoc(rs: seq<Renting>, i: int)
    requires rs != []
    ensures var m := |rs| - 1;
      |InstrumentRows(rs, i)| == |InstrumentRows(rs[..m], i)| + if rs[m].instrumentId == i && rs[m].Active() then 1 else 0
  {
    var m := |rs| - 1;
    var init := rs[..m];
    assert InstrumentRows(rs, i) == InstrumentRows(init, i) + if rs[m].instrumentId == i && rs[m].Active() then {m} else {} by {
      forall k | 0 <= k < m ensures init[k] == rs[k] { }
    }
  }

  lemma PairRowsSnoc(rs: seq<Renting>, u: int, i: int)
    requires rs != []
    ensures var m := |rs| - 1;
      |PairRows(rs, u, i)| == |PairRows(rs[..m], u, i)| + if rs[m].studentId == u && rs[m].instrumentId == i && rs[m].Active() then 1 else 0
  {
    var m := |rs| - 1;
    var init := rs[..m];
    assert PairRows(rs, u, i) == PairRows(init, u, i) + if rs[m].studentId == u && rs[m].instrumentId == i && rs[m].Active() then {m} else {} by {
      forall k | 0 <= k < m ensures init[k] == rs[k] { }
    }
  }

  /** The rows `SELECT * FROM rentings WHERE student_id = u OR instrument_id = i FOR UPDATE`
      locks: wider than the (u, i) pair, it covers every row that the cap check and the
      termination lookup read. */
  function LockScope(rs: seq<Renting>, u: int, i: int): (locked: seq<Renting>)
    ensures forall x :: x in locked <==> x in rs && (x.studentId == u || x.instrumentId == i)
    ensures forall x :: x in FindToTerminate(rs, u, i) ==> x in locked
  {
    if rs == [] then []
    else
      var last := rs[|rs| - 1];
      LockScope(rs[..|rs| - 1], u, i) + if last.studentId == u || last.instrumentId == i then [last] else []
  }

  /** The rows affected by `UPDATE rentings SET end_date = ... WHERE rent_id = id`:
      every row with that key, ended or not. */
  function CountRentId(rs: seq<Renting>, id: int): (n: nat)
    ensures n <= |rs|
    ensures n == 0 <==> forall k :: 0 <= k < |rs| ==> rs[k].rentId != id
  {
    if rs == [] then 0
    else CountRentId(rs[1..], id) + if rs[0].rentId == id then 1 else 0
  }

  /** The table after `UPDATE rentings SET end_date = now WHERE rent_id = id`. */
  function EndRentings(rs: seq<Renting>, id: int, now: Stamp): (r: seq<Renting>)
    ensures |r| == |rs|
    ensures forall k :: 0 <= k < |rs| && rs[k].rentId == id ==> r[k] == rs[k].(endDate := Some(now))
    ensures forall k :: 0 <= k < |rs| && rs[k].rentId != id ==> r[k] == rs[k]
  {
    if rs == [] then []
    else
      [if rs[0].rentId == id then rs[0].(endDate := Some(now)) else rs[0]] + EndRentings(rs[1..], id, now)
  }

  /** `SELECT value FROM business_rules WHERE name = 'rent_max_count'`, a `fetch_one`. */
  function GetMaxRentals(rules: map<string, string>): (r: Result<string, SqlError>)
    ensures r.Err? <==> MAX_RENTALS_KEY !in rules
    ensures r.Ok? ==> r.value == rules[MAX_RENTALS_KEY]
  {
    if MAX_RENTALS_KEY in rules then Ok(rules[MAX_RENTALS_KEY]) else Err(RowNotFound)
  }

  /** `SELECT * FROM instruments`, in table order. */
  function ListAll(instruments: seq<Instrument>): seq<Instrument> {
    instruments
  }

  predicate IsPrefix(p: string, s: string) {
    |p| <= |s| && s[..|p|] == p
  }

  /** The row `fetch_one` returns for `instrument_type LIKE prefix || '%'`: the first match. */
  function FirstTypeMatching(types: seq<InstrumentType>, prefix: string): (r: Option<InstrumentType>)
    ensures r.None? <==> forall k :: 0 <= k < |types| ==> !IsPrefix(prefix, types[k].instrumentType)
    ensures r.Some? ==> exists k :: 0 <= k < |types| && types[k] == r.value && IsPrefix(prefix, r.value.instrumentType)
                                    && forall j :: 0 <= j < k ==> !IsPrefix(prefix, types[j].instrumentType)
  {
    if types == [] then None
    else if IsPrefix(prefix, types[0].instrumentType) then Some(types[0])
    else
      var r := FirstTypeMatching(types[1..], prefix);
      if r.Some? then
        ghost var k :| 0 <= k < |types[1..]| && types[1..][k] == r.value && IsPrefix(prefix, r.value.instrumentType)
                       && forall j :: 0 <= j < k ==> !IsPrefix(prefix, types[1..][j].instrumentType);
        assert types[k + 1] == r.value;
        r
      else r
  }

  /** `SELECT * FROM instruments WHERE instrument_type_id = typeId`, in table order. */
  function InstrumentsOfType(instruments: seq<Instrument>, typeId: int): (r: seq<Instrument>)
    ensures forall x :: x in r <==> x in instruments && x.instrumentTypeId == typeId
  {
    if instruments == [] then []
    else
      (if instruments[0].instrumentTypeId == typeId then [instruments[0]] else [])
      + InstrumentsOfType(instruments[1..], typeId)
  }

  /** `list_type`: resolve the type pattern, then list that type's instruments.
      The pattern is `prefix` followed by `%`, so it matches by prefix. */
  function ListType(instruments: seq<Instrument>, types: seq<InstrumentType>, prefix: string): (r: Result<seq<Instrument>, SqlError>)
    ensures r.Err? <==> forall k :: 0 <= k < |types| ==> !IsPrefix(prefix, types[k].instrumentType)
    ensures r.Ok? ==> exists k :: 0 <= k < |types| && IsPrefix(prefix, types[k].instrumentType)
                                  && (forall j :: 0 <= j < k ==> !IsPrefix(prefix, types[j].instrumentType))
                                  && forall x :: x in r.value <==> x in instruments && x.instrumentTypeId == types[k].instrumentTypeId
  {
    match FirstTypeMatching(types, prefix)
    case None => Err(RowNotFound)
    case Some(ty) => Ok(InstrumentsOfType(instruments, ty.instrumentTypeId))
  }

  /** The number of rows with key `id` is one when the key is present and keys are unique. */
  lemma {:induction false} CountRentIdOfKey(rs: seq<Renting>, next: int, k: nat)
    requires KeysWellFormed(rs, next)
    requires k < |rs|
    ensures CountRentId(rs, rs[k].rentId) == 1
  {
    var id := rs[k].rentId;
    if k == 0 {
      assert forall j :: 0 <= j < |rs[1..]| ==> rs[1..][j].rentId != id by {
        forall j | 0 <= j < |rs[1..]| ensures rs[1..][j].rentId != id {
          assert rs[1..][j] == rs[j + 1];
        }
      }
    } else {
      assert KeysWellFormed(rs[1..], next);
      assert rs[1..][k - 1] == rs[k];
      CountRentIdOfKey(rs[1..], next, k - 1);
      assert rs[0].rentId != id;
    }
  }

  /** Ending rows never adds to a student's count of active rentings. */
  lemma {:induction false} EndRentingsCountUser(rs: seq<Renting>, id: int, now: Stamp, u: int)
    ensures CountUserRentals(EndRentings(rs, id, now), u) <= CountUserRentals(rs, u)
    decreases |rs|
  {
    if rs != [] {
      var n := |rs|;
      var ended := EndRentings(rs, id, now);
      assert EndRentings(rs[..n - 1], id, now) == ended[..n - 1] by {
        var prefix := EndRentings(rs[..n - 1], id, now);
        forall k | 0 <= k < n - 1 ensures prefix[k] == ended[..n - 1][k] {
          assert rs[..n - 1][k] == rs[k];
        }
      }
      EndRentingsCountUser(rs[..n - 1], id, now, u);
    }
  }

  /** Appending an active renting adds one to its student's and its instrument's count
      and changes no other count. */
  lemma AppendActiveCounts(rs: seq<Renting>, x: Renting, u: int, i: int)
    requires x.Active()
    ensures CountUserRentals(rs + [x], u) == CountUserRentals(rs, u) + if x.studentId == u then 1 else 0
    ensures CountInstrumentRentals(rs + [x], i) == CountInstrumentRentals(rs, i) + if x.instrumentId == i then 1 else 0
  {
    assert (rs + [x])[..|rs|] == rs;
  }

  /** Appending a row extends the rows found for termination by that row, when it matches. */
  lemma FindAppend(rs: seq<Renting>, x: Renting, u: int, i: int)
    ensures FindToTerminate(rs + [x], u, i)
         == FindToTerminate(rs, u, i) + if x.studentId == u && x.instrumentId == i && x.Active() then [x] else []
  {
    assert (rs + [x])[..|rs|] == rs;
  }

  /** The in-memory database a transaction works on. Reference data (instruments,
      types, business rules) is administered elsewhere and read-only here;
      `rentings` and the key sequence change by `Rent` and `TerminateRid`. */
  class Store {
    var rentings: seq<Renting>
    var nextRentId: int
    const instruments: seq<Instrument>
    const instrumentTypes: seq<InstrumentType>
    const businessRules: map<string, string>

    ghost predicate Valid()
      reads this
    {
      KeysWellFormed(rentings, nextRentId)
    }

    function Snapshot(): Tables
      reads this
    {
      Tables(rentings, nextRentId, instruments, instrumentTypes, businessRules)
    }

    /** A store holding a copy of the tables `t`. */
    constructor (t: Tables)
      requires WellFormed(t)
      ensures Valid() && Snapshot() == t
    {
      rentings := t.rentings;
      nextRentId := t.nextRentId;
      instruments := t.instruments;
      instrumentTypes := t.instrumentTypes;
      businessRules := t.businessRules;
    }

    /** `lock_rentings`: takes row locks on the rows it returns and changes no data. */
    method LockRentings(u: int, i: int) returns (locked: seq<Renting>)
      ensures forall x :: x in locked <==> x in rentings && (x.studentId == u || x.instrumentId == i)
    {
      locked := LockScope(rentings, u, i);
    }

    /** `rent`: inserts one active renting with a fresh key; the rows affected are 1. */
    method Rent(u: int, i: int, now: Stamp) returns (affected: nat)
      requires Valid()
      modifies this
      ensures Valid()
      ensures rentings == old(rentings) + [Renting(old(nextRentId), u, i, now, None)]
      ensures nextRentId == old(nextRentId) + 1
      ensures affected == 1
    {
      rentings := rentings + [Renting(nextRentId, u, i, now, None)];
      nextRentId := nextRentId + 1;
      affected := 1;
    }

    /** `terminate_rid`: ends every row whose key is `id` and returns how many there were. */
    method TerminateRid(id: int, now: Stamp) returns (affected: nat)
      requires Valid()
      modifies this`rentings
      ensures Valid()
      ensures rentings == EndRentings(old(rentings), id, now)
      ensures affected == CountRentId(old(rentings), id)
    {
      affected := CountRentId(rentings, id);
      rentings := EndRentings(rentings, id, now);
    }
  }
}
