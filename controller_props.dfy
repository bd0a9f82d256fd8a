/** What the command executor promises, proved about the step functions of
    `Controller` (and so, through the methods' postconditions, about the class). */
module ControllerProps {
  import opened Wrappers
  import opened IntParse
  import opened Db
  import opened Controller

  /** No student holds more active rentings than the `rent_max_count` rule allows. */
  ghost predicate CapHolds(t: Tables) {
    MaxRentals(t).Ok? ==> forall u :: CountUserRentals(t.rentings, u) <= MaxRentals(t).value
  }

  /** Keys are well formed and the cap is respected, in the committed tables and in
      the working copy. */
  ghost predicate Invariant(s: Session) {
    && WellFormed(s.committed) && CapHolds(s.committed)
    && (s.working.Some? ==> WellFormed(s.working.value) && CapHolds(s.working.value))
  }

  function Repeat<T>(x: T, n: nat): (r: seq<T>)
    ensures |r| == n
  {
    if n == 0 then [] else [x] + Repeat(x, n - 1)
  }

  /** Printing ids and parsing them back gives the ids: `u_i_parse` accepts every pair of i32 values. */
  lemma UIParseDecimal(u: int, i: int)
    requires I32_MIN <= u <= I32_MAX && I32_MIN <= i <= I32_MAX
    ensures UIParse(Decimal(u), Decimal(i)) == Ok((u, i))
  {
    ParseDecimal(u, I32_MIN, I32_MAX);
    ParseDecimal(i, I32_MIN, I32_MAX);
  }

  /** The outcome of `rent` in an open transaction. At or above the cap it refuses
      and changes nothing; below it, it adds exactly one active renting of the
      instrument for the student, which raises that student's count by one and no
      other student's count, and the result is `Rent(1)`. */
  lemma RentOutcome(t: Tables, u: int, i: int, now: Stamp)
    requires WellFormed(t)
    ensures var r := RentTx(t, u, i, now).0;
            var t' := RentTx(t, u, i, now).1;
      && (MaxRentals(t).Err? ==> r == Err(MaxRentals(t).error) && t' == t)
      && (MaxRentals(t).Ok? && CountUserRentals(t.rentings, u) >= MaxRentals(t).value ==> r == Err(TooManyRentals) && t' == t)
      && (MaxRentals(t).Ok? && CountUserRentals(t.rentings, u) < MaxRentals(t).value ==>
            && r == Ok(Rented(1))
            && t'.rentings == t.rentings + [Renting(t.nextRentId, u, i, now, None)]
            && (forall v :: CountUserRentals(t'.rentings, v) == CountUserRentals(t.rentings, v) + if v == u then 1 else 0)
            && CountInstrumentRentals(t'.rentings, i) == CountInstrumentRentals(t.rentings, i) + 1
            && WellFormed(t') && MaxRentals(t') == MaxRentals(t)
            && t'.instruments == t.instruments && t'.instrumentTypes == t.instrumentTypes)
  {
    if MaxRentals(t).Ok? && CountUserRentals(t.rentings, u) < MaxRentals(t).value {
      assert RentTx(t, u, i, now).1 == Inserted(t, u, i, now);
      InsertedCounts(t, u, i, now);
    }
  }

  /** Inserting a renting keeps the keys well formed and adds one to the counts
      of its student and its instrument. */
  lemma InsertedCounts(t: Tables, u: int, i: int, now: Stamp)
    requires WellFormed(t)
    ensures var t' := Inserted(t, u, i, now);
      && WellFormed(t')
      && (forall v :: CountUserRentals(t'.rentings, v) == CountUserRentals(t.rentings, v) + if v == u then 1 else 0)
      && CountInstrumentRentals(t'.rentings, i) == CountInstrumentRentals(t.rentings, i) + 1
      && (forall j :: CountInstrumentRentals(t'.rentings, j) == CountInstrumentRentals(t.rentings, j) + if j == i then 1 else 0)
  {
    var x := Renting(t.nextRentId, u, i, now, None);
    var rs' := t.rentings + [x];
    forall v ensures CountUserRentals(rs', v) == CountUserRentals(t.rentings, v) + if v == u then 1 else 0 {
      AppendActiveCounts(t.rentings, x, v, i);
    }
    forall j ensures CountInstrumentRentals(rs', j) == CountInstrumentRentals(t.rentings, j) + if j == i then 1 else 0 {
      AppendActiveCounts(t.rentings, x, u, j);
    }
    AppendActiveCounts(t.rentings, x, u, i);
    InsertedWellFormed(t, u, i, now);
  }

  lemma InsertedWellFormed(t: Tables, u: int, i: int, now: Stamp)
    requires WellFormed(t)
    ensures WellFormed(Inserted(t, u, i, now))
  {
    var rs' := Inserted(t, u, i, now).rentings;
    assert forall k :: 0 <= k < |t.rentings| ==> rs'[k] == t.rentings[k];
  }

  /** `rent` never takes a student past the cap. */
  lemma RentKeepsCap(t: Tables, u: int, i: int, now: Stamp)
    requires WellFormed(t) && CapHolds(t)
    ensures CapHolds(RentTx(t, u, i, now).1)
  {
    RentOutcome(t, u, i, now);
  }

  /** Ending rentings never takes a student past the cap. */
  lemma EndedKeepsCap(t: Tables, id: int, now: Stamp)
    requires CapHolds(t)
    ensures CapHolds(Ended(t, id, now))
  {
    var t' := Ended(t, id, now);
    if MaxRentals(t').Ok? {
      forall u ensures CountUserRentals(t'.rentings, u) <= MaxRentals(t').value {
        EndRentingsCountUser(t.rentings, id, now, u);
      }
    }
  }

  /** The outcome of `try_terminate` in an open transaction, by the number of active
      rentings of the (student, instrument) pair: none is a row-not-found error;
      exactly one ends that renting and no other row and yields `TryTerminate(1)`;
      several are all reported, still active, and nothing changes. */
  lemma TryTerminateOutcome(t: Tables, u: int, i: int, now: Stamp)
    requires WellFormed(t)
    ensures var found := FindToTerminate(t.rentings, u, i);
            var (r, t') := TryTerminateTx(t, u, i, now);
      && (|found| == 0 ==> r == Err(FromSql(RowNotFound)) && t' == t)
      && (|found| == 1 ==>
            && r == Ok(TryTerminated(1))
            && found[0] in t.rentings && found[0].Active() && found[0].studentId == u && found[0].instrumentId == i
            && t' == t.(rentings := t'.rentings) && |t'.rentings| == |t.rentings|
            && (forall k :: 0 <= k < |t.rentings| ==>
                  t'.rentings[k] == if t.rentings[k] == found[0] then found[0].(endDate := Some(now)) else t.rentings[k]))
      && (|found| >= 2 ==>
            && r == Err(TerminateMultiple(found)) && t' == t
            && (forall x :: x in found <==> x in t.rentings && x.studentId == u && x.instrumentId == i && x.Active()))
  {
    var found := FindToTerminate(t.rentings, u, i);
    if |found| == 1 {
      var rs := t.rentings;
      assert found[0] in found;
      var j :| 0 <= j < |rs| && rs[j] == found[0];
      CountRentIdOfKey(rs, t.nextRentId, j);
      var t' := TryTerminateTx(t, u, i, now).1;
      forall k | 0 <= k < |rs|
        ensures t'.rentings[k] == if rs[k] == found[0] then found[0].(endDate := Some(now)) else rs[k]
      {
        if k != j {
          assert rs[k].rentId != rs[j].rentId;
        }
      }
    }
  }

  /** `terminate` with a parsed id ends the renting with that key, active or not, and
      reports 1; with no such key it changes nothing and reports 0. */
  lemma TerminateOutcome(s: Session, id: string, now: Stamp)
    requires s.working.Some? && WellFormed(s.working.value)
    requires ParseI32(id).Ok?
    ensures var w := s.working.value;
            var rid := ParseI32(id).value;
            var (r, s') := Exec(s, Terminate(id), now);
      && s'.committed == s.committed
      && ((exists k :: 0 <= k < |w.rentings| && w.rentings[k].rentId == rid) ==>
            r == Ok(Terminated(1)) && s' == s.(working := Some(Ended(w, rid, now))))
      && ((forall k :: 0 <= k < |w.rentings| ==> w.rentings[k].rentId != rid) ==> r == Ok(Terminated(0)) && s' == s)
  {
    var w := s.working.value;
    var rid := ParseI32(id).value;
    if k :| 0 <= k < |w.rentings| && w.rentings[k].rentId == rid {
      CountRentIdOfKey(w.rentings, w.nextRentId, k);
    } else {
      assert EndRentings(w.rentings, rid, now) == w.rentings;
    }
  }

  /** With the slot empty, every command but `begin` fails with `TransactionNone` and
      changes nothing, once `rent` and `try_terminate` have parsed their ids. */
  lemma NoTransactionNoEffect(s: Session, c: Command, now: Stamp)
    requires s.working.None?
    requires !c.Begin?
    requires c.Rent? ==> UIParse(c.user, c.inst).Ok?
    requires c.TryTerminate? ==> UIParse(c.user, c.inst).Ok?
    ensures Exec(s, c, now) == (Err(TransactionNone), s)
  {
  }

  /** `rent` and `try_terminate` parse their ids before they look at the slot, so a
      malformed id is reported as a conversion error whether or not a transaction is open. */
  lemma IdsParsedBeforeGuard(s: Session, c: Command, now: Stamp)
    requires c.Rent? || c.TryTerminate?
    requires UIParse(c.user, c.inst).Err?
    ensures Exec(s, c, now) == (Err(UIParse(c.user, c.inst).error), s)
    ensures UIParse(c.user, c.inst).error.Converted?
  {
  }

  /** `begin` always leaves a transaction open on a copy of the committed tables,
      so whatever an open transaction had not committed is lost; `commit` publishes
      the working copy and `rollback` drops it, both leaving the slot empty. */
  lemma TransactionLifecycle(s: Session, now: Stamp)
    ensures Exec(s, Begin, now) == (Ok(Began), Session(s.committed, Some(s.committed)))
    ensures s.working.Some? ==> Exec(s, Commit, now) == (Ok(Committed), Session(s.working.value, None))
    ensures s.working.Some? ==> Exec(s, Rollback, now) == (Ok(RolledBack), Session(s.committed, None))
    ensures Exec(s, Commit, now).1.working.None? && Exec(s, Rollback, now).1.working.None?
  {
  }

  /** Only `commit` changes the committed tables. */
  lemma OnlyCommitPublishes(s: Session, c: Command, now: Stamp)
    requires !c.Commit?
    ensures Exec(s, c, now).1.committed == s.committed
  {
  }

  /** Every command keeps the keys well formed and the cap respected. */
  lemma ExecKeepsInvariant(s: Session, c: Command, now: Stamp)
    requires Invariant(s)
    ensures Invariant(Exec(s, c, now).1)
  {
    match c {
      case Rent(user, inst) => RentStepKeepsInvariant(s, user, inst, now);
      case TryTerminate(user, inst) => TryTerminateStepKeepsInvariant(s, user, inst, now);
      case Terminate(id) => TerminateStepKeepsInvariant(s, id, now);
      case _ =>
    }
  }

  lemma RentStepKeepsInvariant(s: Session, user: string, inst: string, now: Stamp)
    requires Invariant(s)
    ensures Invariant(RentStep(s, user, inst, now).1)
  {
    if UIParse(user, inst).Ok? && s.working.Some? {
      var (u, i) := UIParse(user, inst).value;
      RentOutcome(s.working.value, u, i, now);
      RentKeepsCap(s.working.value, u, i, now);
    }
  }

  lemma TryTerminateStepKeepsInvariant(s: Session, user: string, inst: string, now: Stamp)
    requires Invariant(s)
    ensures Invariant(TryTerminateStep(s, user, inst, now).1)
  {
    if UIParse(user, inst).Ok? && s.working.Some? {
      var u := UIParse(user, inst).value.0;
      var i := UIParse(user, inst).value.1;
      ExecTryTerminateParsed(s, user, inst, u, i, now);
      TryTerminateTxKeeps(s.working.value, u, i, now);
    }
  }

  lemma TryTerminateTxKeeps(t: Tables, u: int, i: int, now: Stamp)
    requires WellFormed(t) && CapHolds(t)
    ensures WellFormed(TryTerminateTx(t, u, i, now).1) && CapHolds(TryTerminateTx(t, u, i, now).1)
  {
    var found := FindToTerminate(t.rentings, u, i);
    if |found| == 1 {
      EndedKeepsCap(t, found[0].rentId, now);
    }
  }

  lemma TerminateStepKeepsInvariant(s: Session, id: string, now: Stamp)
    requires Invariant(s)
    ensures Invariant(TerminateStep(s, id, now).1)
  {
    if s.working.Some? && ParseI32(id).Ok? {
      EndedKeepsCap(s.working.value, ParseI32(id).value, now);
    }
  }

  /** `rent` of ids that parse, in terms of the parsed ids. */
  lemma ExecRentParsed(s: Session, user: string, inst: string, u: int, i: int, now: Stamp)
    requires UIParse(user, inst) == Ok((u, i))
    ensures Exec(s, Rent(user, inst), now)
         == if s.working.None? then (Err(TransactionNone), s)
            else (RentTx(s.working.value, u, i, now).0, s.(working := Some(RentTx(s.working.value, u, i, now).1)))
  {
  }

  /** `try_terminate` of ids that parse, in terms of the parsed ids. */
  lemma ExecTryTerminateParsed(s: Session, user: string, inst: string, u: int, i: int, now: Stamp)
    requires UIParse(user, inst) == Ok((u, i))
    ensures Exec(s, TryTerminate(user, inst), now)
         == if s.working.None? then (Err(TransactionNone), s)
            else (TryTerminateTx(s.working.value, u, i, now).0, s.(working := Some(TryTerminateTx(s.working.value, u, i, now).1)))
  {
  }

  /** Any sequence of commands keeps the invariant. */
  lemma {:induction false} RunKeepsInvariant(s: Session, cs: seq<Command>, now: Stamp)
    requires Invariant(s)
    ensures Invariant(Run(s, cs, now).1)
    decreases |cs|
  {
    if cs != [] {
      ExecKeepsInvariant(s, cs[0], now);
      RunKeepsInvariant(Exec(s, cs[0], now).1, cs[1..], now);
    }
  }

  /** An open, well-formed transaction in which the student has exactly `n`
      rentings left under the cap. */
  ghost predicate RentsLeft(s: Session, u: int, n: int) {
    && s.working.Some? && WellFormed(s.working.value)
    && MaxRentals(s.working.value) == Ok(CountUserRentals(s.working.value.rentings, u) + n)
  }

  /** With `n` rentings left under the cap, `n` more `rent` commands for the student
      each return `Rent(1)` and the next one returns `TooManyRentals`. */
  lemma {:induction false} RentsUpToCap(s: Session, user: string, inst: string, u: int, i: int, now: Stamp, n: nat)
    requires UIParse(user, inst) == Ok((u, i))
    requires RentsLeft(s, u, n)
    ensures Run(s, Repeat(Rent(user, inst), n + 1), now).0 == Repeat(Ok(Rented(1)), n) + [Err(TooManyRentals)]
    decreases n
  {
    var c := Rent(user, inst);
    var cs := Repeat(c, n + 1);
    assert cs[0] == c && cs[1..] == Repeat(c, n);
    RunCons(s, cs, now);
    RentStepUnderCap(s, user, inst, u, i, now, n);
    if n > 0 {
      RentsUpToCap(Exec(s, c, now).1, user, inst, u, i, now, n - 1);
      var ok: Outcome := Ok(Rented(1));
      assert Repeat(ok, n) == [ok] + Repeat(ok, n - 1);
    }
  }

  /** One `rent` in an open transaction, as the cap decides it. */
  lemma RentStepUnderCap(s: Session, user: string, inst: string, u: int, i: int, now: Stamp, n: int)
    requires UIParse(user, inst) == Ok((u, i))
    requires RentsLeft(s, u, n)
    ensures n <= 0 ==> Exec(s, Rent(user, inst), now).0 == Err(TooManyRentals)
    ensures n > 0 ==> Exec(s, Rent(user, inst), now).0 == Ok(Rented(1))
    ensures n > 0 ==> RentsLeft(Exec(s, Rent(user, inst), now).1, u, n - 1)
  {
    ExecRentParsed(s, user, inst, u, i, now);
    var t := s.working.value;
    var e := Exec(s, Rent(user, inst), now);
    assert e == (RentTx(t, u, i, now).0, s.(working := Some(RentTx(t, u, i, now).1)));
    if n > 0 {
      RentBelowCap(t, u, i, now, n);
      assert e.1.working == Some(Inserted(t, u, i, now));
    } else {
      assert RentTx(t, u, i, now).0 == Err(TooManyRentals);
    }
  }

  lemma RentBelowCap(t: Tables, u: int, i: int, now: Stamp, n: int)
    requires WellFormed(t) && n > 0
    requires MaxRentals(t) == Ok(CountUserRentals(t.rentings, u) + n)
    ensures RentTx(t, u, i, now) == (Ok(Rented(1)), Inserted(t, u, i, now))
    ensures var t' := Inserted(t, u, i, now);
      WellFormed(t') && MaxRentals(t') == Ok(CountUserRentals(t'.rentings, u) + n - 1)
  {
    var t' := Inserted(t, u, i, now);
    var x := Renting(t.nextRentId, u, i, now, None);
    assert t'.businessRules == t.businessRules && t'.rentings == t.rentings + [x];
    assert MaxRentals(t') == MaxRentals(t);
    InsertedWellFormed(t, u, i, now);
    AppendActiveCounts(t.rentings, x, u, i);
    CapShift(MaxRentals(t), MaxRentals(t'), CountUserRentals(t.rentings, u), CountUserRentals(t'.rentings, u), n);
  }

  /** The cap seen from one more renting: one fewer left. */
  lemma CapShift(m: Result<int, ControlError>, m': Result<int, ControlError>, c: int, c': int, n: int)
    requires m' == m && m == Ok(c + n) && c' == c + 1
    ensures m' == Ok(c' + n - 1)
  {
  }

  /** Running a non-empty sequence of commands executes the first, then runs the rest. */
  lemma RunCons(s: Session, cs: seq<Command>, now: Stamp)
    requires cs != []
    ensures Run(s, cs, now).0 == [Exec(s, cs[0], now).0] + Run(Exec(s, cs[0], now).1, cs[1..], now).0
    ensures Run(s, cs, now).1 == Run(Exec(s, cs[0], now).1, cs[1..], now).1
  {
  }

  /** Starting from a student with no active renting, `max` rentings succeed and
      the one after them is refused. */
  lemma RentTooManyScenario(s: Session, u: int, i: int, now: Stamp, max: nat)
    requires s.working.Some? && WellFormed(s.working.value)
    requires I32_MIN <= u <= I32_MAX && I32_MIN <= i <= I32_MAX
    requires CountUserRentals(s.working.value.rentings, u) == 0
    requires MaxRentals(s.working.value) == Ok(max)
    ensures Run(s, Repeat(Rent(Decimal(u), Decimal(i)), max + 1), now).0 == Repeat(Ok(Rented(1)), max) + [Err(TooManyRentals)]
  {
    UIParseDecimal(u, i);
    assert RentsLeft(s, u, max);
    RentsUpToCap(s, Decimal(u), Decimal(i), u, i, now, max);
  }

  /** Running three commands is executing them one after the other. */
  lemma RunThree(s: Session, c1: Command, c2: Command, c3: Command, now: Stamp)
    ensures var e1 := Exec(s, c1, now);
            var e2 := Exec(e1.1, c2, now);
            var e3 := Exec(e2.1, c3, now);
            Run(s, [c1, c2, c3], now) == ([e1.0, e2.0, e3.0], e3.1)
  {
    var e1 := Exec(s, c1, now);
    var e2 := Exec(e1.1, c2, now);
    var e3 := Exec(e2.1, c3, now);
    assert Run(e3.1, [], now) == ([], e3.1);
    assert [c3][0] == c3 && [c3][1..] == [];
    assert Run(e2.1, [c3], now).0 == [e3.0] && Run(e2.1, [c3], now).1 == e3.1;
    assert [c2, c3][0] == c2 && [c2, c3][1..] == [c3];
    assert Run(e1.1, [c2, c3], now).0 == [e2.0, e3.0] && Run(e1.1, [c2, c3], now).1 == e3.1;
    assert [c1, c2, c3][0] == c1 && [c1, c2, c3][1..] == [c2, c3];
    assert Run(s, [c1, c2, c3], now).0 == [e1.0, e2.0, e3.0];
  }

  /** Two rentings of the same instrument by the same student make `try_terminate`
      report both; terminating one of them by its id then affects exactly one row. */
  lemma TerminateMultipleScenario(s: Session, user: string, inst: string, u: int, i: int, id: string, now: Stamp)
    requires s.working.Some? && WellFormed(s.working.value)
    requires UIParse(user, inst) == Ok((u, i))
    requires FindToTerminate(s.working.value.rentings, u, i) == []
    requires MaxRentals(s.working.value).Ok?
    requires CountUserRentals(s.working.value.rentings, u) + 2 <= MaxRentals(s.working.value).value
    requires ParseI32(id) == Ok(s.working.value.nextRentId)
    ensures var w := s.working.value;
            var run := Run(s, [Rent(user, inst), Rent(user, inst), TryTerminate(user, inst)], now);
      && run.0 == [Ok(Rented(1)), Ok(Rented(1)),
                   Err(TerminateMultiple([Renting(w.nextRentId, u, i, now, None), Renting(w.nextRentId + 1, u, i, now, None)]))]
      && Run(run.1, [Terminate(id)], now).0 == [Ok(Terminated(1))]
      && Run(run.1, [Terminate(id)], now).1.working
         == Some(Ended(Inserted(Inserted(w, u, i, now), u, i, now), w.nextRentId, now))
  {
    var w := s.working.value;
    var rent := Rent(user, inst);
    var tryTerminate := TryTerminate(user, inst);
    TwoRents(w, u, i, now);
    var w1 := Inserted(w, u, i, now);
    var w2 := Inserted(w1, u, i, now);
    var s1 := s.(working := Some(w1));
    var s2 := s1.(working := Some(w2));
    RentStepInserts(s, user, inst, u, i, now);
    RentStepInserts(s1, user, inst, u, i, now);
    TryTerminateStepMultiple(s2, user, inst, u, i, now);
    RunThree(s, rent, rent, tryTerminate, now);
    TerminateOutcome(s2, id, now);
    RunOne(s2, Terminate(id), now);
  }

  /** Two `rent`s of an instrument the student does not hold, under the cap, leave
      exactly the two new rentings to be found by `try_terminate`. */
  lemma TwoRents(t: Tables, u: int, i: int, now: Stamp)
    requires WellFormed(t)
    requires FindToTerminate(t.rentings, u, i) == []
    requires MaxRentals(t).Ok? && CountUserRentals(t.rentings, u) + 2 <= MaxRentals(t).value
    ensures var t1 := Inserted(t, u, i, now);
            var t2 := Inserted(t1, u, i, now);
      && WellFormed(t1) && MaxRentals(t1) == MaxRentals(t) && CountUserRentals(t1.rentings, u) < MaxRentals(t1).value
      && WellFormed(t2)
      && FindToTerminate(t2.rentings, u, i) == [Renting(t.nextRentId, u, i, now, None), Renting(t.nextRentId + 1, u, i, now, None)]
      && |t.rentings| < |t2.rentings| && t2.rentings[|t.rentings|].rentId == t.nextRentId
  {
    var x1 := Renting(t.nextRentId, u, i, now, None);
    var x2 := Renting(t.nextRentId + 1, u, i, now, None);
    InsertedCounts(t, u, i, now);
    var t1 := Inserted(t, u, i, now);
    InsertedCounts(t1, u, i, now);
    var t2 := Inserted(t1, u, i, now);
    assert t2.rentings == t.rentings + [x1] + [x2];
    FindAfterTwo(t.rentings, x1, x2, u, i);
  }

  lemma FindAfterTwo(rs: seq<Renting>, x1: Renting, x2: Renting, u: int, i: int)
    requires FindToTerminate(rs, u, i) == []
    requires x1.studentId == u && x1.instrumentId == i && x1.Active()
    requires x2.studentId == u && x2.instrumentId == i && x2.Active()
    ensures FindToTerminate(rs + [x1] + [x2], u, i) == [x1, x2]
  {
    FindAppend(rs, x1, u, i);
    FindAppend(rs + [x1], x2, u, i);
  }

  /** A `rent` under the cap, in an open transaction, inserts the renting. */
  lemma RentStepInserts(s: Session, user: string, inst: string, u: int, i: int, now: Stamp)
    requires UIParse(user, inst) == Ok((u, i))
    requires s.working.Some? && WellFormed(s.working.value)
    requires MaxRentals(s.working.value).Ok?
    requires CountUserRentals(s.working.value.rentings, u) < MaxRentals(s.working.value).value
    ensures Exec(s, Rent(user, inst), now) == (Ok(Rented(1)), s.(working := Some(Inserted(s.working.value, u, i, now))))
  {
    ExecRentParsed(s, user, inst, u, i, now);
  }

  /** `try_terminate` with several matching rentings reports them and changes nothing. */
  lemma TryTerminateStepMultiple(s: Session, user: string, inst: string, u: int, i: int, now: Stamp)
    requires UIParse(user, inst) == Ok((u, i))
    requires s.working.Some? && |FindToTerminate(s.working.value.rentings, u, i)| >= 2
    ensures Exec(s, TryTerminate(user, inst), now) == (Err(TerminateMultiple(FindToTerminate(s.working.value.rentings, u, i))), s)
  {
    ExecTryTerminateParsed(s, user, inst, u, i, now);
  }

  /** Running one command is executing it. */
  lemma RunOne(s: Session, c: Command, now: Stamp)
    ensures Run(s, [c], now).0 == [Exec(s, c, now).0] && Run(s, [c], now).1 == Exec(s, c, now).1
  {
    assert [c][0] == c && [c][1..] == [];
  }

  /** `list` fails exactly when the filter names no type or nothing is fetched;
      otherwise its entries are exactly the fetched instruments with copies left,
      each with the number left. */
  lemma ListOutcome(t: Tables, filter: Option<string>)
    ensures filter.None? ==> (ListTx(t, filter).Err? <==> t.instruments == [])
    ensures filter.Some? ==>
              ((forall k :: 0 <= k < |t.instrumentTypes| ==> !IsPrefix(ToLower(filter.value), t.instrumentTypes[k].instrumentType))
               ==> ListTx(t, filter) == Err(FromSql(RowNotFound)))
    ensures ListTx(t, filter).Ok? <==> Fetch(t, filter).Ok? && Fetch(t, filter).value != []
    ensures ListTx(t, filter).Err? ==> ListTx(t, filter).error == FromSql(RowNotFound)
    ensures ListTx(t, filter).Ok? ==>
              && Fetch(t, filter).Ok? && Fetch(t, filter).value != []
              && forall e :: e in ListTx(t, filter).value.entries <==>
                   e.instrument in Fetch(t, filter).value && e.available == Available(e.instrument, t.rentings) && e.available > 0
  {
  }

  /** When instruments are fetched but none has a copy left, `list` succeeds with an
      empty listing; it does not fail. */
  lemma ListNothingAvailable(t: Tables, filter: Option<string>)
    requires Fetch(t, filter).Ok? && Fetch(t, filter).value != []
    requires forall k :: 0 <= k < |Fetch(t, filter).value| ==> Available(Fetch(t, filter).value[k], t.rentings) <= 0
    ensures ListTx(t, filter) == Ok(Listed([]))
  {
    AvailabilityNone(Fetch(t, filter).value, t.rentings);
  }

  lemma {:induction false} AvailabilityNone(rows: seq<Instrument>, rs: seq<Renting>)
    requires forall k :: 0 <= k < |rows| ==> Available(rows[k], rs) <= 0
    ensures Availability(rows, rs) == []
    decreases |rows|
  {
    if rows != [] {
      var n := |rows|;
      var init := rows[..n - 1];
      assert forall k :: 0 <= k < |init| ==> init[k] == rows[k];
      AvailabilityNone(init, rs);
    }
  }

  /** The listing keeps the order of the fetched rows: listing two runs of rows is
      listing the first, then the second. */
  lemma {:induction false} AvailabilityConcat(a: seq<Instrument>, b: seq<Instrument>, rs: seq<Renting>)
    ensures Availability(a + b, rs) == Availability(a, rs) + Availability(b, rs)
    decreases |b|
  {
    if b != [] {
      var n := |b|;
      var x := b[n - 1];
      var tail := if Available(x, rs) > 0 then [ListEntry(x, Available(x, rs))] else [];
      assert (a + b)[..|a + b| - 1] == a + b[..n - 1];
      assert (a + b)[|a + b| - 1] == x;
      assert Availability(a + b, rs) == Availability(a + b[..n - 1], rs) + tail;
      assert Availability(b, rs) == Availability(b[..n - 1], rs) + tail;
      AvailabilityConcat(a, b[..n - 1], rs);
    } else {
      assert a + b == a;
    }
  }
}
