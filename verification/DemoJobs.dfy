/** The users a demo generation stores, and what a generation that fails leaves behind. */
module DemoJobs {
  import opened Arithmetic
  import opened Common
  import opened DemoGenerator
  import opened Text
  import opened UserNumbers

  // ---- What is stored -------------------------------------------------------------------------------

  /** Upserting keeps every row but its phone; new rows are employees that are not deleted. */
  lemma {:induction false} UpsertsKeepRows(p: Progress, start: nat, count: nat)
    ensures var rows := UpsertMany(p, start, count).rows;
            && |p.rows| <= |rows|
            && (forall i :: 0 <= i < |p.rows| ==> rows[i].(phone := p.rows[i].phone) == p.rows[i])
            && (forall i :: |p.rows| <= i < |rows| ==> rows[i].kind.Employee? && !rows[i].deleted)
  {
    hide DemoNumber, DemoPhone, HasNumber, PhoneHeld;
    if count > 0 {
      UpsertsKeepRows(p, start, count - 1);
    }
  }

  /**
   * After a successful job, demo user j has a row whose number is "DJY-DEMO-" and j with at least six digits, and whose
   * phone is "+91" and 9900000000 + j. Rows that were there keep all but their phone; new ones are live employees.
   */
  lemma DemoUserIs(rows: seq<Row>, requested: nat, j: nat)
    requires !Process(Progress(rows, 0, 0, false), 1, requested).failed
    requires 1 <= j <= requested && j < 100_000_000
    ensures var after := Process(Progress(rows, 0, 0, false), 1, requested).rows;
            && (exists i :: 0 <= i < |after| && IsDemoRow(after[i], j))
            && |rows| <= |after|
            && (forall i :: 0 <= i < |rows| ==> after[i].(phone := rows[i].phone) == rows[i])
            && (forall i :: |rows| <= i < |after| ==> after[i].kind.Employee? && !after[i].deleted)
  {
    hide DemoNumber, DemoPhone, Process, UpsertMany, Parse, Decimal, Number;
    var p := Progress(rows, 0, 0, false);
    var after := Process(p, 1, requested).rows;
    BatchesActAsOne(p, 1, requested);
    UpsertsKeepRows(p, 1, requested);
    ManyStoreDemo(p, 1, requested, j, DemoPhone(j));
    var i :| 0 <= i < |after| && after[i].number == DemoNumber(j) && after[i].phone == Some(DemoPhone(j));
    PhoneText(j);
    DemoNumberReads(j);
    assert IsDemoRow(after[i], j);
  }

  ghost predicate IsDemoRow(row: Row, j: nat) {
    && |row.number| >= 15 && row.number[..9] == "DJY-DEMO-"
    && AllDigits(row.number[9..]) && Parse(row.number[9..]) == j
    && row.phone == Some("+91" + Decimal(9_900_000_000 + j))
  }

  lemma DemoNumberReads(j: nat)
    ensures var number := DemoNumber(j);
            |number| >= 15 && number[..9] == "DJY-DEMO-" && AllDigits(number[9..]) && Parse(number[9..]) == j
  {
    hide Parse, Decimal;
    DecimalParses(j);
    if |Decimal(j)| < 6 {
      ZerosParse(6 - |Decimal(j)|, Decimal(j));
    }
    assert |DEMO_PREFIX| == 8;
    assert DemoNumber(j)[9..] == PadStart(Decimal(j), 6);
  }

  // ---- What a failed job leaves -----------------------------------------------------------------------

  /** A failed job is some whole batches of five hundred that succeeded, and one after them that did not. */
  lemma {:induction false} StopsAfterBatches(p: Progress, start: nat, requested: nat) returns (done: nat)
    requires !p.failed && start >= 1 && Process(p, start, requested).failed
    ensures start + 500 * done <= requested
    ensures var before := UpsertMany(p, start, 500 * done);
            !before.failed && Process(p, start, requested) == before.(failed := true)
    ensures UpsertMany(p, start, Min(500 * (done + 1), requested + 1 - start)).failed
    decreases requested + 1 - start
  {
    hide UpsertMany;
    var end := Min(start + BATCH_SIZE - 1, requested);
    var n := end - start + 1;
    var batch := UpsertMany(p, start, n);
    if batch.failed {
      done := 0;
      NoneUpserted(p, start);
    } else {
      var later := StopsAfterBatches(batch, start + 500, requested);
      done := later + 1;
      ManyAppend(p, start, 500, 500 * later);
      ManyAppend(p, start, 500, Min(500 * (later + 1), requested + 1 - start - 500));
    }
  }

  /**
   * A failed job has stored whole batches: the demo users before the first whose phone is not free, rounded down to a
   * multiple of five hundred, and counted each of them once.
   */
  lemma FailedJobKeepsBatches(rows: seq<Row>, requested: nat)
    requires Process(Progress(rows, 0, 0, false), 1, requested).failed
    ensures var p, r := Progress(rows, 0, 0, false), Process(Progress(rows, 0, 0, false), 1, requested);
            exists first: nat ::
              && 1 <= first <= requested && !Storable(rows, first)
              && (forall i: nat :: 1 <= i < first ==> Storable(rows, i))
              && var done := (first - 1) / 500 * 500;
                 r.inserted + r.updated == done && r.rows == Process(p, 1, done).rows && !Process(p, 1, done).failed
  {
    hide UpsertMany, Process, PhoneFree;
    var p := Progress(rows, 0, 0, false);
    var batches := StopsAfterBatches(p, 1, requested);
    var done, next := 500 * batches, Min(500 * (batches + 1), requested);
    StorableIff(rows, done);
    StorableIff(rows, next);
    var first := FirstBad(rows, next);
    assert done < first <= next;
    assert (first - 1) / 500 * 500 == done;
    BatchesActAsOne(p, 1, done);
    ManyCount(p, 1, done);
  }

  /** A demo user beyond the phones, or whose phone somebody but an earlier demo user holds, cannot be stored. */
  ghost predicate Storable(rows: seq<Row>, i: nat) {
    i <= 100_000_000 && PhoneFree(rows, i)
  }

  lemma StorableIff(rows: seq<Row>, n: nat)
    ensures !UpsertMany(Progress(rows, 0, 0, false), 1, n).failed
            <==> forall i: nat :: 1 <= i <= n ==> Storable(rows, i)
  {
    hide UpsertMany, PhoneFree;
    var p := Progress(rows, 0, 0, false);
    if n <= PHONE_LIMIT {
      ManySucceedIff(p, n);
      assert forall i: nat :: 1 <= i <= n ==> (Storable(rows, i) <==> PhoneFree(p.rows, i));
    } else {
      TooManyFail(p, n);
      assert !Storable(rows, n);
    }
  }

  lemma {:induction false} FirstBad(rows: seq<Row>, n: nat) returns (first: nat)
    requires exists i: nat :: 1 <= i <= n && !Storable(rows, i)
    ensures 1 <= first <= n && !Storable(rows, first) && forall i: nat :: 1 <= i < first ==> Storable(rows, i)
  {
    hide Storable;
    if i: nat :| 1 <= i < n && !Storable(rows, i) {
      first := FirstBad(rows, n - 1);
    } else {
      first := n;
    }
  }
}
