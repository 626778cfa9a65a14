/** The batched demo generator, and runs of creations, soft deletions and generations over the users table. */
module DemoGenerator {
  import opened Arithmetic
  import opened Common
  import opened Text
  import opened UserNumbers

  const BATCH_SIZE: nat := 500

  function DemoNumber(i: nat): string {
    Number(DEMO_PREFIX, i)
  }

  /** "+91" and the first ten digits of 9900000000 + i. */
  function DemoPhone(i: nat): string {
    var digits := Decimal(9_900_000_000 + i);
    "+91" + digits[..Min(|digits|, 10)]
  }

  // ---- Batches -----------------------------------------------------------------------------------

  /** Rows stored so far, and how many were inserted and updated; a failed statement stores none of its own. */
  datatype Progress = Progress(rows: seq<Row>, inserted: nat, updated: nat, failed: bool)

  /** INSERT ... ON CONFLICT (user_number) DO UPDATE of one demo user. */
  function UpsertOne(p: Progress, i: nat): Progress {
    if p.failed || PhoneHeld(p.rows, DemoNumber(i), DemoPhone(i)) then p.(failed := true)
    else if HasNumber(p.rows, DemoNumber(i)) then
      p.(rows := WithPhone(p.rows, DemoNumber(i), DemoPhone(i)), updated := p.updated + 1)
    else
      p.(rows := p.rows + [Row(DemoNumber(i), Employee, false, Some(DemoPhone(i)))], inserted := p.inserted + 1)
  }

  /** The demo users start .. start + count - 1, in order. */
  function UpsertMany(p: Progress, start: nat, count: nat): Progress {
    if count == 0 then p else UpsertOne(UpsertMany(p, start, count - 1), start + count - 1)
  }

  /** One batch is one statement: when it fails the rows and counts are those before it. */
  function InsertBatch(p: Progress, start: nat, end: nat): Progress
    requires start <= end
  {
    var after := UpsertMany(p, start, end - start + 1);
    if after.failed then p.(failed := true) else after
  }

  function Process(p: Progress, start: nat, requested: nat): Progress
    decreases requested + 1 - start
  {
    if start > requested || p.failed then p
    else
      var end := Min(start + BATCH_SIZE - 1, requested);
      Process(InsertBatch(p, start, end), start + BATCH_SIZE, requested)
  }

  // ---- Batching is invisible ---------------------------------------------------------------------

  lemma {:induction false} ManyAppend(p: Progress, start: nat, a: nat, b: nat)
    ensures UpsertMany(UpsertMany(p, start, a), start + a, b) == UpsertMany(p, start, a + b)
  {
    hide UpsertOne;
    if b > 0 {
      ManyAppend(p, start, a, b - 1);
    }
  }

  lemma OneKeepsFailure(p: Progress, i: nat)
    requires p.failed
    ensures UpsertOne(p, i) == p
  {
    hide DemoNumber, DemoPhone;
  }

  lemma {:induction false} FailureStays(p: Progress, start: nat, count: nat)
    requires p.failed
    ensures UpsertMany(p, start, count) == p
  {
    hide UpsertOne;
    if count > 0 {
      FailureStays(p, start, count - 1);
      OneKeepsFailure(p, start + count - 1);
    }
  }

  /** The batches succeed together exactly when one statement over 1 .. requested would, and leave the same table. */
  lemma {:induction false} BatchesActAsOne(p: Progress, start: nat, requested: nat)
    requires !p.failed && 1 <= start
    ensures var all := UpsertMany(p, start, Max(0, requested + 1 - start));
            var r := Process(p, start, requested);
            (r.failed <==> all.failed) && (!r.failed ==> r == all)
    decreases requested + 1 - start
  {
    hide UpsertMany;
    if start <= requested {
      var end := Min(start + BATCH_SIZE - 1, requested);
      var n := end - start + 1;
      var batch := UpsertMany(p, start, n);
      ManyAppend(p, start, n, requested + 1 - start - n);
      if batch.failed {
        FailureStays(batch, start + n, requested + 1 - start - n);
      } else {
        BatchesActAsOne(batch, start + BATCH_SIZE, requested);
      }
    } else {
      assert UpsertMany(p, start, 0) == p by { NoneUpserted(p, start); }
    }
  }

  lemma NoneUpserted(p: Progress, start: nat)
    ensures UpsertMany(p, start, 0) == p
  {
  }

  // ---- What a generation stores ------------------------------------------------------------------------

  predicate Holds(rows: seq<Row>, number: string, phone: string) {
    exists i :: 0 <= i < |rows| && rows[i].number == number && rows[i].phone == Some(phone)
  }

  lemma HeldIsHolds(rows: seq<Row>, number: string, phone: string)
    ensures PhoneHeld(rows, number, phone) <==> exists other :: other != number && Holds(rows, other, phone)
  {
    if PhoneHeld(rows, number, phone) {
      var i :| 0 <= i < |rows| && rows[i].number != number && rows[i].phone == Some(phone);
      assert Holds(rows, rows[i].number, phone);
    }
  }

  lemma DemoNumbersDiffer(i: nat, j: nat)
    ensures DemoNumber(i) == DemoNumber(j) ==> i == j
  {
    NumbersDiffer(DEMO_PREFIX, i, DEMO_PREFIX, j);
  }

  lemma WithPhoneHolds(rows: seq<Row>, demo: string, demoPhone: string, number: string, phone: string)
    requires HasNumber(rows, demo)
    ensures Holds(WithPhone(rows, demo, demoPhone), number, phone)
            <==> if number == demo then phone == demoPhone else Holds(rows, number, phone)
    ensures HasNumber(WithPhone(rows, demo, demoPhone), number) <==> HasNumber(rows, number)
  {
    var after := WithPhone(rows, demo, demoPhone);
    if number == demo {
      var i :| 0 <= i < |rows| && rows[i].number == demo;
      assert after[i].phone == Some(demoPhone) && after[i].number == demo;
    } else if Holds(rows, number, phone) {
      var i :| 0 <= i < |rows| && rows[i].number == number && rows[i].phone == Some(phone);
      assert after[i] == rows[i];
    }
    if HasNumber(rows, number) {
      var i :| 0 <= i < |rows| && rows[i].number == number;
      assert after[i].number == number;
    }
  }

  lemma AppendedHolds(rows: seq<Row>, demo: string, demoPhone: string, number: string, phone: string)
    requires !HasNumber(rows, demo)
    ensures var after := rows + [Row(demo, Employee, false, Some(demoPhone))];
            && (Holds(after, number, phone) <==>
                if number == demo then phone == demoPhone else Holds(rows, number, phone))
            && (HasNumber(after, number) <==> HasNumber(rows, number) || number == demo)
  {
    var after := rows + [Row(demo, Employee, false, Some(demoPhone))];
    assert after[|rows|].number == demo && after[|rows|].phone == Some(demoPhone);
    if Holds(rows, number, phone) {
      var i :| 0 <= i < |rows| && rows[i].number == number && rows[i].phone == Some(phone);
      assert after[i] == rows[i];
    }
    if HasNumber(rows, number) {
      var i :| 0 <= i < |rows| && rows[i].number == number;
      assert after[i] == rows[i];
    }
  }

  lemma OneStores(p: Progress, i: nat, number: string, phone: string)
    requires !UpsertOne(p, i).failed
    ensures var rows := UpsertOne(p, i).rows;
            && (Holds(rows, number, phone)
                <==> if number == DemoNumber(i) then phone == DemoPhone(i) else Holds(p.rows, number, phone))
            && (HasNumber(rows, number) <==> HasNumber(p.rows, number) || number == DemoNumber(i))
  {
    hide DemoNumber, DemoPhone, Holds, HasNumber, PhoneHeld, WithPhone;
    if HasNumber(p.rows, DemoNumber(i)) {
      WithPhoneHolds(p.rows, DemoNumber(i), DemoPhone(i), number, phone);
    } else {
      AppendedHolds(p.rows, DemoNumber(i), DemoPhone(i), number, phone);
    }
  }

  /** Whether a number is one of the demo numbers start .. start + count - 1. */
  ghost predicate IsDemo(number: string, start: nat, count: nat) {
    exists j :: start <= j < start + count && number == DemoNumber(j)
  }

  lemma {:induction false} ManyStoreOthers(p: Progress, start: nat, count: nat, number: string, phone: string)
    requires !UpsertMany(p, start, count).failed
    ensures var rows := UpsertMany(p, start, count).rows;
            && (!IsDemo(number, start, count) ==> (Holds(rows, number, phone) <==> Holds(p.rows, number, phone)))
            && (HasNumber(rows, number) <==> HasNumber(p.rows, number) || IsDemo(number, start, count))
  {
    hide DemoNumber, DemoPhone, Holds, HasNumber, UpsertOne;
    if count > 0 {
      var i := start + count - 1;
      EarlierSucceeded(p, start, count);
      ManyStoreOthers(p, start, count - 1, number, phone);
      OneStores(UpsertMany(p, start, count - 1), i, number, phone);
      assert IsDemo(number, start, count) <==> IsDemo(number, start, count - 1) || number == DemoNumber(i);
    }
  }

  lemma EarlierSucceeded(p: Progress, start: nat, count: nat)
    requires count > 0 && !UpsertMany(p, start, count).failed
    ensures !UpsertMany(p, start, count - 1).failed
  {
    var before := UpsertMany(p, start, count - 1);
    hide UpsertOne;
    if before.failed {
      OneKeepsFailure(before, start + count - 1);
    }
  }

  lemma {:induction false} ManyStoreDemo(p: Progress, start: nat, count: nat, j: nat, phone: string)
    requires !UpsertMany(p, start, count).failed && start <= j < start + count
    ensures Holds(UpsertMany(p, start, count).rows, DemoNumber(j), phone) <==> phone == DemoPhone(j)
  {
    hide DemoNumber, DemoPhone, Holds, HasNumber, UpsertOne;
    var i := start + count - 1;
    EarlierSucceeded(p, start, count);
    OneStores(UpsertMany(p, start, count - 1), i, DemoNumber(j), phone);
    if j < i {
      DemoNumbersDiffer(i, j);
      ManyStoreDemo(p, start, count - 1, j, phone);
    }
  }

  // ---- Conservation ------------------------------------------------------------------------------------

  /** How many of the demo numbers start .. start + count - 1 are not in the table. */
  ghost function Missing(rows: seq<Row>, start: nat, count: nat): nat {
    if count == 0 then 0
    else Missing(rows, start, count - 1) + if HasNumber(rows, DemoNumber(start + count - 1)) then 0 else 1
  }

  lemma {:induction false} ManyCount(p: Progress, start: nat, count: nat)
    requires !UpsertMany(p, start, count).failed
    ensures var r := UpsertMany(p, start, count);
            && r.inserted + r.updated == p.inserted + p.updated + count
            && r.inserted == p.inserted + Missing(p.rows, start, count)
  {
    hide DemoNumber, DemoPhone, Holds, HasNumber, PhoneHeld;
    if count > 0 {
      var i := start + count - 1;
      EarlierSucceeded(p, start, count);
      ManyCount(p, start, count - 1);
      ManyStoreOthers(p, start, count - 1, DemoNumber(i), "");
      if IsDemo(DemoNumber(i), start, count - 1) {
        var j :| start <= j < i && DemoNumber(i) == DemoNumber(j);
        DemoNumbersDiffer(i, j);
      }
    }
  }

  /**
   * A successful job: inserted + updated is what was requested, inserted is the number of demo users that were missing,
   * each demo user 1 .. requested has its own phone, and every other user has the phone it had.
   */
  lemma JobConserves(rows: seq<Row>, requested: nat)
    requires !Process(Progress(rows, 0, 0, false), 1, requested).failed
    ensures var r := Process(Progress(rows, 0, 0, false), 1, requested);
            && r.inserted + r.updated == requested && r.inserted == Missing(rows, 1, requested)
            && (forall j, phone :: 1 <= j <= requested ==>
                (Holds(r.rows, DemoNumber(j), phone) <==> phone == DemoPhone(j)))
            && (forall number, phone :: !IsDemo(number, 1, requested) ==>
                  (Holds(r.rows, number, phone) <==> Holds(rows, number, phone)))
  {
    hide DemoNumber, DemoPhone, Holds, HasNumber, UpsertMany, Missing, IsDemo, Process;
    var p := Progress(rows, 0, 0, false);
    BatchesActAsOne(p, 1, requested);
    ManyCount(p, 1, requested);
    forall j, phone | 1 <= j <= requested
      ensures Holds(UpsertMany(p, 1, requested).rows, DemoNumber(j), phone) <==> phone == DemoPhone(j)
    {
      ManyStoreDemo(p, 1, requested, j, phone);
    }
    forall number, phone | !IsDemo(number, 1, requested)
      ensures Holds(UpsertMany(p, 1, requested).rows, number, phone) <==> Holds(rows, number, phone)
    {
      ManyStoreOthers(p, 1, requested, number, phone);
    }
  }

  // ---- Phones --------------------------------------------------------------------------------------------

  lemma TenDigits()
    ensures Pow10(9) == 1_000_000_000 && Pow10(10) == 10_000_000_000 && Pow10(11) == 100_000_000_000
  {
    assert Pow10(3) == 1000;
    assert Pow10(6) == 1_000_000;
  }

  const PHONE_LIMIT: nat := 100_000_000

  /** The first ten digits of a number of ten, or of eleven, digits. */
  lemma FirstTenDigits(m: nat)
    ensures 1_000_000_000 <= m < 10_000_000_000 ==> |Decimal(m)| == 10
    ensures 10_000_000_000 <= m < 100_000_000_000 ==> |Decimal(m)| == 11 && Decimal(m)[..10] == Decimal(m / 10)
  {
    TenDigits();
    if 1_000_000_000 <= m < 10_000_000_000 {
      DecimalLength(m, 10);
    } else if 10_000_000_000 <= m < 100_000_000_000 {
      DecimalLength(m, 11);
      DecimalLength(m / 10, 10);
    }
  }

  lemma PhoneText(i: nat)
    ensures i < PHONE_LIMIT ==> DemoPhone(i) == "+91" + Decimal(9_900_000_000 + i)
    ensures PHONE_LIMIT <= i <= PHONE_LIMIT + 1 ==> DemoPhone(i) == "+91" + Decimal((9_900_000_000 + i) / 10)
  {
    hide Decimal;
    FirstTenDigits(9_900_000_000 + i);
  }

  lemma DecimalsDiffer(m: nat, n: nat)
    ensures "+91" + Decimal(m) == "+91" + Decimal(n) ==> m == n
  {
    DecimalParses(m);
    DecimalParses(n);
    hide Decimal;
    assert ("+91" + Decimal(m))[3..] == Decimal(m) && ("+91" + Decimal(n))[3..] == Decimal(n);
  }

  lemma PhonesDiffer(i: nat, j: nat)
    requires 1 <= i < j <= PHONE_LIMIT
    ensures DemoPhone(i) != DemoPhone(j)
  {
    hide DemoPhone, Decimal;
    PhoneText(i);
    PhoneText(j);
    var m := 9_900_000_000 + i;
    var n := if j < PHONE_LIMIT then 9_900_000_000 + j else (9_900_000_000 + j) / 10;
    DecimalsDiffer(m, n);
  }

  lemma PhonesCollide()
    ensures DemoPhone(PHONE_LIMIT) == DemoPhone(PHONE_LIMIT + 1)
  {
    hide DemoPhone, Decimal;
    PhoneText(PHONE_LIMIT);
    PhoneText(PHONE_LIMIT + 1);
  }

  /** The phones of demo users 1 .. n are pairwise distinct exactly up to a hundred million users. */
  lemma PhonesDistinctIff(n: nat)
    ensures (forall i, j :: 1 <= i < j <= n ==> DemoPhone(i) != DemoPhone(j)) <==> n <= PHONE_LIMIT
  {
    hide DemoPhone;
    if n <= PHONE_LIMIT {
      forall i, j | 1 <= i < j <= n
        ensures DemoPhone(i) != DemoPhone(j)
      {
        PhonesDiffer(i, j);
      }
    } else {
      PhonesCollide();
    }
  }

  // ---- When a generation succeeds -------------------------------------------------------------------------

  /** Nobody but demo users up to `i` itself holds the phone of demo user `i`. */
  ghost predicate PhoneFree(rows: seq<Row>, i: nat) {
    forall number :: Holds(rows, number, DemoPhone(i)) ==> IsDemo(number, 1, i)
  }

  lemma OneSucceedsIff(p: Progress, i: nat)
    requires 1 <= i <= PHONE_LIMIT && !UpsertMany(p, 1, i - 1).failed
    ensures !UpsertMany(p, 1, i).failed <==> PhoneFree(p.rows, i)
  {
    var before := UpsertMany(p, 1, i - 1);
    hide DemoPhone, DemoNumber, Holds, HasNumber, PhoneHeld, WithPhone, IsDemo;
    HeldIsHolds(before.rows, DemoNumber(i), DemoPhone(i));
    forall number
      ensures number != DemoNumber(i) && Holds(before.rows, number, DemoPhone(i))
              <==> !IsDemo(number, 1, i) && Holds(p.rows, number, DemoPhone(i))
    {
      HolderBefore(p, i, number);
    }
    hide UpsertMany;
  }

  lemma HolderBefore(p: Progress, i: nat, number: string)
    requires 1 <= i <= PHONE_LIMIT && !UpsertMany(p, 1, i - 1).failed
    ensures number != DemoNumber(i) && Holds(UpsertMany(p, 1, i - 1).rows, number, DemoPhone(i))
            <==> !IsDemo(number, 1, i) && Holds(p.rows, number, DemoPhone(i))
  {
    hide DemoPhone, DemoNumber, Holds, HasNumber, UpsertMany;
    if IsDemo(number, 1, i - 1) {
      var j :| 1 <= j < i && number == DemoNumber(j);
      ManyStoreDemo(p, 1, i - 1, j, DemoPhone(i));
      PhonesDiffer(j, i);
      assert IsDemo(number, 1, i);
    } else {
      ManyStoreOthers(p, 1, i - 1, number, DemoPhone(i));
      assert IsDemo(number, 1, i) <==> number == DemoNumber(i);
    }
  }

  lemma {:induction false} ManySucceedIff(p: Progress, n: nat)
    requires !p.failed && n <= PHONE_LIMIT
    ensures !UpsertMany(p, 1, n).failed <==> forall i :: 1 <= i <= n ==> PhoneFree(p.rows, i)
  {
    hide PhoneFree, UpsertOne;
    if n > 0 {
      ManySucceedIff(p, n - 1);
      if UpsertMany(p, 1, n - 1).failed {
        OneKeepsFailure(UpsertMany(p, 1, n - 1), n);
      } else {
        OneSucceedsIff(p, n);
      }
    }
  }

  lemma TooManyFail(p: Progress, n: nat)
    requires n > PHONE_LIMIT
    ensures UpsertMany(p, 1, n).failed
  {
    var before := UpsertMany(p, 1, PHONE_LIMIT);
    hide DemoPhone, DemoNumber, Holds, HasNumber, PhoneHeld, WithPhone, UpsertMany;
    if before.failed {
      FailureStays(before, 1 + PHONE_LIMIT, n - PHONE_LIMIT);
      ManyAppend(p, 1, PHONE_LIMIT, n - PHONE_LIMIT);
    } else {
      ManyStoreDemo(p, 1, PHONE_LIMIT, PHONE_LIMIT, DemoPhone(PHONE_LIMIT));
      PhonesCollide();
      DemoNumbersDiffer(PHONE_LIMIT, PHONE_LIMIT + 1);
      HeldIsHolds(before.rows, DemoNumber(PHONE_LIMIT + 1), DemoPhone(PHONE_LIMIT + 1));
      ManyAppend(p, 1, PHONE_LIMIT, 1);
      ManyAppend(p, 1, PHONE_LIMIT + 1, n - PHONE_LIMIT - 1);
      var next := UpsertMany(p, 1, PHONE_LIMIT + 1);
      OneMore(before, 1 + PHONE_LIMIT);
      FailureStays(next, 2 + PHONE_LIMIT, n - PHONE_LIMIT - 1);
    }
  }

  lemma OneMore(p: Progress, i: nat)
    ensures UpsertMany(p, i, 1) == UpsertOne(p, i)
  {
    hide UpsertOne;
    NoneUpserted(p, i);
  }

  /** A job succeeds exactly when it asks for at most a hundred million users and their phones are free. */
  lemma JobSucceedsIff(rows: seq<Row>, requested: nat)
    ensures !Process(Progress(rows, 0, 0, false), 1, requested).failed
            <==> requested <= PHONE_LIMIT && forall i :: 1 <= i <= requested ==> PhoneFree(rows, i)
  {
    hide Process, UpsertMany, PhoneFree;
    var p := Progress(rows, 0, 0, false);
    BatchesActAsOne(p, 1, requested);
    if requested <= PHONE_LIMIT {
      ManySucceedIff(p, requested);
    } else {
      TooManyFail(p, requested);
    }
  }

  // ---- Runs ---------------------------------------------------------------------------------------------------

  datatype Event =
    | Create(kind: UserType, phone: Option<string>)
    | Delete(number: string)
    | ChangePhone(number: string, newPhone: string)
    | Generate(requested: nat)

  function Step(rows: seq<Row>, e: Event): seq<Row> {
    match e
    case Create(kind, phone) => CreateUser(rows, kind, phone).0
    case Delete(number) => SoftDelete(rows, number)
    case ChangePhone(number, phone) => SetPhone(rows, number, phone)
    case Generate(requested) => Process(Progress(rows, 0, 0, false), 1, requested).rows
  }

  function Run(rows: seq<Row>, events: seq<Event>): seq<Row> {
    if events == [] then rows else Step(Run(rows, events[..|events| - 1]), events[|events| - 1])
  }

  /** The numbers that the creations of a run handed out. */
  function HandedOut(rows: seq<Row>, events: seq<Event>): seq<string> {
    if events == [] then []
    else
      var n := |events| - 1;
      var before := HandedOut(rows, events[..n]);
      match events[n]
      case Create(kind, phone) =>
        var outcome := CreateUser(Run(rows, events[..n]), kind, phone).1;
        if outcome.Created? then before + [outcome.number] else before
      case _ => before
  }

  /** The table laws, and that no number leaves the table. */
  ghost predicate Grown(before: seq<Row>, after: seq<Row>) {
    (TableOk(before) ==> TableOk(after)) && forall number :: HasNumber(before, number) ==> HasNumber(after, number)
  }

  lemma OneKeepsTable(p: Progress, i: nat)
    ensures Grown(p.rows, UpsertOne(p, i).rows)
  {
    var after := UpsertOne(p, i);
    if TableOk(p.rows) && !after.failed {
      if HasNumber(p.rows, DemoNumber(i)) {
        hide DemoNumber, DemoPhone;
        WithPhoneKeepsTable(p.rows, DemoNumber(i), DemoPhone(i));
      } else {
        assert DemoNumber(i) == Number(DEMO_PREFIX, i);
        hide DemoNumber, DemoPhone;
        AppendKeepsTable(p.rows, Row(DemoNumber(i), Employee, false, Some(DemoPhone(i))));
      }
    }
    hide DemoNumber, DemoPhone, HasNumber, TableOk, WithPhone;
    forall number | !after.failed && HasNumber(p.rows, number)
      ensures HasNumber(after.rows, number)
    {
      OneStores(p, i, number, "");
    }
  }

  lemma AppendKeepsTable(rows: seq<Row>, row: Row)
    requires TableOk(rows) && Numbered(row) && !HasNumber(rows, row.number)
    requires row.phone.Some? ==> !PhoneHeld(rows, row.number, row.phone.value)
    ensures TableOk(rows + [row])
  {
    hide Numbered;
  }

  lemma {:induction false} ManyKeepTable(p: Progress, start: nat, count: nat)
    ensures Grown(p.rows, UpsertMany(p, start, count).rows)
  {
    hide UpsertOne, TableOk, HasNumber;
    if count > 0 {
      ManyKeepTable(p, start, count - 1);
      OneKeepsTable(UpsertMany(p, start, count - 1), start + count - 1);
    }
  }

  lemma {:induction false} ProcessKeepsTable(p: Progress, start: nat, requested: nat)
    ensures Grown(p.rows, Process(p, start, requested).rows)
    decreases requested + 1 - start
  {
    hide UpsertMany, TableOk, HasNumber;
    if start <= requested && !p.failed {
      var end := Min(start + BATCH_SIZE - 1, requested);
      ManyKeepTable(p, start, end - start + 1);
      ProcessKeepsTable(InsertBatch(p, start, end), start + BATCH_SIZE, requested);
    }
  }

  lemma UpdatesKeepNumbers(rows: seq<Row>, after: seq<Row>)
    requires |rows| == |after| && forall i :: 0 <= i < |rows| ==> rows[i].number == after[i].number
    ensures forall number :: HasNumber(rows, number) ==> HasNumber(after, number)
  {
    forall number | HasNumber(rows, number)
      ensures HasNumber(after, number)
    {
      var i :| 0 <= i < |rows| && rows[i].number == number;
      assert after[i].number == number;
    }
  }

  lemma StepGrows(rows: seq<Row>, e: Event)
    requires TableOk(rows)
    ensures Grown(rows, Step(rows, e))
  {
    hide TableOk, HasNumber, Process, PhoneHeld, NextUserNumber;
    match e
    case Create(kind, phone) =>
      CreateUserKeepsTable(rows, kind, phone);
      CreateKeepsNumbers(rows, kind, phone);
    case Delete(number) =>
      SoftDeleteKeepsTable(rows, number);
      UpdatesKeepNumbers(rows, SoftDelete(rows, number));
    case ChangePhone(number, phone) =>
      if !PhoneHeld(rows, number, phone) {
        WithPhoneKeepsTable(rows, number, phone);
        UpdatesKeepNumbers(rows, WithPhone(rows, number, phone));
      }
    case Generate(requested) => ProcessKeepsTable(Progress(rows, 0, 0, false), 1, requested);
  }

  lemma CreateKeepsNumbers(rows: seq<Row>, kind: UserType, phone: Option<string>)
    ensures forall number :: HasNumber(rows, number) ==> HasNumber(CreateUser(rows, kind, phone).0, number)
  {
    hide NextUserNumber, PhoneHeld;
    var after := CreateUser(rows, kind, phone).0;
    forall number | HasNumber(rows, number)
      ensures HasNumber(after, number)
    {
      var i :| 0 <= i < |rows| && rows[i].number == number;
      assert after[i] == rows[i];
    }
  }

  /** Over any run, user numbers and phones stay pairwise distinct, and no number is ever handed out twice. */
  lemma {:induction false} NumbersStayDistinct(rows: seq<Row>, events: seq<Event>)
    requires TableOk(rows)
    ensures var after, handed := Run(rows, events), HandedOut(rows, events);
            && TableOk(after) && Distinct(handed)
            && (forall i :: 0 <= i < |handed| ==> HasNumber(after, handed[i]))
  {
    hide TableOk, HasNumber, Step, CreateUser;
    if events != [] {
      var n := |events| - 1;
      var before := Run(rows, events[..n]);
      NumbersStayDistinct(rows, events[..n]);
      StepGrows(before, events[n]);
      if events[n].Create? {
        CreateUserKeepsTable(before, events[n].kind, events[n].phone);
        CreationSteps(before, events[n]);
      }
    }
  }

  lemma CreationSteps(rows: seq<Row>, e: Event)
    requires e.Create?
    ensures Step(rows, e) == CreateUser(rows, e.kind, e.phone).0
  {
  }
}
