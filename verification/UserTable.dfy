/** The users table as the services change it: number allocation, creation, and the generator's loops. */
module UserTable {
  import opened Common
  import opened Text
  import opened UserNumbers
  import opened DemoGenerator

  method Numbers(start: nat, end: nat) returns (out: seq<string>)
    requires start <= end
    ensures |out| == end - start + 1 && forall k :: 0 <= k < |out| ==> out[k] == DemoNumber(start + k)
  {
    hide DemoNumber;
    out := [];
    for i := start to end + 1
      invariant |out| == i - start && forall k :: 0 <= k < |out| ==> out[k] == DemoNumber(start + k)
    {
      out := out + [DemoNumber(i)];
    }
  }

  method Phones(start: nat, end: nat) returns (out: seq<string>)
    requires start <= end
    ensures |out| == end - start + 1 && forall k :: 0 <= k < |out| ==> out[k] == DemoPhone(start + k)
  {
    hide DemoPhone;
    out := [];
    for i := start to end + 1
      invariant |out| == i - start && forall k :: 0 <= k < |out| ==> out[k] == DemoPhone(start + k)
    {
      out := out + [DemoPhone(i)];
    }
  }

  class Users {
    var rows: seq<Row>

    constructor ()
      ensures rows == []
    {
      rows := [];
    }

    /** One pass over the users of the type for the largest trailing sequence. */
    method FindNextNumber(kind: UserType) returns (number: Option<string>)
      ensures number == NextUserNumber(rows, kind)
    {
      hide TrailingDigits, Parse, Number;
      var max := 0;
      for i := 0 to |rows|
        invariant max == MaxSequence(rows[..i], kind)
      {
        assert rows[..i + 1][..i] == rows[..i];
        if rows[i].kind == kind {
          max := Max(max, Parse(TrailingDigits(rows[i].number)));
        }
      }
      assert rows[..|rows|] == rows;
      if max >= INT4_MAX {
        return None;
      }
      return Some(Number(Prefix(kind), max + 1));
    }

    method Create(kind: UserType, phone: Option<string>) returns (outcome: Creation)
      modifies this
      ensures (rows, outcome) == CreateUser(old(rows), kind, phone)
    {
      hide NextUserNumber;
      var number := FindNextNumber(kind);
      if number.None? {
        return OutOfNumbers;
      }
      if exists i :: 0 <= i < |rows| && rows[i].number == number.value {
        return DuplicateNumber;
      }
      if phone.Some? && PhoneHeld(rows, number.value, phone.value) {
        return DuplicatePhone;
      }
      rows := rows + [Row(number.value, kind, false, phone)];
      return Created(number.value);
    }

    /** One upsert statement for a whole batch: all of its rows, or none of them. */
    method InsertOneBatch(start: nat, end: nat) returns (inserted: nat, updated: nat, failed: bool)
      requires start <= end
      modifies this
      ensures Progress(rows, inserted, updated, failed) == InsertBatch(Progress(old(rows), 0, 0, false), start, end)
    {
      hide DemoNumber, DemoPhone, PhoneHeld, HasNumber, WithPhone;
      var numbers := Numbers(start, end);
      var phones := Phones(start, end);
      var working := rows;
      inserted, updated, failed := 0, 0, false;
      ghost var before := Progress(rows, 0, 0, false);
      for k := 0 to |numbers|
        invariant rows == old(rows) && !failed
        invariant UpsertMany(before, start, k) == Progress(working, inserted, updated, false)
      {
        if PhoneHeld(working, numbers[k], phones[k]) {
          failed := true;
          UpsertFails(before, start, k, |numbers|);
          inserted, updated := 0, 0;
          return;
        }
        if HasNumber(working, numbers[k]) {
          working := WithPhone(working, numbers[k], phones[k]);
          updated := updated + 1;
        } else {
          working := working + [Row(numbers[k], Employee, false, Some(phones[k]))];
          inserted := inserted + 1;
        }
      }
      rows := working;
    }

    /** The job: batch after batch, adding up what each one inserted and updated. */
    method ProcessDemoGeneration(requested: nat) returns (inserted: nat, updated: nat, failed: bool)
      modifies this
      ensures Progress(rows, inserted, updated, failed) == Process(Progress(old(rows), 0, 0, false), 1, requested)
    {
      hide UpsertMany;
      inserted, updated, failed := 0, 0, false;
      ghost var all := Process(Progress(rows, 0, 0, false), 1, requested);
      var start := 1;
      while start <= requested
        invariant !failed && Process(Progress(rows, inserted, updated, failed), start, requested) == all
        decreases requested + 1 - start
      {
        var end := Min(start + BATCH_SIZE - 1, requested);
        ghost var before := Progress(rows, inserted, updated, false);
        var added, changed;
        added, changed, failed := InsertOneBatch(start, end);
        CountsAddUp(before.rows, before.inserted, before.updated, start, end - start + 1);
        if failed {
          return;
        }
        inserted, updated := inserted + added, updated + changed;
        start := start + BATCH_SIZE;
      }
    }
  }

  lemma UpsertFails(p: Progress, start: nat, k: nat, count: nat)
    requires k < count
    requires var before := UpsertMany(p, start, k);
             before.failed || PhoneHeld(before.rows, DemoNumber(start + k), DemoPhone(start + k))
    ensures UpsertMany(p, start, count).failed
  {
    hide DemoNumber, DemoPhone, PhoneHeld;
    var next := UpsertMany(p, start, k + 1);
    ManyAppend(p, start, k + 1, count - k - 1);
    FailureStays(next, start + k + 1, count - k - 1);
  }

  /** Counting on from earlier batches adds to what a batch counts from zero. */
  lemma {:induction false} CountsAddUp(rows: seq<Row>, inserted: nat, updated: nat, start: nat, count: nat)
    ensures var r := UpsertMany(Progress(rows, 0, 0, false), start, count);
            UpsertMany(Progress(rows, inserted, updated, false), start, count)
            == Progress(r.rows, inserted + r.inserted, updated + r.updated, r.failed)
  {
    hide DemoNumber, DemoPhone, PhoneHeld, HasNumber, WithPhone;
    if count > 0 {
      CountsAddUp(rows, inserted, updated, start, count - 1);
    }
  }
}
