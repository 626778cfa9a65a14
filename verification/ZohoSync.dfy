/** The synchroniser itself: the tables and the sheet updated step by step, proved against Pull, Push and Resolve. */
module ZohoSync {
  import opened Common
  import opened Text
  import opened ZohoRecords
  import opened ZohoPull
  import opened ZohoMerge
  import opened ZohoPush
  import opened ZohoConflicts

  datatype ApplyOutcome = Applied | Refused | Raised

  class Synchroniser {
    var users: map<string, User>
    var order: seq<string>
    var meta: map<string, Meta>
    var conflicts: seq<ConflictRow>
    var sheet: Sheet

    function Tables(): Db
      reads this
    {
      Db(users, order, meta, conflicts)
    }

    constructor (users: map<string, User>, order: seq<string>, sheet: Sheet)
      ensures Tables() == Db(users, order, map[], []) && this.sheet == sheet
    {
      this.users, this.order, this.sheet := users, order, sheet;
      meta, conflicts := map[], [];
    }

    /** Validates one sheet value and writes it; Raised when the statement violates a unique constraint. */
    method ApplySheetValue(env: Env, number: string, c: Column, value: string) returns (outcome: ApplyOutcome)
      requires number in users
      modifies this`users
      ensures outcome == if !Accepts(env, c, value) then Refused
                         else if WriteThrows(old(users), number, c, value) then Raised else Applied
      ensures users == if outcome.Applied? then old(users)[number := Written(env, old(users[number]), c, value)]
                       else old(users)
    {
      var u := users[number];
      match c {
        case Status =>
          var state := env.upper(value);
          if state !in ACCOUNT_STATES { return Refused; }
          users := users[number := u.(state := state, updatedAt := env.now)];
        case Department =>
          if value !in env.departments { return Refused; }
          users := users[number := u.(profile := Some(ProfileOf(u).(department := Some(value))))];
        case Manager =>
          var manager := env.managerEmail(value);
          if manager.None? { return Refused; }
          users := users[number := u.(profile := Some(ProfileOf(u).(manager := manager)))];
        case Role =>
          if value !in env.roles { return Refused; }
          users := users[number := u.(roles := u.roles + {value})];
        case FullName =>
          users := users[number := u.(fullName := Some(value))];
        case Phone =>
          if value == "" || Utf16Length(value) > 32 { return Refused; }
          if PhoneTaken(users, number, value) { return Raised; }
          users := users[number := u.(phone := Some(value), updatedAt := env.now)];
        case Designation =>
          users := users[number := u.(profile := Some(ProfileOf(u).(designation := Some(value))))];
        case EmploymentType =>
          var status := env.lower(value);
          if status !in EMPLOYMENT_STATUSES { return Refused; }
          if u.profile.Some? {
            users := users[number := u.(profile := Some(u.profile.value.(employmentStatus := status)))];
          }
        case _ => return Refused;
      }
      return Applied;
    }

    /** The columns of one sheet record. The baseline is updated while later columns are still compared with it. */
    method PullRecord(env: Env, number: string, snapshot: User, row: Cells, stored: Option<Meta>, cols: seq<Column>)
      returns (baseline: map<Column, string>, reported: seq<Conflict>, writes: nat, threw: bool)
      requires number in users && InSheetOrder(cols)
      modifies this`users
      ensures var r := PullRow(env, old(users), number, snapshot, row, stored, cols);
              && users == old(users)[number := r.user] && threw == r.failed
              && (!threw ==> baseline == r.baseline && reported == r.conflicts && writes == r.writes)
    {
      hide Accepts, Written, DbFieldValue, SheetValue, Writable, WriteThrows;
      ghost var before := users;
      baseline, reported, writes, threw := StoredBaseline(stored), [], 0, false;
      for j := 0 to |cols|
        invariant users.Keys == before.Keys && users == before[number := users[number]] && !threw
        invariant PullRow(env, before, number, snapshot, row, stored, cols[..j])
               == RowResult(users[number], baseline, reported, writes, false)
        invariant forall i :: j <= i < |cols| ==>
                    (cols[i] in baseline <==> cols[i] in StoredBaseline(stored))
                    && (cols[i] in baseline ==> baseline[cols[i]] == StoredBaseline(stored)[cols[i]])
      {
        var c := cols[j];
        assert cols[..j + 1][..j] == cols[..j];
        assert forall i :: j < i < |cols| ==> cols[i] != c;
        FieldStep(env, before, number, snapshot, row, stored,
                  RowResult(users[number], baseline, reported, writes, false), c);
        PrefixFailure(env, before, number, snapshot, row, stored, cols, j + 1);
        SamePhones(before, users, number, c, SheetValue(row, c));
        var value := SheetValue(row, c);
        var dbValue := DbFieldValue(env, snapshot, c);
        if dbValue.Some? {
          if stored.None? {
            baseline := baseline[c := value];
          } else {
            var change := Classify(dbValue.value, value, if c in baseline then baseline[c] else dbValue.value);
            if change.Noop? || change.DbWins? {
              baseline := baseline[c := value];
            } else {
              var outcome := Refused;
              if change.Apply? {
                outcome := ApplySheetValue(env, number, c, value);
              }
              if outcome.Raised? {
                threw := true;
                return;
              } else if outcome.Applied? {
                writes := writes + 1;
                baseline := baseline[c := value];
              } else {
                reported := reported + [Conflict(number, c, dbValue, value)];
              }
            }
          }
        }
      }
      assert cols[..|cols|] == cols;
    }

    /** One record of a live user, and the metadata it leaves to store. */
    method PullLiveRecord(env: Env, number: string, snapshot: User, row: Cells, stored: Option<Meta>, cols: seq<Column>)
      returns (reported: seq<Conflict>, updated: Meta, writes: nat, threw: bool)
      requires number in users && InSheetOrder(cols)
      modifies this`users
      ensures var r := PullRow(env, old(users), number, snapshot, row, stored, cols);
              && users == old(users)[number := r.user] && threw == r.failed
              && (!threw ==> reported == r.conflicts && writes == r.writes && updated == UpdatedMeta(stored, r))
    {
      hide PullRow;
      var baseline;
      baseline, reported, writes, threw := PullRecord(env, number, snapshot, row, stored, cols);
      updated := Meta(if stored.Some? then stored.value.version else 0, baseline, "synced", None);
      if stored.Some? {
        updated := updated.(hash := stored.value.hash);
      }
      if writes > 0 {
        updated := updated.(version := updated.version + 1);
      }
      if reported != [] {
        updated := updated.(status := "conflict");
      }
    }

    /** One sheet record: skipped, reported as an orphan, or compared; added to what was collected so far. */
    method PullStepwise(env: Env, snapshot: map<string, User>, stored: map<string, Meta>, cols: seq<Column>, row: Cells,
                        soFar: PullState)
      returns (next: PullState)
      requires InSheetOrder(cols) && soFar.users == users && users.Keys == snapshot.Keys && !soFar.failed
      modifies this`users
      ensures next == PullStep(env, snapshot, stored, cols, soFar, row) && users == next.users
    {
      hide PullRow, Orphan, SheetValue, InSheetOrder, UpdatedMeta;
      next := soFar;
      var number := RowNumber(row);
      if number != "" {
        if !IsLive(snapshot, number) {
          if Orphan(env, row) {
            next := next.(conflicts := next.conflicts + [OrphanConflict(env, row)]);
          }
        } else {
          var reported, updated, writes, threw :=
            PullLiveRecord(env, number, snapshot[number], row, MetaOf(stored, number), cols);
          if threw {
            next := next.(users := users, failed := true);
          } else {
            next := PullState(users, next.conflicts + reported, next.updates + [MetaUpdate(number, updated)],
                              next.writes + writes, false);
          }
        }
      }
    }

    /** Every record of the sheet against one snapshot of users and metadata, until a write throws. */
    method PullRecords(env: Env, stored: map<string, Meta>, cols: seq<Column>) returns (r: PullState)
      requires InSheetOrder(cols)
      modifies this`users
      ensures r == PullRows(env, old(users), stored, cols, sheet) && users == r.users
    {
      hide PullStep, InSheetOrder;
      var snapshot, records := users, sheet;
      r := PullState(users, [], [], 0, false);
      for i := 0 to |records|
        invariant r == PullRows(env, snapshot, stored, cols, records[..i]) && users == r.users && !r.failed
      {
        assert records[..i + 1][..i] == records[..i];
        r := PullStepwise(env, snapshot, stored, cols, records[i], r);
        if r.failed {
          PrefixFailed(env, snapshot, stored, cols, records, i + 1);
          return;
        }
      }
      assert records[..|records|] == records;
    }

    /** Pull: read, compare, write, report, and only then store the new metadata. */
    method SyncSheetToDb(env: Env, mappings: Mappings) returns (outcome: Outcome)
      modifies this`users, this`meta, this`conflicts
      ensures (Tables(), outcome) == Pull(env, old(Tables()), sheet, mappings)
    {
      hide PullRows, Upsert, NamesTwice, Pending;
      PullColumnsAre(mappings);
      var r := PullRecords(env, meta, PullColumns(mappings));
      if r.failed {
        return Threw;
      }
      conflicts := conflicts + Pending(r.conflicts);
      if NamesTwice(r.updates) {
        return Threw;
      }
      meta := Upsert(meta, r.updates);
      return Completed(r.writes, |r.conflicts|);
    }

    method IndexSheet() returns (index: map<string, nat>)
      ensures index == IndexRows(sheet)
    {
      index := map[];
      for i := 0 to |sheet|
        invariant index == IndexRows(sheet[..i])
      {
        hide SheetValue;
        assert sheet[..i + 1][..i] == sheet[..i];
        var number := RowNumber(sheet[i]);
        if number != "" {
          index := index[number := i];
        }
      }
      assert sheet[..|sheet|] == sheet;
    }

    /** One user: removed, marked, updated with a new or the old version, added, or left out. */
    method PlanUser(env: Env, mappings: Mappings, policy: DeletionPolicy, index: map<string, nat>, number: string,
                    u: User, version: nat)
      returns (op: Option<Op>)
      requires index == IndexRows(sheet)
      ensures op == PlanOp(env, mappings, policy, sheet, index, number, u, version)
    {
      hide ToRecord, SheetHash, IndexRows;
      var isNew := number !in index;
      if u.deleted {
        if isNew {
          return None;
        }
        if policy.Delete? {
          return Some(Remove(index[number], PushMeta(number, version + 1, "", "removed")));
        }
        if policy.Keep? {
          var oldHash := SheetHash(env, sheet[index[number]], mappings);
          var kept := ToRecord(env, number, u, mappings, Decimal(version), true);
          return Some(Update(index[number], kept, PushMeta(number, version, oldHash, "removed")));
        }
      }
      var newVersion := if isNew then 1 else version + 1;
      var record := ToRecord(env, number, u, mappings, Decimal(newVersion), u.deleted);
      var newHash := env.hash(record);
      if isNew {
        return Some(Add(record, PushMeta(number, 1, newHash, "synced")));
      }
      var oldHash := SheetHash(env, sheet[index[number]], mappings);
      if newHash != oldHash {
        return Some(Update(index[number], record, PushMeta(number, newVersion, newHash, "synced")));
      }
      return Some(Update(index[number], record, PushMeta(number, version, oldHash, "synced")));
    }

    method PlanOps(env: Env, mappings: Mappings, policy: DeletionPolicy, index: map<string, nat>) returns (ops: seq<Op>)
      requires forall number :: number in order ==> number in users
      requires index == IndexRows(sheet)
      ensures ops == Plan(env, mappings, policy, sheet, Tables(), order)
    {
      ops := [];
      for i := 0 to |order|
        invariant ops == Plan(env, mappings, policy, sheet, Tables(), order[..i])
      {
        hide PlanOp, IndexRows;
        assert order[..i + 1][..i] == order[..i];
        var number := order[i];
        var op := PlanUser(env, mappings, policy, index, number, users[number], VersionOf(meta, number));
        if op.Some? {
          ops := ops + [op.value];
        }
      }
      assert order[..|order|] == order;
    }

    /** Push: plan one operation per user, flush them in slices, then record metadata for what was sent. */
    method SyncDbToSheet(env: Env, mappings: Mappings, policy: DeletionPolicy, batchSize: nat, ok: nat -> bool)
      returns (counts: PushCounts)
      requires batchSize > 0 && forall number :: number in order ==> number in users
      modifies this`sheet, this`meta
      ensures Pushed(Tables(), sheet, counts) == Push(env, old(Tables()), old(sheet), mappings, policy, batchSize, ok)
    {
      hide Plan, Flush, IndexRows, UpsertPushed;
      var index := IndexSheet();
      var ops := PlanOps(env, mappings, policy, index);
      var sent, failed := FlushOps(env, ops, batchSize, ok);
      meta := UpsertPushed(meta, sent);
      counts := PushCounts(0, 0, 0, failed);
      for i := 0 to |ops|
        invariant counts == CountOps(ops[..i], failed)
      {
        assert ops[..i + 1][..i] == ops[..i];
        match ops[i]
        case Add(_, _) => counts := counts.(rowsAdded := counts.rowsAdded + 1);
        case Update(_, _, _) => counts := counts.(rowsUpdated := counts.rowsUpdated + 1);
        case Remove(_, _) => counts := counts.(rowsDeleted := counts.rowsDeleted + 1);
      }
      assert ops[..|ops|] == ops;
    }

    /** One API call per slice of `batchSize` operations; the k-th call succeeds when `ok(k)`. */
    method FlushOps(env: Env, ops: seq<Op>, batchSize: nat, ok: nat -> bool) returns (sent: seq<PushMeta>, failed: nat)
      requires batchSize > 0
      modifies this`sheet
      ensures Flushed(sheet, sent, failed) == Flush(env, old(sheet), ops, batchSize, ok, 0)
    {
      hide *;
      sent, failed := [], 0;
      var current := sheet;
      ghost var all := Flush(env, sheet, ops, batchSize, ok, 0);
      var i, k := 0, 0;
      FlushStarts(env, sheet, ops, batchSize, ok);
      while i < |ops|
        invariant i <= |ops|
        invariant Continues(all, sent, failed, Flush(env, current, ops[i..], batchSize, ok, k))
      {
        FlushContinues(all, env, current, ops, i, batchSize, ok, k, sent, failed);
        var n := SliceSize(ops, i, batchSize);
        var batch := ops[i..i + n];
        if ok(k) {
          current := ApplySlice(env, current, batch);
          sent := sent + Metas(batch);
        } else {
          failed := failed + n;
        }
        i, k := i + n, k + 1;
      }
      FlushEnds(all, env, current, ops[i..], batchSize, ok, k, sent, failed);
      sheet := current;
    }

    method ResolveConflict(env: Env, id: nat, resolution: Resolution) returns (outcome: ResolveOutcome)
      modifies this`users, this`meta, this`conflicts
      ensures (Tables(), outcome) == Resolve(env, old(Tables()), id, resolution)
    {
      if id >= |conflicts| || conflicts[id].resolution.Some? {
        return NotFound;
      }
      var k := conflicts[id].conflict;
      if resolution.KeepSheet? {
        if !IsLive(users, k.number) {
          return UserGone;
        }
        var applied := ApplySheetValue(env, k.number, k.field, k.sheetValue);
        if applied.Refused? {
          return NotApplicable;
        }
        if applied.Raised? {
          return WriteThrew;
        }
      }
      if k.number in meta {
        var old_ := meta[k.number];
        meta := meta[k.number := old_.(baseline := old_.baseline[k.field := k.sheetValue], status := "synced")];
      }
      conflicts := conflicts[id := ConflictRow(k, Some(ResolutionName(resolution)))];
      return Resolved;
    }
  }

  /** Which columns are read-only, and what one column contributes, in the terms of the loop. */
  lemma FieldStep(env: Env, users: map<string, User>, number: string, snapshot: User, row: Cells, stored: Option<Meta>,
                  r: RowResult, c: Column)
    ensures var value, dbValue := SheetValue(row, c), DbFieldValue(env, snapshot, c);
            PullField(env, users, number, snapshot, row, stored, r, c)
            == if dbValue.None? then r
               else if stored.None? then r.(baseline := r.baseline[c := value])
               else
                 var change := Classify(dbValue.value, value, LastKnown(stored.value, c, dbValue.value));
                 if change.Noop? || change.DbWins? then r.(baseline := r.baseline[c := value])
                 else if change.Apply? && Accepts(env, c, value) then
                   if WriteThrows(users, number, c, value) then r.(failed := true)
                   else r.(user := Written(env, r.user, c, value), baseline := r.baseline[c := value],
                           writes := r.writes + 1)
                 else r.(conflicts := r.conflicts + [Conflict(number, c, dbValue, value)])
  {
    hide SheetValue, Accepts, Written;
  }

  /** What was sent and failed so far, continued by `rest`, is `all`. */
  ghost predicate Continues(all: Flushed, sent: seq<PushMeta>, failed: nat, rest: Flushed) {
    all == Flushed(rest.sheet, sent + rest.sent, failed + rest.failed)
  }

  lemma FlushStarts(env: Env, sheet: Sheet, ops: seq<Op>, batchSize: nat, ok: nat -> bool)
    requires batchSize > 0
    ensures var all := Flush(env, sheet, ops, batchSize, ok, 0);
            Continues(all, [], 0, Flush(env, sheet, ops[0..], batchSize, ok, 0))
  {
    assert ops[0..] == ops;
  }

  /** How many operations the slice that starts at `i` holds. */
  function SliceSize(ops: seq<Op>, i: nat, batchSize: nat): (n: nat)
    requires i < |ops| && batchSize > 0
    ensures 0 < n && i + n <= |ops|
  {
    Min(batchSize, |ops| - i)
  }

  /** One more slice, sent or failed. */
  lemma FlushContinues(all: Flushed, env: Env, sheet: Sheet, ops: seq<Op>, i: nat, batchSize: nat, ok: nat -> bool,
                       k: nat, sent: seq<PushMeta>, failed: nat)
    requires batchSize > 0 && i < |ops|
    requires Continues(all, sent, failed, Flush(env, sheet, ops[i..], batchSize, ok, k))
    ensures var n := SliceSize(ops, i, batchSize);
            var batch := ops[i..i + n];
            if ok(k) then
              Continues(all, sent + Metas(batch), failed,
                        Flush(env, ApplySlice(env, sheet, batch), ops[i + n..], batchSize, ok, k + 1))
            else
              Continues(all, sent, failed + n, Flush(env, sheet, ops[i + n..], batchSize, ok, k + 1))
  {
    hide ApplySlice;
    var n := SliceSize(ops, i, batchSize);
    assert ops[i..][..n] == ops[i..i + n] && ops[i..][n..] == ops[i + n..];
  }

  lemma FlushEnds(all: Flushed, env: Env, sheet: Sheet, rest: seq<Op>, batchSize: nat, ok: nat -> bool, k: nat,
                  sent: seq<PushMeta>, failed: nat)
    requires batchSize > 0 && rest == []
    requires Continues(all, sent, failed, Flush(env, sheet, rest, batchSize, ok, k))
    ensures all == Flushed(sheet, sent, failed)
  {
  }

  /** A row that failed at some column has failed as a whole, with the same user. */
  lemma {:induction false} PrefixFailure(env: Env, users: map<string, User>, number: string, snapshot: User, row: Cells,
                                         stored: Option<Meta>, cols: seq<Column>, j: nat)
    requires number in users && j <= |cols|
    ensures var r := PullRow(env, users, number, snapshot, row, stored, cols[..j]);
            r.failed ==> PullRow(env, users, number, snapshot, row, stored, cols) == r
    decreases |cols|
  {
    hide PullField;
    if j == |cols| {
      assert cols[..j] == cols;
    } else {
      assert cols[..|cols| - 1][..j] == cols[..j];
      PrefixFailure(env, users, number, snapshot, row, stored, cols[..|cols| - 1], j);
    }
  }

  lemma SamePhones(before: map<string, User>, users: map<string, User>, number: string, c: Column, value: string)
    requires number in before && number in users && users == before[number := users[number]]
    ensures WriteThrows(users, number, c, value) == WriteThrows(before, number, c, value)
  {
    assert users.Keys == before.Keys;
  }

  lemma {:induction false} PrefixFailed(env: Env, before: map<string, User>, meta: map<string, Meta>, cols: seq<Column>,
                                        sheet: Sheet, i: nat)
    requires i <= |sheet|
    ensures var r := PullRows(env, before, meta, cols, sheet[..i]);
            r.failed ==> PullRows(env, before, meta, cols, sheet) == r
    decreases |sheet|
  {
    hide PullStep;
    if i == |sheet| {
      assert sheet[..i] == sheet;
    } else {
      assert sheet[..|sheet| - 1][..i] == sheet[..i];
      PrefixFailed(env, before, meta, cols, sheet[..|sheet| - 1], i);
    }
  }
}
