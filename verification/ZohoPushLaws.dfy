/** A push is a keyed upsert: what its surviving operations do to the sheet and the metadata, and nothing else. */
module ZohoPushLaws {
  import opened Common
  import opened Text
  import opened ZohoRecords
  import opened ZohoPull
  import opened ZohoPush
  import opened ZohoPullLaws

  // ---- One operation at a time ---------------------------------------------------

  function ApplyOp(sheet: Sheet, op: Op): Sheet {
    match op
    case Add(values, _) => sheet + [values]
    case Update(row, values, _) => if row < |sheet| then sheet[row := sheet[row] + values] else sheet
    case Remove(_, _) => sheet
  }

  function ApplyOps(sheet: Sheet, ops: seq<Op>): Sheet {
    if ops == [] then sheet else ApplyOp(ApplyOps(sheet, ops[..|ops| - 1]), ops[|ops| - 1])
  }

  ghost predicate NoRemovals(ops: seq<Op>) {
    forall op :: op in ops ==> !op.Remove?
  }

  ghost predicate RowsExist(sheet: Sheet, ops: seq<Op>) {
    forall op :: op in ops && op.Update? ==> op.row < |sheet|
  }

  /** Every operation of the slice has the type of its first one. */
  ghost predicate Homogeneous(batch: seq<Op>) {
    (forall op :: op in batch ==> op.Add?) || (forall op :: op in batch ==> op.Update?)
  }

  function Adds(ops: seq<Op>): seq<Cells> {
    if ops == [] then []
    else
      var before, last := Adds(ops[..|ops| - 1]), ops[|ops| - 1];
      if last.Add? then before + [last.values] else before
  }

  lemma {:induction false} ApplyOpsLength(sheet: Sheet, ops: seq<Op>)
    ensures |ApplyOps(sheet, ops)| == |sheet| + |Adds(ops)|
  {
    if ops != [] {
      ApplyOpsLength(sheet, ops[..|ops| - 1]);
    }
  }

  lemma {:induction false} AddsLength(ops: seq<Op>)
    ensures |Adds(ops)| <= |ops|
    ensures |Adds(ops)| == |ops| <==> forall op :: op in ops ==> op.Add?
    ensures |Adds(ops)| == 0 <==> forall op :: op in ops ==> !op.Add?
  {
    if ops != [] {
      var init, last := ops[..|ops| - 1], ops[|ops| - 1];
      AddsLength(init);
      assert last in ops;
      assert forall op :: op in ops <==> op in init || op == last;
    }
  }

  lemma {:induction false} AddSlice(sheet: Sheet, batch: seq<Op>)
    requires forall op :: op in batch ==> op.Add?
    ensures ApplyOps(sheet, batch) == sheet + AllValues(batch)
  {
    if batch != [] {
      var init, last := batch[..|batch| - 1], batch[|batch| - 1];
      AddSlice(sheet, init);
      assert last in batch;
      assert AllValues(batch) == AllValues(init) + [last.values];
    }
  }

  lemma {:induction false} UpdateSlice(sheet: Sheet, batch: seq<Op>)
    requires forall op :: op in batch ==> op.Update?
    ensures ApplyOps(sheet, batch) == WriteRows(sheet, batch)
  {
    if batch != [] {
      assert batch[|batch| - 1] in batch;
      UpdateSlice(sheet, batch[..|batch| - 1]);
    }
  }

  /** A slice does what its operations say exactly when they are all of one type. */
  lemma SliceIsPerOperation(env: Env, sheet: Sheet, batch: seq<Op>)
    requires batch != [] && NoRemovals(batch)
    ensures ApplySlice(env, sheet, batch) == ApplyOps(sheet, batch) <==> Homogeneous(batch)
  {
    ApplyOpsLength(sheet, batch);
    AddsLength(batch);
    assert batch[0] in batch;
    if forall op :: op in batch ==> op.Add? {
      AddSlice(sheet, batch);
    } else if forall op :: op in batch ==> op.Update? {
      UpdateSlice(sheet, batch);
    }
  }

  // ---- Survivors ----------------------------------------------------------------------

  /** The operations of the slices that succeeded. */
  function Survivors(ops: seq<Op>, batchSize: nat, ok: nat -> bool, k: nat): seq<Op>
    requires batchSize > 0
    decreases |ops|
  {
    if ops == [] then []
    else
      var n := Min(batchSize, |ops|);
      var rest := Survivors(ops[n..], batchSize, ok, k + 1);
      if ok(k) then ops[..n] + rest else rest
  }

  ghost predicate SucceededHomogeneous(ops: seq<Op>, batchSize: nat, ok: nat -> bool, k: nat)
    requires batchSize > 0
    decreases |ops|
  {
    ops != [] ==>
      var n := Min(batchSize, |ops|);
      (ok(k) ==> Homogeneous(ops[..n])) && SucceededHomogeneous(ops[n..], batchSize, ok, k + 1)
  }

  /** The operations of the slices that succeeded as additions, or with `adding` false as updates. */
  function Sent(ops: seq<Op>, batchSize: nat, ok: nat -> bool, k: nat, adding: bool): seq<Op>
    requires batchSize > 0
    decreases |ops|
  {
    if ops == [] then []
    else
      var n := Min(batchSize, |ops|);
      var rest := Sent(ops[n..], batchSize, ok, k + 1, adding);
      if ok(k) && ops[0].Add? == adding then ops[..n] + rest else rest
  }

  /** Each survivor was sent one way or the other. */
  lemma {:induction false} SurvivorsAreSent(ops: seq<Op>, batchSize: nat, ok: nat -> bool, k: nat)
    requires batchSize > 0
    ensures forall op :: op in Survivors(ops, batchSize, ok, k) <==>
              op in Sent(ops, batchSize, ok, k, true) || op in Sent(ops, batchSize, ok, k, false)
    decreases |ops|
  {
    if ops != [] {
      SurvivorsAreSent(ops[Min(batchSize, |ops|)..], batchSize, ok, k + 1);
    }
  }

  /** The succeeded slices are of one type exactly when each operation was sent as what it is. */
  lemma {:induction false} HomogeneousIffSent(ops: seq<Op>, batchSize: nat, ok: nat -> bool, k: nat)
    requires batchSize > 0 && NoRemovals(ops)
    ensures SucceededHomogeneous(ops, batchSize, ok, k) <==>
        && (forall op :: op in Sent(ops, batchSize, ok, k, true) ==> op.Add?)
        && (forall op :: op in Sent(ops, batchSize, ok, k, false) ==> op.Update?)
    decreases |ops|
  {
    if ops != [] {
      var n := Min(batchSize, |ops|);
      var batch, rest := ops[..n], ops[n..];
      assert batch[0] == ops[0] && batch[0] in batch;
      assert forall op :: op in batch || op in rest ==> op in ops;
      HomogeneousIffSent(rest, batchSize, ok, k + 1);
    }
  }

  lemma {:induction false} WriteRowsConcat(sheet: Sheet, a: seq<Op>, b: seq<Op>)
    ensures WriteRows(sheet, a + b) == WriteRows(WriteRows(sheet, a), b)
  {
    if b == [] {
      assert a + b == a;
    } else {
      assert (a + b)[..|a + b| - 1] == a + b[..|b| - 1];
      WriteRowsConcat(sheet, a, b[..|b| - 1]);
    }
  }

  /** Updates of the rows that were there do not see the rows appended since. */
  lemma {:induction false} WriteRowsBefore(sheet: Sheet, appended: Sheet, batch: seq<Op>)
    requires RowsExist(sheet, batch)
    ensures WriteRows(sheet + appended, batch) == WriteRows(sheet, batch) + appended
  {
    if batch != [] {
      var last := batch[|batch| - 1];
      assert last in batch;
      WriteRowsBefore(sheet, appended, batch[..|batch| - 1]);
    }
  }

  lemma AllValuesConcat(a: seq<Op>, b: seq<Op>)
    ensures AllValues(a + b) == AllValues(a) + AllValues(b)
  {
  }

  /** Whatever the slices and however they fail: the slices sent as updates write rows, the others append theirs. */
  lemma {:induction false} FlushSends(env: Env, sheet: Sheet, appended: Sheet, ops: seq<Op>, batchSize: nat,
                                      ok: nat -> bool, k: nat)
    requires batchSize > 0 && NoRemovals(ops) && RowsExist(sheet, ops)
    ensures Flush(env, sheet + appended, ops, batchSize, ok, k).sheet
         == WriteRows(sheet, Sent(ops, batchSize, ok, k, false)) + appended
             + AllValues(Sent(ops, batchSize, ok, k, true))
    decreases |ops|
  {
    if ops != [] {
      var n := Min(batchSize, |ops|);
      var batch, rest := ops[..n], ops[n..];
      assert batch[0] == ops[0] && ops[0] in ops;
      assert forall op :: op in batch || op in rest ==> op in ops;
      hide WriteRows, AllValues;
      if !ok(k) {
        FlushSends(env, sheet, appended, rest, batchSize, ok, k + 1);
      } else if batch[0].Add? {
        assert sheet + appended + AllValues(batch) == sheet + (appended + AllValues(batch));
        FlushSends(env, sheet, appended + AllValues(batch), rest, batchSize, ok, k + 1);
        AllValuesConcat(batch, Sent(rest, batchSize, ok, k + 1, true));
      } else {
        WriteRowsBefore(sheet, appended, batch);
        FlushSends(env, WriteRows(sheet, batch), appended, rest, batchSize, ok, k + 1);
        WriteRowsConcat(sheet, batch, Sent(rest, batchSize, ok, k + 1, false));
      }
    } else {
      assert AllValues([]) == [];
      assert sheet + appended == sheet + appended + [];
    }
  }

  lemma {:induction false} ApplyOpsConcat(sheet: Sheet, a: seq<Op>, b: seq<Op>)
    ensures ApplyOps(sheet, a + b) == ApplyOps(ApplyOps(sheet, a), b)
  {
    if b == [] {
      assert a + b == a;
    } else {
      assert (a + b)[..|a + b| - 1] == a + b[..|b| - 1];
      ApplyOpsConcat(sheet, a, b[..|b| - 1]);
    }
  }

  /** The sheet after a push is the surviving operations applied one by one. */
  lemma {:induction false} FlushIsUpsert(env: Env, sheet: Sheet, ops: seq<Op>, batchSize: nat, ok: nat -> bool, k: nat)
    requires batchSize > 0 && NoRemovals(ops) && SucceededHomogeneous(ops, batchSize, ok, k)
    ensures Flush(env, sheet, ops, batchSize, ok, k).sheet == ApplyOps(sheet, Survivors(ops, batchSize, ok, k))
    decreases |ops|
  {
    if ops != [] {
      var n := Min(batchSize, |ops|);
      var batch, rest := ops[..n], ops[n..];
      assert forall op :: op in batch ==> op in ops;
      assert forall op :: op in rest ==> op in ops;
      if ok(k) {
        SliceIsPerOperation(env, sheet, batch);
        FlushIsUpsert(env, ApplySlice(env, sheet, batch), rest, batchSize, ok, k + 1);
        ApplyOpsConcat(sheet, batch, Survivors(rest, batchSize, ok, k + 1));
      } else {
        FlushIsUpsert(env, sheet, rest, batchSize, ok, k + 1);
      }
    }
  }

  /** Every slice, whether it succeeds or not, is of one type. */
  ghost predicate AllHomogeneous(ops: seq<Op>, batchSize: nat)
    requires batchSize > 0
    decreases |ops|
  {
    ops != [] ==>
      var n := Min(batchSize, |ops|);
      Homogeneous(ops[..n]) && AllHomogeneous(ops[n..], batchSize)
  }

  lemma {:induction false} HomogeneousEitherWay(ops: seq<Op>, batchSize: nat, ok: nat -> bool, k: nat)
    requires batchSize > 0 && AllHomogeneous(ops, batchSize)
    ensures SucceededHomogeneous(ops, batchSize, ok, k)
    decreases |ops|
  {
    hide Homogeneous;
    if ops != [] {
      HomogeneousEitherWay(ops[Min(batchSize, |ops|)..], batchSize, ok, k + 1);
    }
  }

  /** The pattern of failures in which one slice alone succeeds. */
  function Only(at: nat): nat -> bool {
    k => k == at
  }

  lemma {:induction false} NoneSucceed(env: Env, sheet: Sheet, ops: seq<Op>, batchSize: nat, at: nat, k: nat)
    requires batchSize > 0 && at < k
    ensures Flush(env, sheet, ops, batchSize, Only(at), k).sheet == sheet
        && Survivors(ops, batchSize, Only(at), k) == []
    decreases |ops|
  {
    hide ApplySlice;
    if ops != [] {
      NoneSucceed(env, sheet, ops[Min(batchSize, |ops|)..], batchSize, at, k + 1);
    }
  }

  lemma {:induction false} MixedSliceShows(env: Env, sheet: Sheet, ops: seq<Op>, batchSize: nat, k: nat)
      returns (at: nat)
    requires batchSize > 0 && NoRemovals(ops) && !AllHomogeneous(ops, batchSize)
    ensures at >= k
    ensures Flush(env, sheet, ops, batchSize, Only(at), k).sheet
            != ApplyOps(sheet, Survivors(ops, batchSize, Only(at), k))
    decreases |ops|
  {
    var n := Min(batchSize, |ops|);
    var batch, rest := ops[..n], ops[n..];
    assert NoRemovals(batch) && NoRemovals(rest);
    hide ApplySlice, ApplyOps, Homogeneous, NoRemovals;
    if Homogeneous(batch) {
      at := MixedSliceShows(env, sheet, rest, batchSize, k + 1);
    } else {
      at := k;
      SliceIsPerOperation(env, sheet, batch);
      NoneSucceed(env, ApplySlice(env, sheet, batch), rest, batchSize, at, k + 1);
      assert batch + [] == batch;
    }
  }

  /**
   * Whatever slices fail, exactly the surviving operations take effect: this holds if and only if no slice is mixed.
   */
  lemma FlushIsUpsertIff(env: Env, sheet: Sheet, ops: seq<Op>, batchSize: nat)
    requires batchSize > 0 && NoRemovals(ops)
    ensures (forall ok ::
             Flush(env, sheet, ops, batchSize, ok, 0).sheet == ApplyOps(sheet, Survivors(ops, batchSize, ok, 0)))
            <==> AllHomogeneous(ops, batchSize)
  {
    hide Flush, ApplyOps, Survivors, SucceededHomogeneous, NoRemovals;
    if AllHomogeneous(ops, batchSize) {
      forall ok
        ensures Flush(env, sheet, ops, batchSize, ok, 0).sheet == ApplyOps(sheet, Survivors(ops, batchSize, ok, 0))
      {
        HomogeneousEitherWay(ops, batchSize, ok, 0);
        FlushIsUpsert(env, sheet, ops, batchSize, ok, 0);
      }
    } else {
      var at := MixedSliceShows(env, sheet, ops, batchSize, 0);
    }
  }

  lemma {:induction false} UniformIsHomogeneous(ops: seq<Op>, batchSize: nat)
    requires batchSize > 0 && NoRemovals(ops)
    requires batchSize == 1 || (forall op :: op in ops ==> op.Add?) || (forall op :: op in ops ==> op.Update?)
    ensures AllHomogeneous(ops, batchSize)
    decreases |ops|
  {
    if ops != [] {
      var n := Min(batchSize, |ops|);
      assert forall op :: op in ops[..n] || op in ops[n..] ==> op in ops;
      UniformIsHomogeneous(ops[n..], batchSize);
      if batchSize == 1 {
        assert ops[..1] == [ops[0]] && ops[0] in ops;
      }
    }
  }

  /** Under any policy and any failures: metadata is sent for the survivors, and every operation is accounted for. */
  lemma {:induction false} FlushAccounts(env: Env, sheet: Sheet, ops: seq<Op>, batchSize: nat, ok: nat -> bool, k: nat)
    requires batchSize > 0
    ensures var f, survivors := Flush(env, sheet, ops, batchSize, ok, k), Survivors(ops, batchSize, ok, k);
            f.sent == Metas(survivors) && |f.sent| + f.failed == |ops|
    decreases |ops|
  {
    if ops != [] {
      var n := Min(batchSize, |ops|);
      var batch, rest := ops[..n], ops[n..];
      FlushAccounts(env, if ok(k) then ApplySlice(env, sheet, batch) else sheet, rest, batchSize, ok, k + 1);
      MetasConcat(batch, Survivors(rest, batchSize, ok, k + 1));
      hide ApplySlice, Metas;
    } else {
      assert Metas([]) == [];
    }
  }

  lemma MetasConcat(a: seq<Op>, b: seq<Op>)
    ensures Metas(a + b) == Metas(a) + Metas(b)
  {
  }

  ghost predicate OneOpEach(ops: seq<Op>) {
    forall i, j :: 0 <= i < j < |ops| ==> ops[i].meta.number != ops[j].meta.number
  }

  /** Survivors are operations of the plan, and all of them when every slice succeeds. */
  lemma {:induction false} SurvivorsOfPlan(ops: seq<Op>, batchSize: nat, ok: nat -> bool, k: nat)
    requires batchSize > 0
    ensures forall op :: op in Survivors(ops, batchSize, ok, k) ==> op in ops
    ensures (forall j: nat :: ok(j)) ==> Survivors(ops, batchSize, ok, k) == ops
    decreases |ops|
  {
    if ops != [] {
      var n := Min(batchSize, |ops|);
      assert ops == ops[..n] + ops[n..];
      SurvivorsOfPlan(ops[n..], batchSize, ok, k + 1);
    }
  }

  /** What is sent are survivors, each once, and none of them both ways. */
  lemma {:induction false} SentOnce(ops: seq<Op>, batchSize: nat, ok: nat -> bool, k: nat)
    requires batchSize > 0 && OneOpEach(ops)
    ensures OneOpEach(Sent(ops, batchSize, ok, k, true)) && OneOpEach(Sent(ops, batchSize, ok, k, false))
    ensures forall a, b :: a in Sent(ops, batchSize, ok, k, true) && b in Sent(ops, batchSize, ok, k, false) ==>
              a.meta.number != b.meta.number
    decreases |ops|
  {
    hide OneOpEach;
    if ops != [] {
      var n := Min(batchSize, |ops|);
      var batch, rest := ops[..n], ops[n..];
      assert ops == batch + rest;
      OneOpEachSplits(batch, rest);
      SentOnce(rest, batchSize, ok, k + 1);
      SurvivorsOfPlan(rest, batchSize, ok, k + 1);
      SurvivorsAreSent(rest, batchSize, ok, k + 1);
      var adds, updates := Sent(rest, batchSize, ok, k + 1, true), Sent(rest, batchSize, ok, k + 1, false);
      OneOpEachJoins(batch, adds);
      OneOpEachJoins(batch, updates);
    } else {
      assert OneOpEach([]) by { NoOps(); }
    }
  }

  lemma NoOps()
    ensures OneOpEach([])
  {
  }

  lemma OneOpEachSplits(batch: seq<Op>, rest: seq<Op>)
    requires OneOpEach(batch + rest)
    ensures OneOpEach(batch) && OneOpEach(rest)
    ensures forall a, b :: a in batch && b in rest ==> a.meta.number != b.meta.number
  {
    var ops := batch + rest;
    assert forall i :: 0 <= i < |batch| ==> ops[i] == batch[i];
    assert forall i :: 0 <= i < |rest| ==> ops[|batch| + i] == rest[i];
  }

  lemma OneOpEachJoins(batch: seq<Op>, later: seq<Op>)
    requires OneOpEach(batch) && OneOpEach(later)
    requires forall a, b :: a in batch && b in later ==> a.meta.number != b.meta.number
    ensures OneOpEach(batch + later)
  {
    assert forall i :: 0 <= i < |batch| ==> batch[i] in batch;
    assert forall j :: 0 <= j < |later| ==> later[j] in later;
  }

  lemma {:induction false} SurvivorsOncePerUser(ops: seq<Op>, batchSize: nat, ok: nat -> bool, k: nat)
    requires batchSize > 0 && OneOpEach(ops)
    ensures OneOpEach(Survivors(ops, batchSize, ok, k))
    decreases |ops|
  {
    hide OneOpEach;
    if ops != [] {
      var n := Min(batchSize, |ops|);
      var batch, rest := ops[..n], ops[n..];
      assert ops == batch + rest;
      OneOpEachSplits(batch, rest);
      SurvivorsOncePerUser(rest, batchSize, ok, k + 1);
      SurvivorsOfPlan(rest, batchSize, ok, k + 1);
      OneOpEachJoins(batch, Survivors(rest, batchSize, ok, k + 1));
    }
  }

  // ---- The plan ---------------------------------------------------------------------------

  /** What every planned operation is: an update of the user's indexed row, or one new row for a live user. */
  ghost predicate PlannedFor(env: Env, m: Mappings, policy: DeletionPolicy, sheet: Sheet, db: Db, op: Op) {
    var number, index := op.meta.number, IndexRows(sheet);
    && number in db.users
    && PlanOp(env, m, policy, sheet, index, number, db.users[number], VersionOf(db.meta, number)) == Some(op)
  }

  lemma {:induction false} PlanIs(env: Env, m: Mappings, policy: DeletionPolicy, sheet: Sheet, db: Db,
                                  order: seq<string>)
    requires Distinct(order) && forall number :: number in order ==> number in db.users
    ensures var ops := Plan(env, m, policy, sheet, db, order);
            && OneOpEach(ops)
            && (forall op :: op in ops <==> PlannedFor(env, m, policy, sheet, db, op) && op.meta.number in order)
  {
    hide PlanOp, IndexRows;
    if order != [] {
      var init, number := order[..|order| - 1], order[|order| - 1];
      PlanIs(env, m, policy, sheet, db, init);
      assert forall n :: n in order <==> n in init || n == number;
      PlanOpNames(env, m, policy, sheet, db, number);
    }
  }

  lemma PlanOpNames(env: Env, m: Mappings, policy: DeletionPolicy, sheet: Sheet, db: Db, number: string)
    requires number in db.users
    ensures var op := PlanOp(env, m, policy, sheet, IndexRows(sheet), number, db.users[number],
                             VersionOf(db.meta, number));
            op.Some? ==> op.value.meta.number == number
  {
  }

  /** Updates hit the row that carries the user's ID; additions are for live users the sheet does not hold. */
  lemma PlannedOperations(env: Env, m: Mappings, policy: DeletionPolicy, sheet: Sheet, db: Db, op: Op)
    requires PlannedFor(env, m, policy, sheet, db, op)
    ensures op.Update? || op.Remove? ==> op.row < |sheet| && RowNumber(sheet[op.row]) == op.meta.number
    ensures op.Add? ==> !db.users[op.meta.number].deleted
    ensures op.Add? && op.meta.number != "" ==> forall i :: 0 <= i < |sheet| ==> RowNumber(sheet[i]) != op.meta.number
    ensures op.Remove? ==> policy.Delete?
    ensures !op.Remove? ==> exists version ::
              op.values == ToRecord(env, op.meta.number, db.users[op.meta.number], m, version,
                                    db.users[op.meta.number].deleted)
  {
    hide ToRecord, SheetHash, SheetValue;
  }

  /** A live user is in every plan. */
  lemma LiveUsersPlanned(env: Env, m: Mappings, policy: DeletionPolicy, sheet: Sheet, db: Db, number: string)
    requires ValidDb(db) && IsLive(db.users, number)
    ensures exists op :: op in Plan(env, m, policy, sheet, db, db.order) && op.meta.number == number
  {
    hide ToRecord, SheetHash, SheetValue, IndexRows;
    PlanIs(env, m, policy, sheet, db, db.order);
    var op := PlanOp(env, m, policy, sheet, IndexRows(sheet), number, db.users[number],
                     VersionOf(db.meta, number)).value;
    assert PlannedFor(env, m, policy, sheet, db, op);
  }

  // ---- Row by row ------------------------------------------------------------------------------

  ghost predicate RowsOnce(ops: seq<Op>) {
    forall i, j :: 0 <= i < j < |ops| && ops[i].Update? && ops[j].Update? ==> ops[i].row != ops[j].row
  }

  /** Updated rows merge their values, every other row stays, and the added records follow in order. */
  lemma {:induction false} UpsertRowByRow(sheet: Sheet, ops: seq<Op>)
    requires NoRemovals(ops) && RowsExist(sheet, ops) && RowsOnce(ops)
    ensures var after := ApplyOps(sheet, ops);
            && |after| == |sheet| + |Adds(ops)| && after[|sheet|..] == Adds(ops)
            && (forall op | op in ops && op.Update? :: after[op.row] == sheet[op.row] + op.values)
            && (forall i | 0 <= i < |sheet| && !Targets(ops, i) :: after[i] == sheet[i])
  {
    if ops != [] {
      var init, last := ops[..|ops| - 1], ops[|ops| - 1];
      assert last in ops;
      assert forall op :: op in ops <==> op in init || op == last;
      UpsertRowByRow(sheet, init);
      forall op | op in init && op.Update? ensures last.Update? ==> op.row != last.row {
        var i :| 0 <= i < |init| && init[i] == op;
        assert ops[i].Update? && ops[|init|] == last;
      }
      if last.Update? {
        assert !Targets(init, last.row);
      }
    }
  }

  ghost predicate Targets(ops: seq<Op>, row: nat) {
    exists op :: op in ops && op.Update? && op.row == row
  }

  lemma {:induction false} AddsAre(ops: seq<Op>)
    ensures forall values :: values in Adds(ops) <==> exists op :: op in ops && op.Add? && op.values == values
  {
    if ops != [] {
      var init, last := ops[..|ops| - 1], ops[|ops| - 1];
      AddsAre(init);
      assert forall op :: op in ops <==> op in init || op == last;
    }
  }

  /** User numbers survive a round trip through a cell. */
  ghost predicate TrimmedNumbers(db: Db) {
    forall number :: number in db.users ==> Trim(number) == number
  }

  /** A record carries its user's number if the User ID column is pushed, and none otherwise. */
  lemma RecordsCarryTheirNumber(env: Env, db: Db, sheet: Sheet, m: Mappings, policy: DeletionPolicy, op: Op)
    requires PlannedFor(env, m, policy, sheet, db, op) && !op.Remove? && TrimmedNumbers(db)
    ensures RowNumber(op.values) == if PushEnabled(DirectionOf(m, UserId)) then op.meta.number else ""
    ensures forall row: Cells :: RowNumber(row + op.values)
              == if PushEnabled(DirectionOf(m, UserId)) then op.meta.number else RowNumber(row)
  {
    hide PlannedFor, Trim;
    PlannedOperations(env, m, policy, sheet, db, op);
    PushColumnsAre(m);
    assert PushEnabled(DirectionOf(m, UserId)) ==> UserId in op.values && op.values[UserId] == op.meta.number;
    assert !PushEnabled(DirectionOf(m, UserId)) ==> UserId !in op.values;
    assert Trim("") == "" by { TrimNothing(); }
    assert op.meta.number in db.users by { PlannedNumber(env, m, policy, sheet, db, op); }
  }

  lemma TrimNothing()
    ensures Trim("") == ""
  {
  }

  lemma PlannedNumber(env: Env, m: Mappings, policy: DeletionPolicy, sheet: Sheet, db: Db, op: Op)
    requires PlannedFor(env, m, policy, sheet, db, op)
    ensures op.meta.number in db.users
  {
  }

  // ---- The laws -----------------------------------------------------------------------------------

  ghost predicate CanPush(db: Db, batchSize: nat) {
    ValidDb(db) && "" !in db.users && batchSize > 0
  }

  /** The operations of this push whose slice succeeded. */
  ghost function Done(env: Env, db: Db, sheet: Sheet, m: Mappings, policy: DeletionPolicy, batchSize: nat,
                      ok: nat -> bool): seq<Op>
    requires CanPush(db, batchSize)
  {
    Survivors(Plan(env, m, policy, sheet, db, db.order), batchSize, ok, 0)
  }

  lemma DoneIs(env: Env, db: Db, sheet: Sheet, m: Mappings, policy: DeletionPolicy, batchSize: nat, ok: nat -> bool)
    requires CanPush(db, batchSize)
    ensures var done := Done(env, db, sheet, m, policy, batchSize, ok);
            && OneOpEach(done) && RowsExist(sheet, done) && RowsOnce(done)
            && (!policy.Delete? ==> NoRemovals(done))
            && (forall op :: op in done ==> PlannedFor(env, m, policy, sheet, db, op))
  {
    hide PlannedFor, SheetValue;
    var ops := Plan(env, m, policy, sheet, db, db.order);
    PlanIs(env, m, policy, sheet, db, db.order);
    SurvivorsOfPlan(ops, batchSize, ok, 0);
    SurvivorsOncePerUser(ops, batchSize, ok, 0);
    var done := Done(env, db, sheet, m, policy, batchSize, ok);
    forall i | 0 <= i < |done|
      ensures done[i].Update? ==> done[i].row < |sheet| && RowNumber(sheet[done[i].row]) == done[i].meta.number
      ensures done[i].Remove? ==> policy.Delete?
    {
      assert done[i] in done;
      PlannedOperations(env, m, policy, sheet, db, done[i]);
    }
  }

  lemma PlannedKind(env: Env, m: Mappings, policy: DeletionPolicy, sheet: Sheet, db: Db, op: Op)
    requires PlannedFor(env, m, policy, sheet, db, op) && !policy.Delete?
    ensures !op.Remove? && (op.Add? <==> op.meta.number !in IndexRows(sheet))
  {
    hide IndexRows, ToRecord, SheetHash;
  }

  /** No slice is mixed when slices hold one operation, when every user has a row already, or when none has. */
  lemma WhenNoSliceIsMixed(env: Env, db: Db, sheet: Sheet, m: Mappings, policy: DeletionPolicy, batchSize: nat)
    requires CanPush(db, batchSize) && !policy.Delete?
    requires batchSize == 1 || (forall number :: number in db.users ==> number in IndexRows(sheet))
             || (forall number :: number in db.users ==> number !in IndexRows(sheet))
    ensures AllHomogeneous(Plan(env, m, policy, sheet, db, db.order), batchSize)
  {
    var ops := Plan(env, m, policy, sheet, db, db.order);
    PlanIs(env, m, policy, sheet, db, db.order);
    hide Plan, IndexRows, PlannedFor, OneOpEach, AllHomogeneous;
    forall op | op in ops
      ensures !op.Remove? && op.meta.number in db.users && (op.Add? <==> op.meta.number !in IndexRows(sheet))
    {
      PlannedKind(env, m, policy, sheet, db, op);
    }
    UniformIsHomogeneous(ops, batchSize);
  }

  /** The operations of this push whose records went to the sheet as new rows. */
  ghost function SentAsAdditions(env: Env, db: Db, sheet: Sheet, m: Mappings, policy: DeletionPolicy, batchSize: nat,
                                 ok: nat -> bool): seq<Op>
    requires CanPush(db, batchSize)
  {
    Sent(Plan(env, m, policy, sheet, db, db.order), batchSize, ok, 0, true)
  }

  /** The operations of this push that went to the sheet as updates of rows. */
  ghost function SentAsUpdates(env: Env, db: Db, sheet: Sheet, m: Mappings, policy: DeletionPolicy, batchSize: nat,
                               ok: nat -> bool): seq<Op>
    requires CanPush(db, batchSize)
  {
    Sent(Plan(env, m, policy, sheet, db, db.order), batchSize, ok, 0, false)
  }

  lemma SentIs(env: Env, db: Db, sheet: Sheet, m: Mappings, policy: DeletionPolicy, batchSize: nat, ok: nat -> bool)
    requires CanPush(db, batchSize) && !policy.Delete?
    ensures var done := Done(env, db, sheet, m, policy, batchSize, ok);
            var adds := SentAsAdditions(env, db, sheet, m, policy, batchSize, ok);
            var updates := SentAsUpdates(env, db, sheet, m, policy, batchSize, ok);
            && (forall op :: op in done <==> op in adds || op in updates)
            && OneOpEach(adds) && OneOpEach(updates) && RowsOnce(updates)
            && (forall a, b :: a in adds && b in updates ==> a.meta.number != b.meta.number)
            && (forall op :: op in done ==> !op.Remove? && PlannedFor(env, m, policy, sheet, db, op))
            && (forall op :: op in done && op.Update? ==>
                op.row < |sheet| && RowNumber(sheet[op.row]) == op.meta.number)
  {
    hide PlannedFor, SheetValue, Plan, IndexRows;
    var ops := Plan(env, m, policy, sheet, db, db.order);
    PlanIs(env, m, policy, sheet, db, db.order);
    SentOnce(ops, batchSize, ok, 0);
    SurvivorsAreSent(ops, batchSize, ok, 0);
    DoneIs(env, db, sheet, m, policy, batchSize, ok);
    forall op | op in Done(env, db, sheet, m, policy, batchSize, ok)
      ensures !op.Remove?
      ensures op.Update? ==> op.row < |sheet| && RowNumber(sheet[op.row]) == op.meta.number
    {
      PlannedOperations(env, m, policy, sheet, db, op);
    }
    RowsOfUsersOnce(sheet, SentAsUpdates(env, db, sheet, m, policy, batchSize, ok));
  }

  lemma RowsOfUsersOnce(sheet: Sheet, ops: seq<Op>)
    requires OneOpEach(ops)
    requires forall op :: op in ops && op.Update? ==> op.row < |sheet| && RowNumber(sheet[op.row]) == op.meta.number
    ensures RowsOnce(ops)
  {
    hide RowNumber;
    assert forall i :: 0 <= i < |ops| ==> ops[i] in ops;
  }

  /**
   * Policies mark and keep, any pattern of mixed and failed slices: what was sent as an update replaces the pushed
   * columns of its user's row, every other row stays, and what was sent as an addition is appended, in order, updates
   * included.
   */
  lemma PushSends(env: Env, db: Db, sheet: Sheet, m: Mappings, policy: DeletionPolicy, batchSize: nat, ok: nat -> bool)
    requires CanPush(db, batchSize) && !policy.Delete?
    ensures var after := Push(env, db, sheet, m, policy, batchSize, ok).sheet;
            var adds := SentAsAdditions(env, db, sheet, m, policy, batchSize, ok);
            var updates := SentAsUpdates(env, db, sheet, m, policy, batchSize, ok);
            && |after| == |sheet| + |adds|
            && (forall k | 0 <= k < |adds| :: !adds[k].Remove? && after[|sheet| + k] == adds[k].values)
            && (forall op | op in updates && op.Update? ::
                  op.row < |sheet| && RowNumber(sheet[op.row]) == op.meta.number
                  && after[op.row] == sheet[op.row] + op.values)
            && (forall i | 0 <= i < |sheet| && !Targets(updates, i) :: after[i] == sheet[i])
  {
    hide Plan, PlanOp, ToRecord, SheetHash, SheetValue, IndexRows, WriteRows, CountOps, RowsOnce, OneOpEach, PlannedFor,
      RowNumber, Done, Sent;
    var ops := Plan(env, m, policy, sheet, db, db.order);
    var adds := SentAsAdditions(env, db, sheet, m, policy, batchSize, ok);
    var updates := SentAsUpdates(env, db, sheet, m, policy, batchSize, ok);
    SentIs(env, db, sheet, m, policy, batchSize, ok);
    PlanIs(env, m, policy, sheet, db, db.order);
    forall op | op in ops ensures !op.Remove? && (op.Update? ==> op.row < |sheet|) {
      PlannedOperations(env, m, policy, sheet, db, op);
    }
    assert sheet + [] == sheet;
    FlushSends(env, sheet, [], ops, batchSize, ok, 0);
    WrittenRowByRow(sheet, updates);
    forall k | 0 <= k < |adds| ensures !adds[k].Remove? {
      assert adds[k] in adds;
    }
  }

  /** Each update merges its values into its row; every other row stays. */
  lemma {:induction false} WrittenRowByRow(sheet: Sheet, ops: seq<Op>)
    requires RowsExist(sheet, ops) && RowsOnce(ops)
    ensures forall op | op in ops && op.Update? :: WriteRows(sheet, ops)[op.row] == sheet[op.row] + op.values
    ensures forall i | 0 <= i < |sheet| && !Targets(ops, i) :: WriteRows(sheet, ops)[i] == sheet[i]
  {
    if ops != [] {
      var init, last := ops[..|ops| - 1], ops[|ops| - 1];
      assert last in ops;
      assert forall op :: op in ops <==> op in init || op == last;
      WrittenRowByRow(sheet, init);
      forall op | op in init && op.Update? ensures last.Update? ==> op.row != last.row {
        var i :| 0 <= i < |init| && init[i] == op;
        assert ops[i].Update? && ops[|init|] == last;
      }
      if last.Update? {
        assert !Targets(init, last.row);
      }
    }
  }

  /**
   * Each of the operations took effect as what it is: an updated row is the row of its user with the pushed columns
   * replaced, every other row stays, and the appended rows are the additions, in order.
   */
  ghost predicate KeyedUpsert(sheet: Sheet, after: Sheet, done: seq<Op>) {
    && |after| == |sheet| + |Adds(done)| && after[|sheet|..] == Adds(done)
    && (forall op | op in done && op.Update? ::
          op.row < |sheet| && RowNumber(sheet[op.row]) == op.meta.number
          && after[op.row] == sheet[op.row] + op.values)
    && (forall i | 0 <= i < |sheet| && !Targets(done, i) :: after[i] == sheet[i])
  }

  /**
   * Policies mark and keep, any pattern of failed slices: a push is a keyed upsert of exactly its surviving operations
   * when the slices that succeeded are of one type each, and with the User ID column pushed only then.
   */
  lemma PushIsKeyedUpsert(env: Env, db: Db, sheet: Sheet, m: Mappings, policy: DeletionPolicy, batchSize: nat,
                          ok: nat -> bool)
    requires CanPush(db, batchSize) && !policy.Delete?
    ensures var upsert := KeyedUpsert(sheet, Push(env, db, sheet, m, policy, batchSize, ok).sheet,
                                      Done(env, db, sheet, m, policy, batchSize, ok));
            var pure := SucceededHomogeneous(Plan(env, m, policy, sheet, db, db.order), batchSize, ok, 0);
            (pure ==> upsert) && (TrimmedNumbers(db) && PushEnabled(DirectionOf(m, UserId)) ==> (upsert <==> pure))
  {
    hide Push, Plan, KeyedUpsert, SucceededHomogeneous, TrimmedNumbers;
    if SucceededHomogeneous(Plan(env, m, policy, sheet, db, db.order), batchSize, ok, 0) {
      PureIsUpsert(env, db, sheet, m, policy, batchSize, ok);
    } else if TrimmedNumbers(db) && PushEnabled(DirectionOf(m, UserId))
              && KeyedUpsert(sheet, Push(env, db, sheet, m, policy, batchSize, ok).sheet,
                             Done(env, db, sheet, m, policy, batchSize, ok)) {
      MixedIsNoUpsert(env, db, sheet, m, policy, batchSize, ok);
    }
  }

  lemma PureIsUpsert(env: Env, db: Db, sheet: Sheet, m: Mappings, policy: DeletionPolicy, batchSize: nat,
                     ok: nat -> bool)
    requires CanPush(db, batchSize) && !policy.Delete?
    requires SucceededHomogeneous(Plan(env, m, policy, sheet, db, db.order), batchSize, ok, 0)
    ensures KeyedUpsert(sheet, Push(env, db, sheet, m, policy, batchSize, ok).sheet,
                        Done(env, db, sheet, m, policy, batchSize, ok))
  {
    hide Plan, PlanOp, SheetValue, ApplyOps, IndexRows;
    var ops := Plan(env, m, policy, sheet, db, db.order);
    PlanIs(env, m, policy, sheet, db, db.order);
    forall op | op in ops ensures !op.Remove? { PlannedOperations(env, m, policy, sheet, db, op); }
    FlushIsUpsert(env, sheet, ops, batchSize, ok, 0);
    DoneIs(env, db, sheet, m, policy, batchSize, ok);
    var done := Done(env, db, sheet, m, policy, batchSize, ok);
    UpsertRowByRow(sheet, done);
    forall op | op in done && op.Update? ensures op.row < |sheet| && RowNumber(sheet[op.row]) == op.meta.number {
      PlannedOperations(env, m, policy, sheet, db, op);
    }
  }

  lemma MixedIsNoUpsert(env: Env, db: Db, sheet: Sheet, m: Mappings, policy: DeletionPolicy, batchSize: nat,
                        ok: nat -> bool)
    requires CanPush(db, batchSize) && !policy.Delete? && TrimmedNumbers(db) && PushEnabled(DirectionOf(m, UserId))
    requires KeyedUpsert(sheet, Push(env, db, sheet, m, policy, batchSize, ok).sheet,
                         Done(env, db, sheet, m, policy, batchSize, ok))
    ensures SucceededHomogeneous(Plan(env, m, policy, sheet, db, db.order), batchSize, ok, 0)
  {
    hide Push, Plan, PlannedFor, SheetValue, TrimmedNumbers, SucceededHomogeneous, Survivors, RowsOnce;
    var ops := Plan(env, m, policy, sheet, db, db.order);
    var done, after := Done(env, db, sheet, m, policy, batchSize, ok),
        Push(env, db, sheet, m, policy, batchSize, ok).sheet;
    var adds := SentAsAdditions(env, db, sheet, m, policy, batchSize, ok);
    var updates := SentAsUpdates(env, db, sheet, m, policy, batchSize, ok);
    PushSends(env, db, sheet, m, policy, batchSize, ok);
    SentIs(env, db, sheet, m, policy, batchSize, ok);
    DoneIs(env, db, sheet, m, policy, batchSize, ok);
    AddsAre(done);
    forall op | op in adds ensures op.Add? {
      var k :| 0 <= k < |adds| && adds[k] == op;
      assert after[|sheet|..][k] in Adds(done);
      var other :| other in done && other.Add? && other.values == op.values;
      SameNumberSameOp(env, db, sheet, m, policy, done, op, other);
    }
    forall op | op in updates ensures op.Update? {
      if op.Add? {
        assert op.values in after[|sheet|..];
        var k :| 0 <= k < |adds| && after[|sheet|..][k] == op.values;
        assert after[|sheet|..][k] == after[|sheet| + k] && adds[k] in adds;
        SameNumberSameOp(env, db, sheet, m, policy, done, op, adds[k]);
      }
    }
    NoRemovalsPlanned(env, db, sheet, m, policy);
    HomogeneousIffSent(ops, batchSize, ok, 0);
  }

  lemma NoRemovalsPlanned(env: Env, db: Db, sheet: Sheet, m: Mappings, policy: DeletionPolicy)
    requires ValidDb(db) && !policy.Delete?
    ensures NoRemovals(Plan(env, m, policy, sheet, db, db.order))
  {
    hide Plan, PlannedFor, SheetValue;
    PlanIs(env, m, policy, sheet, db, db.order);
    forall op | op in Plan(env, m, policy, sheet, db, db.order) ensures !op.Remove? {
      PlannedOperations(env, m, policy, sheet, db, op);
    }
  }

  /** With the User ID column pushed, equal records are records of one user. */
  lemma SameNumberSameOp(env: Env, db: Db, sheet: Sheet, m: Mappings, policy: DeletionPolicy, ops: seq<Op>, a: Op,
                         b: Op)
    requires TrimmedNumbers(db) && PushEnabled(DirectionOf(m, UserId)) && OneOpEach(ops) && a in ops && b in ops
    requires PlannedFor(env, m, policy, sheet, db, a) && PlannedFor(env, m, policy, sheet, db, b)
    requires !a.Remove? && !b.Remove? && a.values == b.values
    ensures a == b
  {
    hide PlannedFor, SheetValue, TrimmedNumbers;
    RecordsCarryTheirNumber(env, db, sheet, m, policy, a);
    RecordsCarryTheirNumber(env, db, sheet, m, policy, b);
    var i :| 0 <= i < |ops| && ops[i] == a;
    var j :| 0 <= j < |ops| && ops[j] == b;
  }

  /** Rows of nobody in the database, and columns that are not pushed, are never touched, whichever slices fail. */
  lemma PushLeavesTheRest(env: Env, db: Db, sheet: Sheet, m: Mappings, policy: DeletionPolicy, batchSize: nat,
                          ok: nat -> bool, i: nat, c: Column)
    requires CanPush(db, batchSize) && !policy.Delete? && i < |sheet|
    ensures var after := Push(env, db, sheet, m, policy, batchSize, ok).sheet;
            && i < |after|
            && (RowNumber(sheet[i]) !in db.users ==> after[i] == sheet[i])
            && (c !in PushColumns(m) ==> CellOf(after[i], c) == CellOf(sheet[i], c))
  {
    hide Push, Plan, PlannedFor, SheetValue, Rendered, PushColumns;
    var updates := SentAsUpdates(env, db, sheet, m, policy, batchSize, ok);
    PushSends(env, db, sheet, m, policy, batchSize, ok);
    SentIs(env, db, sheet, m, policy, batchSize, ok);
    if Targets(updates, i) {
      var op :| op in updates && op.Update? && op.row == i;
      PlannedOperations(env, m, policy, sheet, db, op);
      PlannedNumber(env, m, policy, sheet, db, op);
    }
  }

  /** Metadata advances for exactly the users whose operation survived; no baseline changes; under every policy. */
  lemma PushMetadata(env: Env, db: Db, sheet: Sheet, m: Mappings, policy: DeletionPolicy, batchSize: nat,
                     ok: nat -> bool, number: string)
    requires CanPush(db, batchSize)
    ensures var after, done := Push(env, db, sheet, m, policy, batchSize, ok).db,
                Done(env, db, sheet, m, policy, batchSize, ok);
            && after == db.(meta := after.meta)
            && (forall op | op in done && op.meta.number == number ::
                  MetaOf(after.meta, number) == Some(PushedMeta(MetaOf(db.meta, number), op.meta)))
            && ((forall op | op in done :: op.meta.number != number) ==>
                MetaOf(after.meta, number) == MetaOf(db.meta, number))
  {
    hide Plan, PlannedFor, SheetValue, RowsExist, RowsOnce;
    FlushAccounts(env, sheet, Plan(env, m, policy, sheet, db, db.order), batchSize, ok, 0);
    DoneIs(env, db, sheet, m, policy, batchSize, ok);
    UpsertPushedLookup(db.meta, Done(env, db, sheet, m, policy, batchSize, ok), number);
  }

  lemma {:induction false} UpsertPushedLookup(meta: map<string, Meta>, ops: seq<Op>, number: string)
    requires OneOpEach(ops)
    ensures var after := UpsertPushed(meta, Metas(ops));
            && (forall op | op in ops && op.meta.number == number ::
                  MetaOf(after, number) == Some(PushedMeta(MetaOf(meta, number), op.meta)))
            && ((forall op | op in ops :: op.meta.number != number) ==> MetaOf(after, number) == MetaOf(meta, number))
  {
    hide PushedMeta;
    if ops != [] {
      var init, last := ops[..|ops| - 1], ops[|ops| - 1];
      assert last in ops;
      assert forall op :: op in ops <==> op in init || op == last;
      assert Metas(ops)[..|ops| - 1] == Metas(init);
      UpsertPushedLookup(meta, init, number);
      if last.meta.number == number {
        forall op | op in init ensures op.meta.number != number {
          var i :| 0 <= i < |init| && init[i] == op;
          assert ops[i].meta.number != ops[|init|].meta.number;
        }
      }
    }
  }

  /** Every planned operation is either sent or counted as failed; the row counters count the whole plan. */
  lemma PushAccounts(env: Env, db: Db, sheet: Sheet, m: Mappings, policy: DeletionPolicy, batchSize: nat,
                     ok: nat -> bool)
    requires CanPush(db, batchSize)
    ensures var ops, counts := Plan(env, m, policy, sheet, db, db.order),
        Push(env, db, sheet, m, policy, batchSize, ok).counts;
            && |Done(env, db, sheet, m, policy, batchSize, ok)| + counts.failedRecords == |ops|
            && counts.rowsAdded + counts.rowsUpdated + counts.rowsDeleted == |ops|
            && counts.rowsAdded == |Adds(ops)|
  {
    hide Plan;
    var ops := Plan(env, m, policy, sheet, db, db.order);
    FlushAccounts(env, sheet, ops, batchSize, ok, 0);
    CountsAre(ops, Flush(env, sheet, ops, batchSize, ok, 0).failed);
  }

  lemma {:induction false} CountsAre(ops: seq<Op>, failed: nat)
    ensures var c := CountOps(ops, failed);
            c.failedRecords == failed && c.rowsAdded == |Adds(ops)|
                && c.rowsAdded + c.rowsUpdated + c.rowsDeleted == |ops|
  {
    if ops != [] {
      CountsAre(ops[..|ops| - 1], failed);
    }
  }
}
