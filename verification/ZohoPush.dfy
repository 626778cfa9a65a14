/** DB -> sheet: the operations a push plans, and what flushing them in slices does to the sheet and the metadata. */
module ZohoPush {
  import opened Common
  import opened Text
  import opened ZohoRecords
  import opened ZohoPull

  datatype DeletionPolicy = Mark | Keep | Delete

  /** What a successful operation records about its user. */
  datatype PushMeta = PushMeta(number: string, version: nat, hash: string, status: string)

  datatype Op =
    | Add(values: Cells, meta: PushMeta)
    | Update(row: nat, values: Cells, meta: PushMeta)
    | Remove(row: nat, meta: PushMeta)

  // ---- Planning -----------------------------------------------------------------

  /** User ID -> row index; a repeated ID keeps its last row. */
  function IndexRows(sheet: Sheet): (index: map<string, nat>)
    ensures forall number :: number in index ==>
              number != "" && index[number] < |sheet| && RowNumber(sheet[index[number]]) == number
    ensures forall i :: 0 <= i < |sheet| && RowNumber(sheet[i]) != "" ==> RowNumber(sheet[i]) in index
  {
    if sheet == [] then map[]
    else
      var index := IndexRows(sheet[..|sheet| - 1]);
      var number := RowNumber(sheet[|sheet| - 1]);
      if number == "" then index else index[number := |sheet| - 1]
  }

  /** The hash of the pushed columns as the sheet holds them. */
  function SheetHash(env: Env, row: Cells, m: Mappings): string {
    env.hash(map c | c in PushColumns(m) :: CellOf(row, c))
  }

  function PlanOp(env: Env, m: Mappings, policy: DeletionPolicy, sheet: Sheet, index: map<string, nat>,
                  number: string, u: User, version: nat): Option<Op>
    requires number in index ==> index[number] < |sheet|
  {
    if number in index then
      var row, oldHash := index[number], SheetHash(env, sheet[index[number]], m);
      if u.deleted && policy.Delete? then Some(Remove(row, PushMeta(number, version + 1, "", "removed")))
      else if u.deleted && policy.Keep? then
        Some(Update(row, ToRecord(env, number, u, m, Decimal(version), true),
                    PushMeta(number, version, oldHash, "removed")))
      else
        var record := ToRecord(env, number, u, m, Decimal(version + 1), u.deleted);
        var newHash := env.hash(record);
        if newHash != oldHash then Some(Update(row, record, PushMeta(number, version + 1, newHash, "synced")))
        else Some(Update(row, record, PushMeta(number, version, oldHash, "synced")))
    else if u.deleted then None
    else
      var record := ToRecord(env, number, u, m, Decimal(1), false);
      Some(Add(record, PushMeta(number, 1, env.hash(record), "synced")))
  }

  function VersionOf(meta: map<string, Meta>, number: string): nat {
    if number in meta then meta[number].version else 0
  }

  /** The operations for the users in `order`, in that order. */
  function Plan(env: Env, m: Mappings, policy: DeletionPolicy, sheet: Sheet, db: Db, order: seq<string>): seq<Op>
    requires forall number :: number in order ==> number in db.users
  {
    if order == [] then []
    else
      var number := order[|order| - 1];
      var ops := Plan(env, m, policy, sheet, db, order[..|order| - 1]);
      assert number in order;
      match PlanOp(env, m, policy, sheet, IndexRows(sheet), number, db.users[number], VersionOf(db.meta, number))
      case None => ops
      case Some(op) => ops + [op]
  }

  // ---- Flushing -------------------------------------------------------------------

  /** The record sent for an operation; a removal has none. */
  function ValuesOf(op: Op): Cells {
    if op.Remove? then map[] else op.values
  }

  function AllValues(batch: seq<Op>): seq<Cells> {
    seq(|batch|, (i: nat) requires i < |batch| => ValuesOf(batch[i]))
  }

  function AllRows(batch: seq<Op>): seq<nat> {
    seq(|batch|, (i: nat) requires i < |batch| => if batch[i].Add? then 0 else batch[i].row)
  }

  function Metas(batch: seq<Op>): (metas: seq<PushMeta>)
    ensures |metas| == |batch|
  {
    seq(|batch|, (i: nat) requires i < |batch| => batch[i].meta)
  }

  /** The update call: cells are replaced row by row; an entry without a row index changes nothing. */
  function WriteRows(sheet: Sheet, batch: seq<Op>): (r: Sheet)
    ensures |r| == |sheet|
  {
    if batch == [] then sheet
    else
      var r := WriteRows(sheet, batch[..|batch| - 1]);
      var op := batch[|batch| - 1];
      if op.Update? && op.row < |r| then r[op.row := r[op.row] + op.values] else r
  }

  /** One API call for a whole slice, of the type of its first operation. */
  function ApplySlice(env: Env, sheet: Sheet, batch: seq<Op>): Sheet
    requires batch != []
  {
    if batch[0].Add? then sheet + AllValues(batch)
    else if batch[0].Update? then WriteRows(sheet, batch)
    else env.deleteRows(sheet, AllRows(batch))
  }

  datatype Flushed = Flushed(sheet: Sheet, sent: seq<PushMeta>, failed: nat)

  /** Slices of `batchSize`, the k-th of which succeeds when `ok(k)`; a failed slice changes nothing. */
  function Flush(env: Env, sheet: Sheet, ops: seq<Op>, batchSize: nat, ok: nat -> bool, k: nat): Flushed
    requires batchSize > 0
    decreases |ops|
  {
    if ops == [] then Flushed(sheet, [], 0)
    else
      var n := Min(batchSize, |ops|);
      var batch, rest := ops[..n], ops[n..];
      if ok(k) then
        var r := Flush(env, ApplySlice(env, sheet, batch), rest, batchSize, ok, k + 1);
        r.(sent := Metas(batch) + r.sent)
      else
        var r := Flush(env, sheet, rest, batchSize, ok, k + 1);
        r.(failed := n + r.failed)
  }

  // ---- Metadata ---------------------------------------------------------------------

  function PushedMeta(old_: Option<Meta>, pushed: PushMeta): Meta {
    Meta(pushed.version, StoredBaseline(old_), pushed.status, Some(pushed.hash))
  }

  /** ON CONFLICT DO UPDATE of version, status and hash; the baseline is left alone. */
  function UpsertPushed(meta: map<string, Meta>, sent: seq<PushMeta>): map<string, Meta> {
    if sent == [] then meta
    else
      var last := sent[|sent| - 1];
      var before := UpsertPushed(meta, sent[..|sent| - 1]);
      before[last.number := PushedMeta(MetaOf(before, last.number), last)]
  }

  // ---- The whole push -----------------------------------------------------------------

  datatype PushCounts = PushCounts(rowsAdded: nat, rowsUpdated: nat, rowsDeleted: nat, failedRecords: nat)

  function CountOps(ops: seq<Op>, failed: nat): PushCounts {
    if ops == [] then PushCounts(0, 0, 0, failed)
    else
      var c := CountOps(ops[..|ops| - 1], failed);
      match ops[|ops| - 1]
      case Add(_, _) => c.(rowsAdded := c.rowsAdded + 1)
      case Update(_, _, _) => c.(rowsUpdated := c.rowsUpdated + 1)
      case Remove(_, _) => c.(rowsDeleted := c.rowsDeleted + 1)
  }

  datatype Pushed = Pushed(db: Db, sheet: Sheet, counts: PushCounts)

  function Push(env: Env, db: Db, sheet: Sheet, m: Mappings, policy: DeletionPolicy, batchSize: nat,
                ok: nat -> bool): Pushed
    requires batchSize > 0 && forall number :: number in db.order ==> number in db.users
  {
    var ops := Plan(env, m, policy, sheet, db, db.order);
    var flushed := Flush(env, sheet, ops, batchSize, ok, 0);
    Pushed(db.(meta := UpsertPushed(db.meta, flushed.sent)), flushed.sheet, CountOps(ops, flushed.failed))
  }
}
