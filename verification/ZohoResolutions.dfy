/** What resolving a conflict does to the user, the baseline and the conflict, for each of the three resolutions. */
module ZohoResolutions {
  import opened Common
  import opened Text
  import opened ZohoRecords
  import opened ZohoPull
  import opened ZohoMerge
  import opened ZohoConflicts
  import opened ZohoPullEffects

  /** The conflict is there and nobody has resolved it. */
  predicate Open(db: Db, id: nat) {
    id < |db.conflicts| && db.conflicts[id].resolution.None?
  }

  /** Another user holds the phone. */
  ghost predicate PhoneOfAnother(users: map<string, User>, number: string, value: string) {
    exists other :: other in users && other != number && users[other].phone == Some(value)
  }

  /**
   * What every resolution that goes through leaves: the one conflict row closed under the given name, the one baseline
   * entry replaced and the user's sync status "synced", if the user has metadata; everything else as it was.
   */
  ghost predicate Closes(db: Db, after: Db, id: nat, name: string)
    requires id < |db.conflicts|
  {
    var k := db.conflicts[id].conflict;
    && after.order == db.order
    && after.conflicts == db.conflicts[id := ConflictRow(k, Some(name))]
    && after.meta.Keys == db.meta.Keys
    && (forall number | number in db.meta && number != k.number :: after.meta[number] == db.meta[number])
    && (k.number in db.meta ==>
          && after.meta[k.number].version == db.meta[k.number].version
          && after.meta[k.number].hash == db.meta[k.number].hash && after.meta[k.number].status == "synced"
          && k.field in after.meta[k.number].baseline && after.meta[k.number].baseline[k.field] == k.sheetValue
          && (forall c | c != k.field :: BaselineOf(after, k.number, c) == BaselineOf(db, k.number, c)))
  }

  /** Keeping the database, and skipping, touch no user, and succeed for every open conflict. */
  lemma KeepingTouchesNoUser(env: Env, db: Db, id: nat, resolution: Resolution)
    requires resolution != KeepSheet
    ensures var (after, outcome) := Resolve(env, db, id, resolution);
            && after.users == db.users
            && (outcome.Resolved? <==> Open(db, id)) && (!outcome.Resolved? ==> outcome.NotFound? && after == db)
            && (Open(db, id) ==> Closes(db, after, id, if resolution == KeepDb then "keep_db" else "skip"))
  {
  }

  /** An open conflict of a live user, a valid value, and no other user with the phone. */
  ghost predicate CanKeepSheet(env: Env, db: Db, id: nat) {
    Open(db, id) &&
    var k := db.conflicts[id].conflict;
    && k.number in db.users && !db.users[k.number].deleted && ValidCell(env, k.field, k.sheetValue)
    && !(k.field == Phone && PhoneOfAnother(db.users, k.number, k.sheetValue))
  }

  /** Keeping the sheet: exactly when it goes through, and which of its failures it ends with. */
  lemma KeepSheetSucceedsIff(env: Env, db: Db, id: nat)
    ensures var (after, outcome) := Resolve(env, db, id, KeepSheet);
            && (outcome == Resolved <==> CanKeepSheet(env, db, id))
            && (!Open(db, id) ==> outcome == NotFound)
            && (Open(db, id) ==>
                  var k := db.conflicts[id].conflict;
                  && (outcome == UserGone <==> k.number !in db.users || db.users[k.number].deleted)
                  && (outcome == NotApplicable <==>
                        !outcome.UserGone? && !ValidCell(env, k.field, k.sheetValue))
                  && (outcome == WriteThrew <==>
                        && !outcome.UserGone? && !outcome.NotApplicable?
                        && k.field == Phone && PhoneOfAnother(db.users, k.number, k.sheetValue))
                  && (outcome.Resolved? ==> Closes(db, after, id, "keep_sheet"))
                  && outcome != NotFound)
            && (!outcome.Resolved? ==> after == db)
  {
    if Open(db, id) {
      var k := db.conflicts[id].conflict;
      ValidIsAccepted(env, k.field, k.sheetValue);
      hide Accepts, ValidCell, Written;
    }
  }

  /** The field then holds the value of the conflict, in the form of its column; no other field or user changes. */
  lemma KeepSheetStores(env: Env, db: Db, id: nat)
    requires CanKeepSheet(env, db, id)
    ensures var after, k := Resolve(env, db, id, KeepSheet).0, db.conflicts[id].conflict;
            && after.users.Keys == db.users.Keys && k.number in db.users
            && (forall number | number in db.users && number != k.number :: after.users[number] == db.users[number])
            && var u, v, value := db.users[k.number], after.users[k.number], k.sheetValue;
               && v.state == (if k.field == Status then env.upper(value) else u.state)
               && v.roles == (if k.field == Role then u.roles + {value} else u.roles)
               && v.fullName == (if k.field == FullName then Some(value) else u.fullName)
               && v.phone == (if k.field == Phone then Some(value) else u.phone)
               && v.updatedAt == (if k.field == Status || k.field == Phone then env.now else u.updatedAt)
               && (v.profile.Some? <==>
                     u.profile.Some? || k.field == Department || k.field == Designation || k.field == Manager)
               && v == u.(state := v.state, roles := v.roles, fullName := v.fullName, phone := v.phone,
                          updatedAt := v.updatedAt, profile := v.profile)
  {
    KeepSheetSucceedsIff(env, db, id);
    hide Accepts;
  }

  /** The profile row, new with the default status if there was none. */
  lemma KeepSheetStoresProfile(env: Env, db: Db, id: nat)
    requires CanKeepSheet(env, db, id)
    ensures var after, k := Resolve(env, db, id, KeepSheet).0, db.conflicts[id].conflict;
            k.number in db.users && k.number in after.users &&
            var u, v, value := db.users[k.number], after.users[k.number], k.sheetValue;
            v.profile.Some? ==>
              var p, old_ := v.profile.value, u.profile.GetOr(Profile(None, None, None, None, "active", None));
              && p.department == (if k.field == Department then Some(value) else old_.department)
              && p.designation == (if k.field == Designation then Some(value) else old_.designation)
              && p.manager == (if k.field == Manager then env.managerEmail(value) else old_.manager)
              && p.employmentStatus == (if k.field == EmploymentType then env.lower(value) else old_.employmentStatus)
              && p.employeeId == old_.employeeId && p.hireDate == old_.hireDate
  {
    KeepSheetSucceedsIff(env, db, id);
    hide Accepts;
  }
}
