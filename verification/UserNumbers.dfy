/** Printed user numbers and the sequence read back from them, and the table in which they must be unique. */
module UserNumbers {
  import opened Common
  import opened Text

  datatype UserType = Customer | Seller | Employee | Admin | ServiceAccount

  function Prefix(kind: UserType): string {
    match kind
    case Customer => "DJY-CUS"
    case Seller => "DJY-SLR"
    case Employee => "DJY-EMP"
    case Admin => "DJY-ADM"
    case ServiceAccount => "DJY-SVC"
  }

  const DEMO_PREFIX := "DJY-DEMO"

  function Number(prefix: string, n: nat): string {
    prefix + "-" + PadStart(Decimal(n), 6)
  }

  // ---- Printing and parsing ------------------------------------------------------------------

  /** The match of `([0-9]+)$`: the longest run of digits at the end. */
  function TrailingDigits(s: string): (d: string)
    ensures AllDigits(d) && |d| <= |s| && s == s[..|s| - |d|] + d
  {
    if s != [] && IsDigit(s[|s| - 1]) then
      var d := TrailingDigits(s[..|s| - 1]);
      assert s[..|s| - 1] == s[..|s| - 1 - |d|] + d;
      d + [s[|s| - 1]]
    else []
  }

  lemma {:induction false} TrailingDigitsAre(s: string, d: string)
    requires AllDigits(d) && (s == [] || !IsDigit(s[|s| - 1]))
    ensures TrailingDigits(s + d) == d
  {
    if d == [] {
      assert s + d == s;
    } else {
      assert (s + d)[..|s + d| - 1] == s + d[..|d| - 1];
      TrailingDigitsAre(s, d[..|d| - 1]);
    }
  }

  /** Reading back a printed number gives its sequence and its prefix, beyond six digits as well. */
  lemma NumberReadsBack(prefix: string, n: nat)
    ensures var number := Number(prefix, n);
            var d := TrailingDigits(number);
            && d != [] && Parse(d) == n && |number| == |prefix| + 1 + |d| && number[..|prefix| + 1] == prefix + "-"
  {
    hide Decimal, Parse, TrailingDigits;
    DecimalParses(n);
    var d := PadStart(Decimal(n), 6);
    assert AllDigits(d) && Parse(d) == n by {
      if |Decimal(n)| < 6 {
        ZerosParse(6 - |Decimal(n)|, Decimal(n));
      }
    }
    TrailingDigitsAre(prefix + "-", d);
  }

  /** Different sequences or prefixes print different numbers. */
  lemma NumbersDiffer(p: string, m: nat, q: string, n: nat)
    ensures Number(p, m) == Number(q, n) ==> p == q && m == n
  {
    NumberReadsBack(p, m);
    NumberReadsBack(q, n);
    if Number(p, m) == Number(q, n) {
      assert p == (p + "-")[..|p|] == (q + "-")[..|q|] == q;
    }
  }

  // ---- The table -------------------------------------------------------------------------------

  datatype Row = Row(number: string, kind: UserType, deleted: bool, phone: Option<string>)

  const INT4_MAX: nat := 0x7FFF_FFFF

  /** MAX of the trailing sequences of one type, 0 when there is none. Soft-deleted users count. */
  function MaxSequence(rows: seq<Row>, kind: UserType): nat {
    if rows == [] then 0
    else
      var rest, last := MaxSequence(rows[..|rows| - 1], kind), rows[|rows| - 1];
      if last.kind == kind then Max(rest, Parse(TrailingDigits(last.number))) else rest
  }

  /** None when the sequence, or the next one, does not fit a four-byte integer and the statement fails. */
  function NextUserNumber(rows: seq<Row>, kind: UserType): Option<string> {
    var max := MaxSequence(rows, kind);
    if max >= INT4_MAX then None else Some(Number(Prefix(kind), max + 1))
  }

  predicate HasNumber(rows: seq<Row>, number: string) {
    exists i :: 0 <= i < |rows| && rows[i].number == number
  }

  predicate PhoneHeld(rows: seq<Row>, number: string, phone: string) {
    exists i :: 0 <= i < |rows| && rows[i].number != number && rows[i].phone == Some(phone)
  }

  datatype Creation = Created(number: string) | OutOfNumbers | DuplicateNumber | DuplicatePhone

  function CreateUser(rows: seq<Row>, kind: UserType, phone: Option<string>): (seq<Row>, Creation) {
    match NextUserNumber(rows, kind)
    case None => (rows, OutOfNumbers)
    case Some(number) =>
      if HasNumber(rows, number) then (rows, DuplicateNumber)
      else if phone.Some? && PhoneHeld(rows, number, phone.value) then (rows, DuplicatePhone)
      else (rows + [Row(number, kind, false, phone)], Created(number))
  }

  function SoftDelete(rows: seq<Row>, number: string): (r: seq<Row>)
    ensures |r| == |rows|
  {
    seq(|rows|, i requires 0 <= i < |rows| => if rows[i].number == number then rows[i].(deleted := true) else rows[i])
  }

  /** A phone number written by any other operation; refused when another user holds it. */
  function SetPhone(rows: seq<Row>, number: string, phone: string): (r: seq<Row>)
    ensures |r| == |rows|
  {
    if PhoneHeld(rows, number, phone) then rows else WithPhone(rows, number, phone)
  }

  function WithPhone(rows: seq<Row>, number: string, phone: string): (r: seq<Row>)
    ensures |r| == |rows|
  {
    seq(|rows|, i requires 0 <= i < |rows| =>
      if rows[i].number == number then rows[i].(phone := Some(phone)) else rows[i])
  }

  /** A number was printed for its type, or is a demo number of an employee. */
  ghost predicate Numbered(row: Row) {
    || (exists n: nat :: row.number == Number(Prefix(row.kind), n))
    || (row.kind.Employee? && exists n: nat :: row.number == Number(DEMO_PREFIX, n))
  }

  ghost predicate UniqueNumbers(rows: seq<Row>) {
    forall i, j :: 0 <= i < j < |rows| ==> rows[i].number != rows[j].number
  }

  ghost predicate UniquePhones(rows: seq<Row>) {
    forall i, j :: 0 <= i < j < |rows| && rows[i].phone.Some? ==> rows[i].phone != rows[j].phone
  }

  ghost predicate TableOk(rows: seq<Row>) {
    && UniqueNumbers(rows) && UniquePhones(rows) && forall i :: 0 <= i < |rows| ==> Numbered(rows[i])
  }

  lemma {:induction false} MaxIsUpperBound(rows: seq<Row>, kind: UserType, i: nat)
    requires i < |rows| && rows[i].kind == kind
    ensures Parse(TrailingDigits(rows[i].number)) <= MaxSequence(rows, kind)
  {
    if i < |rows| - 1 {
      MaxIsUpperBound(rows[..|rows| - 1], kind, i);
    }
  }

  lemma PrefixesDiffer(a: UserType, b: UserType)
    ensures Prefix(a) != DEMO_PREFIX && (Prefix(a) == Prefix(b) ==> a == b)
  {
    assert |Prefix(a)| == 7 && |DEMO_PREFIX| == 8;
    assert Prefix(a)[4] == Prefix(b)[4] && Prefix(a)[5] == Prefix(b)[5] ==> a == b;
  }

  /** The next number is not in the table, whatever was created, soft-deleted or generated before. */
  lemma NextNumberIsFresh(rows: seq<Row>, kind: UserType)
    requires TableOk(rows)
    ensures NextUserNumber(rows, kind).Some? ==> !HasNumber(rows, NextUserNumber(rows, kind).value)
  {
    hide Number, MaxSequence, Prefix, Numbered;
    if NextUserNumber(rows, kind).Some? {
      var next := MaxSequence(rows, kind) + 1;
      forall i | 0 <= i < |rows|
        ensures rows[i].number != Number(Prefix(kind), next)
      {
        NumbersOfRowsDiffer(rows, kind, i);
      }
    }
  }

  lemma NumbersOfRowsDiffer(rows: seq<Row>, kind: UserType, i: nat)
    requires i < |rows| && Numbered(rows[i])
    ensures rows[i].number != Number(Prefix(kind), MaxSequence(rows, kind) + 1)
  {
    hide Number, MaxSequence, TrailingDigits, Parse, Prefix;
    var next := MaxSequence(rows, kind) + 1;
    NumberReadsBack(Prefix(kind), next);
    PrefixesDiffer(kind, rows[i].kind);
    if rows[i].kind == kind {
      MaxIsUpperBound(rows, kind, i);
    } else if n: nat :| rows[i].number == Number(Prefix(rows[i].kind), n) {
      NumbersDiffer(Prefix(rows[i].kind), n, Prefix(kind), next);
    } else {
      var n: nat :| rows[i].number == Number(DEMO_PREFIX, n);
      NumbersDiffer(DEMO_PREFIX, n, Prefix(kind), next);
    }
  }

  /** A creation fails for its number exactly when the sequence of its type has run out, and never as a duplicate. */
  lemma CreateUserKeepsTable(rows: seq<Row>, kind: UserType, phone: Option<string>)
    requires TableOk(rows)
    ensures var (after, outcome) := CreateUser(rows, kind, phone);
            && TableOk(after) && !outcome.DuplicateNumber?
            && (outcome.OutOfNumbers? <==> MaxSequence(rows, kind) >= INT4_MAX)
            && (outcome.Created? ==> !HasNumber(rows, outcome.number) && HasNumber(after, outcome.number))
  {
    NextNumberIsFresh(rows, kind);
    var (after, outcome) := CreateUser(rows, kind, phone);
    if outcome.Created? {
      assert after[|rows|].number == outcome.number;
      assert Numbered(after[|rows|]);
    }
    hide MaxSequence, Number, Numbered;
  }

  lemma SoftDeleteKeepsTable(rows: seq<Row>, number: string)
    requires TableOk(rows)
    ensures TableOk(SoftDelete(rows, number))
  {
    var after := SoftDelete(rows, number);
    forall i | 0 <= i < |after|
      ensures Numbered(after[i])
    {
      assert Numbered(rows[i]);
    }
    hide Numbered;
  }

  lemma WithPhoneKeepsTable(rows: seq<Row>, number: string, phone: string)
    requires TableOk(rows) && !PhoneHeld(rows, number, phone)
    ensures TableOk(WithPhone(rows, number, phone))
  {
    var after := WithPhone(rows, number, phone);
    forall i | 0 <= i < |after|
      ensures Numbered(after[i])
    {
      assert Numbered(rows[i]);
    }
    hide Numbered;
  }
}
