/** Which number a new user gets, how it is printed, and what creating and deleting users does to the table. */
module UserCreations {
  import opened Arithmetic
  import opened Common
  import opened Text
  import opened UserNumbers

  // ---- Printing -----------------------------------------------------------------------------------

  /** A number is the prefix of its type, a dash, and the sequence with at least six digits. */
  lemma PrintedNumber(kind: UserType, n: nat)
    ensures var prefix := match kind
                          case Customer => "DJY-CUS"
                          case Seller => "DJY-SLR"
                          case Employee => "DJY-EMP"
                          case Admin => "DJY-ADM"
                          case ServiceAccount => "DJY-SVC";
            var number := Number(Prefix(kind), n);
            && |number| >= 14 && number[..8] == prefix + "-" && AllDigits(number[8..]) && Parse(number[8..]) == n
            && (n < 1_000_000 ==> |number| == 14)
            && (n >= 1_000_000 ==> number[8..] == Decimal(n))
  {
    hide Parse, Decimal;
    var digits := PadStart(Decimal(n), 6);
    DecimalParses(n);
    if |Decimal(n)| < 6 {
      ZerosParse(6 - |Decimal(n)|, Decimal(n));
    }
    MillionHasSevenDigits(n);
    assert |Prefix(kind)| == 7;
    assert Number(Prefix(kind), n)[8..] == digits;
  }

  lemma MillionHasSevenDigits(n: nat)
    ensures n < 1_000_000 ==> |Decimal(n)| <= 6
    ensures n >= 1_000_000 ==> |Decimal(n)| >= 7
  {
    assert Pow10(3) == 1000;
    assert Pow10(6) == 1_000_000;
    if n < 1_000_000 {
      DecimalFits(n, 6);
    } else {
      DecimalIsLong(n, 6);
    }
  }

  lemma {:induction false} DecimalIsLong(n: nat, k: nat)
    requires n >= Pow10(k)
    ensures |Decimal(n)| > k
  {
    if k > 0 {
      assert n >= 10;
      assert n / 10 >= Pow10(k - 1);
      DecimalIsLong(n / 10, k - 1);
    }
  }

  // ---- The next number --------------------------------------------------------------------------------

  /** A user of the type, deleted or not, has a number that ends in the sequence. */
  ghost predicate HasSequence(rows: seq<Row>, kind: UserType, n: nat) {
    exists i :: 0 <= i < |rows| && rows[i].kind == kind && Parse(TrailingDigits(rows[i].number)) == n
  }

  lemma {:induction false} MaxIsAttained(rows: seq<Row>, kind: UserType)
    ensures MaxSequence(rows, kind) == 0 || HasSequence(rows, kind, MaxSequence(rows, kind))
  {
    hide Parse, TrailingDigits;
    if rows != [] {
      var init, last := rows[..|rows| - 1], rows[|rows| - 1];
      MaxIsAttained(init, kind);
      assert rows[|init|] == last;
      if HasSequence(init, kind, MaxSequence(init, kind)) {
        var i :| 0 <= i < |init| && init[i].kind == kind
                 && Parse(TrailingDigits(init[i].number)) == MaxSequence(init, kind);
        assert rows[i] == init[i];
      }
    }
  }

  /** One more than the largest sequence of the type, or 1. */
  ghost predicate IsNext(rows: seq<Row>, kind: UserType, n: nat) {
    && n >= 1 && (n > 1 ==> HasSequence(rows, kind, n - 1))
    && forall k: nat :: HasSequence(rows, kind, k) ==> k < n
  }

  lemma NextIsNext(rows: seq<Row>, kind: UserType)
    ensures IsNext(rows, kind, MaxSequence(rows, kind) + 1)
  {
    hide MaxSequence, Parse, TrailingDigits;
    MaxIsAttained(rows, kind);
    forall k: nat | HasSequence(rows, kind, k)
      ensures k <= MaxSequence(rows, kind)
    {
      var i :| 0 <= i < |rows| && rows[i].kind == kind && Parse(TrailingDigits(rows[i].number)) == k;
      MaxIsUpperBound(rows, kind, i);
    }
  }

  /**
   * Creating a user: out of numbers exactly when the next sequence of the type does not fit four bytes; otherwise
   * refused exactly for a phone that somebody holds; otherwise the table gains one row, not deleted, with the next
   * sequence.
   */
  lemma CreationIs(rows: seq<Row>, kind: UserType, phone: Option<string>) returns (n: nat)
    requires TableOk(rows)
    ensures IsNext(rows, kind, n)
    ensures var (after, outcome) := CreateUser(rows, kind, phone);
            var held := phone.Some? && exists i :: 0 <= i < |rows| && rows[i].phone == phone;
            && (outcome.OutOfNumbers? <==> n > 2_147_483_647)
            && (outcome.DuplicatePhone? <==> n <= 2_147_483_647 && held)
            && !outcome.DuplicateNumber?
            && (!outcome.Created? ==> after == rows)
            && (outcome.Created? ==>
                  && outcome.number == Number(Prefix(kind), n)
                  && after == rows + [Row(outcome.number, kind, false, phone)])
  {
    n := MaxSequence(rows, kind) + 1;
    NextIsNext(rows, kind);
    NextNumberIsFresh(rows, kind);
    if n <= INT4_MAX && phone.Some? {
      HeldByAnybody(rows, Number(Prefix(kind), n), phone.value);
    }
    hide MaxSequence, Number, Prefix, Numbered, HasSequence, IsNext, TableOk, HasNumber, PhoneHeld;
  }

  lemma HeldByAnybody(rows: seq<Row>, number: string, phone: string)
    requires !HasNumber(rows, number)
    ensures PhoneHeld(rows, number, phone) <==> exists i :: 0 <= i < |rows| && rows[i].phone == Some(phone)
  {
  }

  /** Soft-deleting marks the user of that number and keeps every number and phone; the next number stays the same. */
  lemma SoftDeleteIs(rows: seq<Row>, number: string, kind: UserType)
    ensures var after := SoftDelete(rows, number);
            && |after| == |rows|
            && (forall i :: 0 <= i < |rows| ==>
                  after[i] == rows[i].(deleted := rows[i].deleted || rows[i].number == number))
            && NextUserNumber(after, kind) == NextUserNumber(rows, kind)
  {
    SameMax(rows, SoftDelete(rows, number), kind);
    hide MaxSequence, Number;
  }

  lemma {:induction false} SameMax(a: seq<Row>, b: seq<Row>, kind: UserType)
    requires |a| == |b|
    requires forall i :: 0 <= i < |a| ==> a[i].number == b[i].number && a[i].kind == b[i].kind
    ensures MaxSequence(a, kind) == MaxSequence(b, kind)
  {
    hide Parse, TrailingDigits;
    if a != [] {
      SameMax(a[..|a| - 1], b[..|b| - 1], kind);
    }
  }
}
