/** The append-only point ledger: reading a balance and appending the entries of a
    booking, each guarded by the sign of its amount. */
module PointLedger {
  import opened Prelude
  import opened BookingModel

  datatype LedgerError = InvalidRequirement | Insufficient(balance: int, required: int) | InvalidDeduction | InvalidRefund

  class Ledger {
    var entries: seq<Entry>

    constructor ()
      ensures entries == []
    {
      entries := [];
    }

    method GetBalance(user: Id, root: Id) returns (balance: int)
      ensures balance == Balance(entries, user, root)
    {
      balance := 0;
      var i := 0;
      while i < |entries|
        invariant 0 <= i <= |entries|
        invariant balance == Balance(entries[..i], user, root)
      {
        assert entries[..i + 1][..i] == entries[..i];
        if entries[i].user == user && entries[i].root == root {
          balance := balance + entries[i].amount;
        }
        i := i + 1;
      }
      assert entries[..i] == entries;
    }

    method AssertSufficientBalance(user: Id, root: Id, required: int) returns (r: Result<int, LedgerError>)
      ensures r.Ok? <==> 0 <= required <= Balance(entries, user, root)
      ensures r.Ok? ==> r.value == Balance(entries, user, root)
      ensures r.Err? ==> r.error == if required < 0 then InvalidRequirement
                                    else Insufficient(Balance(entries, user, root), required)
    {
      if required < 0 {
        return Err(InvalidRequirement);
      }
      var balance := GetBalance(user, root);
      if balance < required {
        return Err(Insufficient(balance, required));
      }
      return Ok(balance);
    }

    method FindDeductedPoints(booking: Id, user: Id) returns (points: int)
      ensures points == DeductedPoints(entries, booking, user)
    {
      var i := 0;
      while i < |entries|
        invariant 0 <= i <= |entries|
        invariant FindDeduction(entries[i..], booking, user) == FindDeduction(entries, booking, user)
      {
        var e := entries[i];
        if e.booking == Some(booking) && e.user == user && e.kind == BOOKING {
          return Abs(e.amount);
        }
        assert entries[i..][1..] == entries[i + 1..];
        i := i + 1;
      }
      return 0;
    }

    method AppendBookingDeduction(user: Id, root: Id, booking: Id, amount: int) returns (r: Result<(), LedgerError>)
      modifies this
      ensures r == if amount < 0 then Ok(()) else Err(InvalidDeduction)
      ensures entries == old(entries) + if r.Ok? then [Entry(user, root, Some(booking), amount, BOOKING)] else []
    {
      if amount >= 0 {
        return Err(InvalidDeduction);
      }
      entries := entries + [Entry(user, root, Some(booking), amount, BOOKING)];
      return Ok(());
    }

    method AppendBookingRefund(user: Id, root: Id, booking: Id, amount: int) returns (r: Result<(), LedgerError>)
      modifies this
      ensures r == if amount > 0 then Ok(()) else Err(InvalidRefund)
      ensures entries == old(entries) + if r.Ok? then [Entry(user, root, Some(booking), amount, BOOKING_REFUND)] else []
    {
      if amount <= 0 {
        return Err(InvalidRefund);
      }
      entries := entries + [Entry(user, root, Some(booking), amount, BOOKING_REFUND)];
      return Ok(());
    }
  }
}
