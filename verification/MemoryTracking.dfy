/** Memory reservation in unsigned 32-bit arithmetic, and when it stays true to plain arithmetic. */
module MemoryTracking {
  import opened Bytes

  /** Available, reserved and lent megabytes. */
  datatype Ledger = Ledger(available: u32, reserved: u32, borrowed: u32)

  /** Unsigned 32-bit addition and subtraction wrap around. */
  function Add32(a: u32, b: u32): u32 { if a + b < TWO_32 then a + b else a + b - TWO_32 }

  function Sub32(a: u32, b: u32): u32 { if b <= a then a - b else a - b + TWO_32 }

  /** The unused part, when the books are in order. */
  function Free(l: Ledger): int { l.available - l.reserved - l.borrowed }

  /** 0 if the reservation is in place, otherwise by how much it falls short. */
  function ReserveIn(l: Ledger, amount: u32): (Ledger, u32) {
    if Add32(Add32(l.reserved, l.borrowed), amount) <= l.available
    then (l.(reserved := Add32(l.reserved, amount)), 0)
    else (l, Sub32(amount, Sub32(Sub32(l.available, l.reserved), l.borrowed)))
  }

  function ReleaseIn(l: Ledger, amount: u32): Ledger { l.(reserved := Sub32(l.reserved, amount)) }

  function BorrowIn(l: Ledger, amount: u32): (Ledger, u32) {
    if Add32(Add32(l.reserved, l.borrowed), amount) <= l.available
    then (l.(borrowed := Add32(l.borrowed, amount)), amount)
    else (l, 0)
  }

  function RepayIn(l: Ledger, amount: u32): Ledger { l.(borrowed := Sub32(l.borrowed, amount)) }

  class Tracker {
    var available: u32
    var reserved: u32
    var borrowed: u32

    ghost function Books(): Ledger
      reads this
    {
      Ledger(available, reserved, borrowed)
    }

    constructor ()
      ensures Books() == Ledger(0, 0, 0)
    {
      available, reserved, borrowed := 0, 0, 0;
    }

    method Set(amount: u32)
      modifies this
      ensures Books() == Ledger(amount, 0, 0)
    {
      available, reserved, borrowed := amount, 0, 0;
    }

    method Reserve(amount: u32) returns (shortfall: u32)
      modifies this
      ensures (Books(), shortfall) == ReserveIn(old(Books()), amount)
    {
      if Add32(Add32(reserved, borrowed), amount) <= available {
        reserved := Add32(reserved, amount);
        return 0;
      }
      return Sub32(amount, Sub32(Sub32(available, reserved), borrowed));
    }

    method Release(amount: u32)
      modifies this
      ensures Books() == ReleaseIn(old(Books()), amount)
    {
      reserved := Sub32(reserved, amount);
    }

    method Borrow(amount: u32) returns (got: u32)
      modifies this
      ensures (Books(), got) == BorrowIn(old(Books()), amount)
    {
      if Add32(Add32(reserved, borrowed), amount) <= available {
        borrowed := Add32(borrowed, amount);
        return amount;
      }
      return 0;
    }

    method Repay(amount: u32)
      modifies this
      ensures Books() == RepayIn(old(Books()), amount)
    {
      borrowed := Sub32(borrowed, amount);
    }

    /** ProcessManager::reserveMemory with loans off: all of the assignment, or what there is of it. */
    method ReserveMemory(asked: u32) returns (reservation: u32)
      modifies this
      ensures (Books(), reservation) == ReserveUpTo(old(Books()), asked)
    {
      reservation := asked;
      var deficit := Reserve(reservation);
      if deficit > 0 {
        reservation := Sub32(reservation, deficit);
        var _ := Reserve(reservation);
      }
    }
  }

  function ReserveUpTo(l: Ledger, asked: u32): (Ledger, u32) {
    var (l1, deficit) := ReserveIn(l, asked);
    if deficit == 0 then (l1, asked)
    else
      var reservation := Sub32(asked, deficit);
      (ReserveIn(l1, reservation).0, reservation)
  }

  // ---------------------------------------------------------------- when 32 bits are enough

  predicate InOrder(l: Ledger) { l.reserved + l.borrowed <= l.available }

  /** What reserve should do: take the amount if it is free, otherwise say how much is missing. */
  function Wanted(l: Ledger, amount: u32): (Ledger, int)
    requires InOrder(l)
  {
    if amount <= Free(l) then (l.(reserved := l.reserved + amount), 0) else (l, amount - Free(l))
  }

  /** A reservation is kept exactly when the sum it checks does not overflow. */
  lemma ReserveIff(l: Ledger, amount: u32)
    requires InOrder(l)
    ensures ReserveIn(l, amount) == Wanted(l, amount) <==> l.reserved + l.borrowed + amount < TWO_32
  {
  }

  /** What asking for memory should come to: the smaller of what is asked for and what is free. */
  function Granted(l: Ledger, asked: u32): u32
    requires InOrder(l)
  {
    if asked <= Free(l) then asked else Free(l)
  }

  /** It does exactly when the sum tested first does not overflow; the second try never overflows. */
  lemma ReserveUpToIff(l: Ledger, asked: u32)
    requires InOrder(l)
    ensures var got := Granted(l, asked);
      && InOrder(l.(reserved := l.reserved + got))
      && (ReserveUpTo(l, asked) == (l.(reserved := l.reserved + got), got) <==> l.reserved + l.borrowed + asked < TWO_32)
  {
    ReserveIff(l, asked);
    if l.reserved + l.borrowed + asked >= TWO_32 {
      OverflowGrants(l, asked);
    } else if asked > Free(l) {
      ReserveIff(l, Free(l));
    }
  }

  /** Otherwise an oversized assignment is granted in full while the total reserved goes down. */
  lemma OverflowGrants(l: Ledger, asked: u32)
    requires InOrder(l) && l.reserved + l.borrowed + asked >= TWO_32
    ensures ReserveUpTo(l, asked).1 == asked > Free(l)
    ensures l.borrowed == 0 ==> ReserveUpTo(l, asked).0 == l.(reserved := l.reserved + asked - TWO_32)
  {
  }

  /** Repaying what was borrowed always restores the books. */
  lemma BorrowRepay(l: Ledger, amount: u32)
    ensures var (l1, got) := BorrowIn(l, amount); RepayIn(l1, got) == l
  {
  }

  /** The loan is all or nothing, and leaves the books in order, exactly when the sum tested does not overflow. */
  lemma BorrowIff(l: Ledger, amount: u32)
    requires InOrder(l)
    ensures var (l1, got) := BorrowIn(l, amount);
      InOrder(l1) && got == (if amount <= Free(l) then amount else 0) <==> l.reserved + l.borrowed + amount < TWO_32
  {
  }
}
