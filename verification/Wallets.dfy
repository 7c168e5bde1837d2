/** A guild's treasury (internal/domain/wallet.go). */
module Wallets {
  import opened Domain

  /** A wallet as the store keeps it. */
  datatype WalletRow = WalletRow(guild: Id, total: Gold, reserved: Gold, dailyCap: Gold) {

    function Available(): Gold {
      total - reserved
    }

    predicate WithinDailyCap(spentToday: Gold, amount: Gold) {
      dailyCap <= 0 || spentToday + amount <= dailyCap
    }

    /** The invariant every wallet must keep: available funds are never negative. */
    predicate Solvent() {
      0 <= reserved <= total
    }

    function Reserve(amount: Gold): Result<WalletRow> {
      if amount <= 0 then Err(NonPositiveAmount)
      else if amount > Available() then Err(InsufficientFunds)
      else Ok(this.(reserved := reserved + amount))
    }

    function Release(amount: Gold): Result<WalletRow> {
      if amount <= 0 then Err(NonPositiveAmount)
      else if amount > reserved then Err(ReserveTooLarge)
      else Ok(this.(reserved := reserved - amount))
    }

    function Settle(amount: Gold): Result<WalletRow> {
      if amount <= 0 then Err(NonPositiveAmount)
      else if amount > reserved then Err(ReserveTooLarge)
      else Ok(this.(reserved := reserved - amount, total := total - amount))
    }

    function Debit(amount: Gold): Result<WalletRow> {
      if amount <= 0 then Err(NonPositiveAmount)
      else if amount > Available() then Err(InsufficientFunds)
      else Ok(this.(total := total - amount))
    }

    function Credit(amount: Gold): Result<WalletRow> {
      if amount <= 0 then Err(NonPositiveAmount)
      else Ok(this.(total := total + amount))
    }
  }

  /** A reservation can always be given back, and giving it back restores the wallet;
      settling it is giving it back and paying, and on a solvent wallet that never fails. */
  lemma ReservationLifeCycle(w: WalletRow, amount: Gold)
    requires w.Solvent() && w.Reserve(amount).Ok?
    ensures
      var held := w.Reserve(amount).value;
      && held.Solvent()
      && held.Release(amount) == Ok(w)
      && held.Settle(amount) == w.Debit(amount)
      && held.Settle(amount).Ok?
      && held.Settle(amount).value.Solvent()
      && held.Settle(amount).value.Available() == held.Available()
  {
    var held := w.Reserve(amount).value;
    assert held.Release(amount).value == w;
    assert held.Settle(amount).value == w.Debit(amount).value;
  }

  /** A wallet in memory: the copy that a unit of work changes and writes back. */
  class Wallet {
    const guild: Id
    var total: Gold
    var reserved: Gold
    const dailyCap: Gold

    constructor (row: WalletRow)
      ensures Row() == row
    {
      guild, total, reserved, dailyCap := row.guild, row.total, row.reserved, row.dailyCap;
    }

    function Row(): WalletRow
      reads this
    {
      WalletRow(guild, total, reserved, dailyCap)
    }

    method Reserve(amount: Gold) returns (err: Option<Error>)
      modifies this
      ensures Becomes(old(Row()), old(Row().Reserve(amount)), Row(), err)
      ensures err ==
        if amount <= 0 then Some(NonPositiveAmount)
        else if amount > old(total) - old(reserved) then Some(InsufficientFunds)
        else None
      ensures err.None? ==> total == old(total) && reserved == old(reserved) + amount
      ensures err.Some? ==> total == old(total) && reserved == old(reserved)
    {
      if amount <= 0 {
        return Some(NonPositiveAmount);
      }
      if amount > total - reserved {
        return Some(InsufficientFunds);
      }
      reserved := reserved + amount;
      return None;
    }

    method Release(amount: Gold) returns (err: Option<Error>)
      modifies this
      ensures Becomes(old(Row()), old(Row().Release(amount)), Row(), err)
      ensures err ==
        if amount <= 0 then Some(NonPositiveAmount) else if amount > old(reserved) then Some(ReserveTooLarge) else None
      ensures err.None? ==> total == old(total) && reserved == old(reserved) - amount
      ensures err.Some? ==> total == old(total) && reserved == old(reserved)
    {
      if amount <= 0 {
        return Some(NonPositiveAmount);
      }
      if amount > reserved {
        return Some(ReserveTooLarge);
      }
      reserved := reserved - amount;
      return None;
    }

    method Settle(amount: Gold) returns (err: Option<Error>)
      modifies this
      ensures Becomes(old(Row()), old(Row().Settle(amount)), Row(), err)
      ensures err ==
        if amount <= 0 then Some(NonPositiveAmount) else if amount > old(reserved) then Some(ReserveTooLarge) else None
      ensures err.None? ==> total == old(total) - amount && reserved == old(reserved) - amount
      ensures err.Some? ==> total == old(total) && reserved == old(reserved)
    {
      if amount <= 0 {
        return Some(NonPositiveAmount);
      }
      if amount > reserved {
        return Some(ReserveTooLarge);
      }
      reserved := reserved - amount;
      total := total - amount;
      return None;
    }

    method Debit(amount: Gold) returns (err: Option<Error>)
      modifies this
      ensures Becomes(old(Row()), old(Row().Debit(amount)), Row(), err)
      ensures err ==
        if amount <= 0 then Some(NonPositiveAmount)
        else if amount > old(total) - old(reserved) then Some(InsufficientFunds)
        else None
      ensures err.None? ==> total == old(total) - amount && reserved == old(reserved)
      ensures err.Some? ==> total == old(total) && reserved == old(reserved)
    {
      if amount <= 0 {
        return Some(NonPositiveAmount);
      }
      if amount > total - reserved {
        return Some(InsufficientFunds);
      }
      total := total - amount;
      return None;
    }

    method Credit(amount: Gold) returns (err: Option<Error>)
      modifies this
      ensures Becomes(old(Row()), old(Row().Credit(amount)), Row(), err)
      ensures err == if amount <= 0 then Some(NonPositiveAmount) else None
      ensures err.None? ==> total == old(total) + amount && reserved == old(reserved)
      ensures err.Some? ==> total == old(total) && reserved == old(reserved)
    {
      if amount <= 0 {
        return Some(NonPositiveAmount);
      }
      total := total + amount;
      return None;
    }
  }
}
