/**
  The ledger the engine runs: the steps of `LedgerSpec` on u64 fields. A method's preconditions
  say exactly that none of its unchecked additions and subtractions over- or underflows.
 */
module Ledgers {
  import opened Domain
  import opened Matching
  import opened LedgerSpec

  class Ledger {
    var balances: Balances
    var dirty: set<Key>

    ghost function State(): Funds
      reads this
    {
      Funds(balances, dirty)
    }

    ghost predicate Valid()
      reads this
    {
      AllFit(balances) && dirty <= balances.Keys
    }

    constructor ()
      ensures Valid() && State() == Funds(map[], {})
    {
      balances, dirty := map[], {};
    }

    method EnsureRow(k: Key)
      requires Valid()
      modifies this
      ensures Valid() && State() == Touch(old(State()), k) && k in balances
    {
      if k !in balances {
        balances := balances[k := Zero()];
      }
    }

    /** Two u64 additions or subtractions on one row; either may panic, hence the precondition. */
    method Adjust(k: Key, available: int, reserved: int)
      requires Valid() && FitsAfter(Get(balances, k), available, reserved)
      modifies this
      ensures Valid() && State() == Move(old(State()), k, available, reserved)
    {
      var b := Get(balances, k);
      balances := balances[k := Balance(b.available + available, b.reserved + reserved)];
      dirty := dirty + {k};
    }

    method Deposit(k: Key, amount: u64) returns (available: u64)
      requires Valid() && Get(balances, k).available + amount <= U64_MAX
      modifies this
      ensures Valid() && State() == LedgerSpec.Deposit(old(State()), k, amount)
      ensures available == Get(balances, k).available
    {
      Adjust(k, amount, 0);
      available := balances[k].available;
    }

    method Withdraw(k: Key, amount: u64) returns (r: Result<()>)
      requires Valid()
      modifies this
      ensures Valid()
      ensures var after := LedgerSpec.Withdraw(old(State()), k, amount); State() == after.0 && r == after.1
    {
      EnsureRow(k);
      if balances[k].available < amount {
        return Err(InsufficientFunds);
      }
      TouchThenMove(old(State()), k, 0 - amount, 0);
      Adjust(k, 0 - amount, 0);
      r := Ok(());
    }

    method Reserve(k: Key, amount: u64) returns (r: Result<()>)
      requires Valid()
      requires Get(balances, k).available >= amount ==> Get(balances, k).reserved + amount <= U64_MAX
      modifies this
      ensures Valid()
      ensures var after := LedgerSpec.Reserve(old(State()), k, amount); State() == after.0 && r == after.1
    {
      EnsureRow(k);
      if balances[k].available < amount {
        return Err(InsufficientFunds);
      }
      TouchThenMove(old(State()), k, 0 - amount, amount);
      Adjust(k, 0 - amount, amount);
      r := Ok(());
    }

    method Release(k: Key, amount: u64) returns (r: Result<()>)
      requires Valid()
      requires Get(balances, k).reserved >= amount ==> Get(balances, k).available + amount <= U64_MAX
      modifies this
      ensures Valid()
      ensures var after := LedgerSpec.Release(old(State()), k, amount); State() == after.0 && r == after.1
    {
      EnsureRow(k);
      if balances[k].reserved < amount {
        return Err(InvalidAmount);
      }
      TouchThenMove(old(State()), k, amount, 0 - amount);
      Adjust(k, amount, 0 - amount);
      r := Ok(());
    }

    /** `cost` is a checked multiplication; the four updates are unchecked. */
    method Settle(pair: Pair, t: Trade)
      requires Valid() && pair.IsValid() && t.price * t.qty <= U64_MAX
      requires AllFit(LedgerSpec.Settle(State(), pair, t).bal)
      modifies this
      ensures Valid() && State() == LedgerSpec.Settle(old(State()), pair, t)
    {
      SettleStepsFit(State(), pair, t);
      Adjust((t.takerAccount, pair.quote), TakerQuote(t).available, TakerQuote(t).reserved);
      Adjust((t.takerAccount, pair.base), TakerBase(t).available, TakerBase(t).reserved);
      Adjust((t.makerAccount, pair.quote), MakerQuote(t).available, MakerQuote(t).reserved);
      Adjust((t.makerAccount, pair.base), MakerBase(t).available, MakerBase(t).reserved);
    }

    method TakeDirty() returns (keys: seq<Key>)
      requires Valid()
      modifies `dirty
      ensures Valid() && dirty == {}
      ensures forall k :: k in keys <==> k in old(dirty)
      ensures forall i, j :: 0 <= i < j < |keys| ==> keys[i] != keys[j]
    {
      keys := [];
      while dirty != {}
        invariant forall k :: k in old(dirty) <==> k in keys || k in dirty
        invariant forall k :: k in keys ==> k !in dirty
        invariant forall i, j :: 0 <= i < j < |keys| ==> keys[i] != keys[j]
        decreases dirty
      {
        var k :| k in dirty;
        dirty := dirty - {k};
        keys := keys + [k];
      }
    }
  }
}
