/** pallet-escrow: funds held against a deal's id. */
module Escrow {
  import opened Primitives
  import opened Chain
  import opened Currency

  function Lock(s: State, id: Hash, payer: Account, payee: Account, amount: nat): Result<State> {
    var reserved := Reserve(s.balances, payer, amount);
    :- Ensure(id !in s.escrows, EscrowAlreadyExists);
    :- Ensure(reserved.Ok?, InsufficientBalanceForEscrow);
    Ok(s.(balances := reserved.value, escrows := s.escrows[id := EscrowRecord(payer, payee, amount, Locked, s.now)]))
  }

  function Release(s: State, id: Hash): Result<State> {
    var record :- Lookup(s.escrows, id, EscrowNotFound);
    :- Ensure(record.status == Locked, EscrowNotLocked);
    var moved :- Repatriate(s.balances, record.payer, record.payee, record.amount);
    Ok(s.(balances := moved, escrows := s.escrows[id := record.(status := Released)]))
  }

  function Refund(s: State, id: Hash): Result<State> {
    var record :- Lookup(s.escrows, id, EscrowNotFound);
    :- Ensure(record.status == Locked, EscrowNotLocked);
    Ok(s.(balances := Unreserve(s.balances, record.payer, record.amount),
          escrows := s.escrows[id := record.(status := Refunded)]))
  }
}
