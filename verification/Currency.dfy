/** The reservable currency: every operation on reserved funds is best effort. */
module Currency {
  import opened Primitives
  import opened Chain

  function Funds(b: Balances, who: Account): AccountData {
    if who in b then b[who] else AccountData(0, 0)
  }

  /** Free plus reserved. */
  function Wealth(b: Balances, who: Account): nat {
    Funds(b, who).free + Funds(b, who).reserved
  }

  /** `reserve`: all or nothing. */
  function Reserve(b: Balances, who: Account, amount: nat): Result<Balances> {
    if amount == 0 then Ok(b)
    else
      var d := Funds(b, who);
      if d.free < amount then Err(InsufficientBalance)
      else Ok(b[who := AccountData(d.free - amount, d.reserved + amount)])
  }

  /** What a best-effort operation actually touches. */
  function Reach(b: Balances, who: Account, amount: nat): nat {
    Min(amount, Funds(b, who).reserved)
  }

  /** `unreserve`. */
  function Unreserve(b: Balances, who: Account, amount: nat): Balances {
    var m := Reach(b, who, amount);
    if m == 0 then b else b[who := AccountData(b[who].free + m, b[who].reserved - m)]
  }

  /** `slash_reserved`: the slashed part is burned. */
  function SlashReserved(b: Balances, who: Account, amount: nat): Balances {
    var m := Reach(b, who, amount);
    if m == 0 then b else b[who := b[who].(reserved := b[who].reserved - m)]
  }

  /** The part of a slash that could not be taken: the second component of `slash_reserved`. */
  function Unslashed(b: Balances, who: Account, amount: nat): nat {
    amount - Reach(b, who, amount)
  }

  /** `repatriate_reserved` to the payee's free balance. */
  function Repatriate(b: Balances, payer: Account, payee: Account, amount: nat): Result<Balances> {
    if amount == 0 then Ok(b)
    else if payer == payee then Ok(Unreserve(b, payer, amount))
    else if payee !in b then Err(DeadAccount)
    else
      var m := Reach(b, payer, amount);
      if m == 0 then Ok(b)
      else
        Ok(b[payer := b[payer].(reserved := b[payer].reserved - m)][payee := b[payee].(free := b[payee].free + m)])
  }

  /** A transfer between free balances, outside the three pallets. */
  function Transfer(b: Balances, from: Account, to: Account, amount: nat): Result<Balances> {
    if Funds(b, from).free < amount then Err(InsufficientBalance)
    else if from == to || amount == 0 then Ok(b)
    else
      var debited := b[from := b[from].(free := b[from].free - amount)];
      var d := Funds(debited, to);
      Ok(debited[to := d.(free := d.free + amount)])
  }

  /** An account left with nothing is reaped and no longer exists. */
  function Reap(b: Balances, who: Account): Result<Balances> {
    if who !in b || b[who] != AccountData(0, 0) then Err(AccountInUse) else Ok(b - {who})
  }
}
