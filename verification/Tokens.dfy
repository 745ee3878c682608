/** Balances held in token contracts, and the shared transfer helper
    (packages/common/src/token_transfer.rs). */
module Tokens {
  import opened Common

  /** (token, holder) to balance; an absent entry is a zero balance. */
  type Ledger = map<(Address, Address), nat>

  datatype TransferError = LowBalance | TransferFailed

  function Balance(l: Ledger, token: Address, who: Address): nat {
    if (token, who) in l then l[(token, who)] else 0
  }

  function Credit(l: Ledger, token: Address, to: Address, amount: nat): (r: Ledger)
    ensures forall t, w :: Balance(r, t, w) == Balance(l, t, w) + (if t == token && w == to then amount else 0)
  {
    l[(token, to) := Balance(l, token, to) + amount]
  }

  function Moved(l: Ledger, token: Address, from: Address, to: Address, amount: nat): (r: Ledger)
    requires amount <= Balance(l, token, from)
    ensures forall t, w :: Balance(r, t, w) ==
                           Balance(l, t, w) - (if t == token && w == from then amount else 0)
                           + (if t == token && w == to then amount else 0)
  {
    Credit(l[(token, from) := Balance(l, token, from) - amount], token, to, amount)
  }

  function SafeTransfer(l: Ledger, token: Address, from: Address, to: Address, amount: int128): Result<Ledger, TransferError> {
    if amount <= 0 then Err(TransferFailed) else
    if amount > Balance(l, token, from) then Err(LowBalance) else
    Ok(Moved(l, token, from, to, amount))
  }

  /** A direct call to the token contract, which traps on a negative amount or a short balance. */
  function HostTransfer(l: Ledger, token: Address, from: Address, to: Address, amount: int128): Option<Ledger> {
    if 0 <= amount <= Balance(l, token, from) then Some(Moved(l, token, from, to, amount)) else None
  }
}
