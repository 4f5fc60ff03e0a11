/** The inventory ledger: one stock counter per merch variant, taken from when a merch order
    is placed and given back when the star cancels it. */
module Inventory {
  import opened Common

  /** The guard and write of `createMerchOrder`: refuse when the stock is below the
      quantity, with a message that tells a sold-out variant from a short one; otherwise the
      stock left. */
  function Reserve(stock: int, quantity: int): (r: Result<int>)
    ensures r.Ok? <==> quantity <= stock
    ensures r.Ok? ==> r.value == stock - quantity && r.value >= 0
    ensures r.Err? ==> r.error == OutOfStock(if stock == 0 then SoldOut else OnlyLeft(stock))
  {
    if stock < quantity then Err(OutOfStock(if stock == 0 then SoldOut else OnlyLeft(stock)))
    else Ok(stock - quantity)
  }

  /** The restore of the star-side cancel: the order's quantity is added back. */
  function Release(stock: int, quantity: int): int
  {
    stock + quantity
  }

  lemma ReleaseUndoesReserve(stock: int, quantity: int)
    requires quantity <= stock
    ensures Reserve(stock, quantity).Ok? && Release(Reserve(stock, quantity).value, quantity) == stock
  {
  }

  datatype LedgerOp = Take(quantity: int) | GiveBack(quantity: int)

  /** The counter after a sequence of single-threaded orders and cancellations; a refused
      reservation leaves it as it was. */
  function Apply(stock: int, ops: seq<LedgerOp>): int
    decreases |ops|
  {
    if ops == [] then stock
    else
      var next := match ops[0]
        case Take(q) => (match Reserve(stock, q) case Ok(s) => s case Err(_) => stock)
        case GiveBack(q) => Release(stock, q);
      Apply(next, ops[1..])
  }

  /** Executed one request at a time, no sequence of orders and cancellations with
      non-negative quantities drives a non-negative stock below zero. */
  lemma {:induction false} ApplyNeverNegative(stock: int, ops: seq<LedgerOp>)
    requires stock >= 0
    requires forall i :: 0 <= i < |ops| ==> ops[i].quantity >= 0
    ensures Apply(stock, ops) >= 0
    decreases |ops|
  {
    if ops != [] {
      var next := match ops[0]
        case Take(q) => (match Reserve(stock, q) case Ok(s) => s case Err(_) => stock)
        case GiveBack(q) => Release(stock, q);
      assert next >= 0;
      forall i | 0 <= i < |ops[1..]| ensures ops[1..][i].quantity >= 0 {
        assert ops[1..][i] == ops[i + 1];
      }
      ApplyNeverNegative(next, ops[1..]);
    }
  }

  /** The worked example: stock 3; order A takes 2 (1 left); order B asks 2 and is refused
      with one piece left; A is cancelled (3); B retries and gets its 2 (1 left). */
  lemma WorkedExample()
    ensures Reserve(3, 2) == Ok(1)
    ensures Reserve(1, 2) == Err(OutOfStock(OnlyLeft(1)))
    ensures Release(1, 2) == 3
    ensures Apply(3, [Take(2), Take(2), GiveBack(2), Take(2)]) == 1
  {
  }
}
