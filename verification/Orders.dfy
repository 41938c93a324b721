/** Orders: the value a book computes with, and the object the source updates in place. */
module Orders {
  import opened Core

  /** What the book knows about one order (include/order.h:162-171, without the time stamps). */
  datatype OrderData = OrderData(side: Side, price: Price, quantity: Quantity, filled: Quantity, status: Status)
  {
    predicate Live() {
      status == NEW || status == PARTIALLY_FILLED
    }

    function Remaining(): int {
      quantity - filled
    }

    /** What the status says about the quantities. Only an order submitted with quantity 0 is
        live with nothing left to fill. */
    predicate Sound() {
      && filled <= quantity
      && (status == NEW ==> filled == 0)
      && (status == FULLY_FILLED ==> filled == quantity)
      && (Live() && filled == quantity ==> quantity == 0)
    }

    /** `validate_modify_order` (include/orderbook.h:204-209). */
    predicate Accepts(newPrice: Price, newQuantity: Quantity) {
      newPrice > 0.0 && newQuantity > filled
    }

    /** The order after a fill of `n`. */
    function Fill(n: int): OrderData
      requires 0 <= n <= Remaining()
    {
      this.(filled := filled + n,
            status := if filled + n == quantity then FULLY_FILLED else PARTIALLY_FILLED)
    }
  }

  /** What remains to be filled of an order, by the order table. */
  ghost function Left(orders: map<OrderId, OrderData>): OrderId -> int {
    id => if id in orders then orders[id].Remaining() else 0
  }

  /** The order as a client submits it (include/order.h:58-70). */
  datatype ClientOrder = ClientOrder(instrument: Instrument, side: Side, price: Price, quantity: Quantity)

  function Resting(client: ClientOrder): OrderData {
    OrderData(client.side, client.price, client.quantity, 0, NEW)
  }

  datatype CommandType = ADD | MODIFY | CANCEL | SHUTDOWN

  /** `order` carries the client's fields, `id` the order a MODIFY or CANCEL refers to. */
  datatype OrderCommand = OrderCommand(kind: CommandType, order: ClientOrder, id: OrderId)

  class Order {
    var instrument: Instrument
    var side: Side
    var price: Price
    var quantity: Quantity
    var id: OrderId
    var filled: Quantity
    var status: Status

    function Data(): OrderData
      reads this
    {
      OrderData(side, price, quantity, filled, status)
    }

    constructor ()
      ensures id == DEFAULT_ORDER_ID && instrument == ""
      ensures Data() == OrderData(BUY, 0.0, 0, 0, NEW)
    {
      instrument, side, price, quantity := "", BUY, 0.0, 0;
      id, filled, status := DEFAULT_ORDER_ID, 0, NEW;
    }

    /** A pool slot keeps the fill and the status of its default constructor. */
    method CopyFromClient(client: ClientOrder, allocatedId: OrderId)
      requires filled == 0 && status == NEW
      modifies this
      ensures id == allocatedId && instrument == client.instrument
      ensures side == client.side && price == client.price && quantity == client.quantity
      ensures filled == 0 && status == NEW
      ensures Data() == Resting(client)
    {
      instrument := client.instrument;
      side := client.side;
      price := client.price;
      quantity := client.quantity;
      id := allocatedId;
    }

    /** The guard compares a 64-bit sum; `ok` is false where the source throws. A caller whose
        fill fits the remaining quantity is never refused, whatever the width. */
    method Match(fillQty: Quantity) returns (ok: bool)
      modifies this`filled, this`status
      ensures ok <==> (old(filled) + fillQty) % TWO_64 <= quantity
      ensures !ok ==> Data() == old(Data())
      ensures ok ==> filled == (old(filled) + fillQty) % TWO_64
      ensures ok ==> status == if filled == quantity then FULLY_FILLED else PARTIALLY_FILLED
      ensures 0 <= fillQty <= old(Data()).Remaining() ==> ok && Data() == old(Data()).Fill(fillQty)
    {
      var sum := (filled + fillQty) % TWO_64;
      if sum > quantity {
        return false;
      }
      filled := sum;
      if filled == quantity {
        status := FULLY_FILLED;
        return true;
      }
      status := PARTIALLY_FILLED;
      return true;
    }

    method Cancel() returns (ok: bool)
      modifies this`status
      ensures ok <==> old(status) == NEW || old(status) == PARTIALLY_FILLED
      ensures ok <==> old(Data()).Live()
      ensures Data() == if ok then old(Data()).(status := CANCELLED) else old(Data())
    {
      if status == FULLY_FILLED || status == CANCELLED {
        return false;
      }
      status := CANCELLED;
      return true;
    }

    method SetPrice(newPrice: Price)
      modifies this`price
      ensures Data() == old(Data()).(price := newPrice)
    {
      price := newPrice;
    }

    method SetQuantity(newQuantity: Quantity)
      modifies this`quantity
      ensures Data() == old(Data()).(quantity := newQuantity)
    {
      quantity := newQuantity;
    }
  }
}
