/** The older price level of include/price_level.h: a linked list of orders and a map from ids to
    list iterators. Popping shortens the list and leaves the map as it is. */
module ListLevels {
  import opened Core
  import opened Orders
  import opened Totals
  import LevelRep

  /** A list node. Nodes are numbered in the order in which they were made; an iterator is the number
      of the node it points at, whether or not the node is still there. */
  datatype Node = Node(serial: nat, id: OrderId)

  datatype ListLevel = ListLevel(nodes: seq<Node>, iterators: map<OrderId, nat>, made: nat)
  {
    function Ids(): (ids: seq<OrderId>)
      ensures |ids| == |nodes|
    {
      seq(|nodes|, i requires 0 <= i < |nodes| => nodes[i].id)
    }

    /** Nodes are distinct, so are iterators, and both have been made before. */
    ghost predicate Inv() {
      && (forall i, j :: 0 <= i < j < |nodes| ==> nodes[i].serial != nodes[j].serial)
      && (forall n <- nodes :: n.serial < made)
      && (forall id <- iterators :: iterators[id] < made)
      && (forall a, b | a in iterators && b in iterators && a != b :: iterators[a] != iterators[b])
    }

    /** The map has an iterator for `id`, and it points at a node of the list. */
    predicate PointsAt(id: OrderId) {
      id in iterators && exists i :: 0 <= i < |nodes| && nodes[i].serial == iterators[id]
    }
  }

  const NO_ORDERS: ListLevel := ListLevel([], map[], 0)

  function Add(l: ListLevel, id: OrderId): ListLevel {
    ListLevel(l.nodes + [Node(l.made, id)], l.iterators[id := l.made], l.made + 1)
  }

  function Erase(nodes: seq<Node>, serial: nat): seq<Node> {
    if nodes == [] then []
    else if nodes[0].serial == serial then nodes[1..]
    else [nodes[0]] + Erase(nodes[1..], serial)
  }

  /** `remove_order` and its answer. Where the iterator dangles, the source erases a node that is gone. */
  function Remove(l: ListLevel, id: OrderId): Outcome<(ListLevel, bool)> {
    if id !in l.iterators then Defined((l, false))
    else if !l.PointsAt(id) then Undefined
    else Defined((l.(nodes := Erase(l.nodes, l.iterators[id]), iterators := l.iterators - {id}), true))
  }

  function Pop(l: ListLevel, filled: bool): ListLevel {
    if l.nodes == [] || !filled then l else l.(nodes := l.nodes[1..])
  }

  lemma {:induction false} EraseAt(nodes: seq<Node>, i: nat)
    requires i < |nodes| && forall j, k :: 0 <= j < k < |nodes| ==> nodes[j].serial != nodes[k].serial
    ensures Erase(nodes, nodes[i].serial) == nodes[..i] + nodes[i + 1..]
  {
    if i > 0 {
      assert nodes[1..][i - 1] == nodes[i];
      EraseAt(nodes[1..], i - 1);
    }
  }

  // ---- the object ----

  datatype OrderNode = OrderNode(serial: nat, order: Order)

  class ListPriceLevel {
    const price: Price
    var ordersList: seq<OrderNode>
    var ordersMap: map<OrderId, nat>
    var made: nat

    ghost var value: ListLevel
    ghost var orders: set<Order>

    ghost predicate Represents()
      reads this, orders`id
    {
      && value.iterators == ordersMap && value.made == made && |value.nodes| == |ordersList|
      && (forall i :: 0 <= i < |ordersList| ==>
            ordersList[i].order in orders && value.nodes[i] == Node(ordersList[i].serial, ordersList[i].order.id))
    }

    constructor (price: Price)
      ensures this.price == price && Represents() && value == NO_ORDERS && orders == {}
    {
      this.price := price;
      ordersList, ordersMap, made := [], map[], 0;
      value, orders := NO_ORDERS, {};
    }

    method AddOrder(order: Order)
      requires Represents()
      modifies this
      ensures Represents() && value == Add(old(value), order.id) && orders == old(orders) + {order}
    {
      ordersList := ordersList + [OrderNode(made, order)];
      ordersMap, made := ordersMap[order.id := made], made + 1;
      value, orders := Add(value, order.id), orders + {order};
    }

    /** Not defined exactly where the iterator found in the map dangles. */
    method RemoveOrder(orderId: OrderId) returns (removed: bool, defined: bool)
      requires Represents() && value.Inv()
      modifies this
      ensures Represents() && orders == old(orders)
      ensures defined <==> Remove(old(value), orderId).Defined?
      ensures defined ==> Remove(old(value), orderId) == Defined((value, removed))
      ensures !defined ==> value == old(value)
    {
      if orderId !in ordersMap {
        return false, true;
      }
      var i := 0;
      while i < |ordersList| && ordersList[i].serial != ordersMap[orderId]
        invariant i <= |ordersList| && forall j :: 0 <= j < i ==> ordersList[j].serial != ordersMap[orderId]
      {
        i := i + 1;
      }
      if i == |ordersList| {
        return false, false;
      }
      assert value.nodes[i].serial == ordersMap[orderId] && value.PointsAt(orderId);
      EraseAt(value.nodes, i);
      value := Remove(value, orderId).value.0;
      ordersList := ordersList[..i] + ordersList[i + 1..];
      ordersMap := ordersMap - {orderId};
      return true, true;
    }

    function Size(): (n: nat)
      requires Represents()
      reads this, orders`id
      ensures n == |value.Ids()|
    {
      |ordersList|
    }

    function Front(): (order: Order)
      requires Represents() && ordersList != []
      reads this, orders`id
      ensures order in orders && value.Ids() != [] && order.id == value.Ids()[0]
    {
      ordersList[0].order
    }

    method PopFrontOrderIfFilled()
      requires Represents()
      modifies this
      ensures Represents() && orders == old(orders)
      ensures value == Pop(old(value), old(ordersList) != [] && old(Front().status) == FULLY_FILLED)
    {
      if ordersList == [] {
        return;
      }
      if Front().status == FULLY_FILLED {
        ordersList := ordersList[1..];
        value := Pop(value, true);
      }
    }

    /** Taken modulo 2^64, like the source's. */
    method TotalQty(ghost table: map<OrderId, OrderData>) returns (qty: Quantity)
      requires Represents()
      requires forall i :: 0 <= i < |ordersList| ==>
                 && ordersList[i].order.id in table && ordersList[i].order.Data() == table[ordersList[i].order.id]
                 && ordersList[i].order.filled <= ordersList[i].order.quantity
      ensures qty == QueueTotal(value.Ids(), table)
    {
      qty := 0;
      ghost var ids, left := value.Ids(), Left(table);
      for i := 0 to |ordersList|
        invariant qty == Wrap(LevelRep.ListTotal(ids[..i], left))
      {
        var order := ordersList[i].order;
        assert ids[..i + 1][..i] == ids[..i] && ids[i] == order.id;
        AddWrap(LevelRep.ListTotal(ids[..i], left), order.quantity - order.filled);
        qty := Wrap(qty + (order.quantity - order.filled));
      }
      assert ids[..|ordersList|] == ids;
    }
  }
}
