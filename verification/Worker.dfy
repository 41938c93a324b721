/** The worker's dispatch of commands to the books it owns (include/worker.h:11-75). */
module Workers {
  import opened Core
  import opened Orders
  import opened Runs
  import opened SourceRuns
  import opened OrderBooks
  import opened IdAllocators
  import EB = EntryBook
  import LB = LevelBook
  import HeadMarks
  import Ids = IdSupply

  class Worker {
    var books: map<Instrument, OrderBook>

    /** Per book, the commands it has been given and the ids it has issued. */
    ghost var logs: map<Instrument, seq<Step>>
    /** Per book, the objects it is made of. */
    ghost var parts: map<Instrument, set<object>>

    ghost var repr: set<object>

    /** Every book is in the state its log leads to, and no two books share anything but the allocator. */
    ghost predicate Valid(allocator: IdAllocator)
      reads this, repr
    {
      this !in repr && allocator !in repr && AllValid(books, parts, logs, repr, allocator)
    }

    /** Takes over the books it is given; of two for the same instrument it keeps the first. */
    constructor (orderbooks: seq<OrderBook>, allocator: IdAllocator)
      requires New(orderbooks, allocator)
      ensures Valid(allocator) && FirstOfEach(books, orderbooks, |orderbooks|)
      ensures forall x <- logs :: logs[x] == []
    {
      var books, parts, logs, repr := Adopt(orderbooks, allocator);
      this.books, this.parts, this.logs, this.repr := books, parts, logs, repr;
    }

    /** The command reaches the book of its instrument, if there is one, and no other. It is carried
        out unless its matching meets a haunted level; then the source's behaviour is undefined, and
        nothing is said of the books. The caller sees to it that an id can still be issued. */
    method ProcessCommand(cmd: OrderCommand, allocator: IdAllocator)
      returns (found: bool, defined: bool, ghost step: Step)
      requires Valid(allocator)
      requires cmd.order.instrument in books && cmd.kind == ADD ==> books[cmd.order.instrument].CanIssue()
      modifies this`logs, this`parts, this`repr, repr, allocator
      ensures defined ==> Valid(allocator)
      ensures fresh(repr - old(repr))
      ensures found <==> cmd.order.instrument in books
      ensures !found ==> defined && logs == old(logs)
      ensures found ==>
                var x := cmd.order.instrument;
                && step.cmd == cmd && x in old(logs) && logs == old(logs)[x := old(logs)[x] + [step]]
                && IdsFresh(logs[x]) && (defined <==> Safe(logs[x]))
      ensures found ==>
                var x := cmd.order.instrument;
                var m := old(books[x].model);
                && m.Inv()
                && match cmd.kind
                   case ADD =>
                     && step.id !in m.orders && EB.Add(m, step.id, cmd.order).Defined? == defined
                     && (defined ==> books[x].model == EB.Add(m, step.id, cmd.order).value)
                   case MODIFY =>
                     defined && books[x].model == EB.Modify(m, cmd.id, cmd.order.price, cmd.order.quantity).0
                   case CANCEL => defined && books[x].model == EB.Cancel(m, cmd.id).0
                   case SHUTDOWN => defined && books[x].model == m
    {
      hide AllValid, OrderBook.CanIssue, Safe, IdsFresh;
      KnownBooks(books, parts, logs, repr, allocator);
      if cmd.order.instrument !in books {
        return false, true, Step(cmd, cmd.id);
      }
      found := true;
      ghost var foot;
      defined, step, foot := DispatchAmong(books, cmd, parts, logs, repr, allocator);
      logs := logs[cmd.order.instrument := logs[cmd.order.instrument] + [step]];
      parts, repr := parts[cmd.order.instrument := foot], repr + foot;
    }
  }

  /** Empty books that share nothing but the allocator. */
  ghost predicate New(orderbooks: seq<OrderBook>, allocator: IdAllocator)
    reads orderbooks, set b, o | b in orderbooks && o in b.Footprint() :: o
  {
    && (forall b <- orderbooks ::
          BookValid(b, b.Footprint(), [], b.instrument, allocator) && allocator !in b.Footprint())
    && (forall i, j :: 0 <= i < j < |orderbooks| ==> orderbooks[i].Footprint() !! orderbooks[j].Footprint())
  }

  /** Exactly the instruments of the first `n` books have a book, and it is the first for them. */
  ghost predicate FirstOfEach(books: map<Instrument, OrderBook>, orderbooks: seq<OrderBook>, n: nat)
    requires n <= |orderbooks|
  {
    && (forall x <- books :: exists i :: 0 <= i < n && orderbooks[i].instrument == x)
    && (forall i :: 0 <= i < n ==> orderbooks[i].instrument in books)
    && (forall i :: 0 <= i < n && (forall j :: 0 <= j < i ==> orderbooks[j].instrument != orderbooks[i].instrument)
          ==> books[orderbooks[i].instrument] == orderbooks[i])
  }

  method Adopt(orderbooks: seq<OrderBook>, allocator: IdAllocator)
    returns (books: map<Instrument, OrderBook>, ghost parts: map<Instrument, set<object>>,
             ghost logs: map<Instrument, seq<Step>>, ghost repr: set<object>)
    requires New(orderbooks, allocator)
    ensures AllValid(books, parts, logs, repr, allocator) && allocator !in repr
    ensures FirstOfEach(books, orderbooks, |orderbooks|) && forall x <- logs :: logs[x] == []
  {
    hide New, BookValid, AllValid, FirstOfEach, OrderBook.Footprint;
    books, parts, logs, repr := map[], map[], map[], {};
    NoneYet(orderbooks, allocator);
    for i := 0 to |orderbooks|
      invariant AllValid(books, parts, logs, repr, allocator) && allocator !in repr
      invariant FirstOfEach(books, orderbooks, i) && forall x <- logs :: logs[x] == []
      invariant forall j :: i <= j < |orderbooks| ==> orderbooks[j].Footprint() !! repr
      invariant New(orderbooks, allocator)
    {
      var book := orderbooks[i];
      NewKnown(orderbooks, allocator, i);
      FirstKnown(books, orderbooks, i);
      if book.instrument !in books {
        AdoptOne(books, parts, logs, repr, book, allocator);
        books, parts := books[book.instrument := book], parts[book.instrument := book.Footprint()];
        logs, repr := logs[book.instrument := []], repr + book.Footprint();
      }
    }
  }

  lemma NoneYet(orderbooks: seq<OrderBook>, allocator: IdAllocator)
    ensures AllValid(map[], map[], map[], {}, allocator) && FirstOfEach(map[], orderbooks, 0)
  {
  }

  lemma NewKnown(orderbooks: seq<OrderBook>, allocator: IdAllocator, i: nat)
    requires New(orderbooks, allocator) && i < |orderbooks|
    ensures var b := orderbooks[i];
            BookValid(b, b.Footprint(), [], b.instrument, allocator) && allocator !in b.Footprint()
    ensures forall j :: i < j < |orderbooks| ==> orderbooks[j].Footprint() !! orderbooks[i].Footprint()
  {
  }

  lemma AdoptOne(books: map<Instrument, OrderBook>, parts: map<Instrument, set<object>>,
                 logs: map<Instrument, seq<Step>>, repr: set<object>, book: OrderBook, allocator: IdAllocator)
    requires AllValid(books, parts, logs, repr, allocator) && book.instrument !in books && book.Footprint() !! repr
    requires BookValid(book, book.Footprint(), [], book.instrument, allocator)
    ensures var x := book.instrument;
            AllValid(books[x := book], parts[x := book.Footprint()], logs[x := []], repr + book.Footprint(), allocator)
  {
    hide BookValid;
  }

  lemma FirstKnown(books: map<Instrument, OrderBook>, orderbooks: seq<OrderBook>, i: nat)
    requires i < |orderbooks| && FirstOfEach(books, orderbooks, i)
    ensures var x := orderbooks[i].instrument;
            FirstOfEach(if x in books then books else books[x := orderbooks[i]], orderbooks, i + 1)
  {
    var x := orderbooks[i].instrument;
    if x in books {
      var j :| 0 <= j < i && orderbooks[j].instrument == x;
    }
  }

  ghost predicate AllValid(books: map<Instrument, OrderBook>, parts: map<Instrument, set<object>>,
                           logs: map<Instrument, seq<Step>>, repr: set<object>, allocator: IdAllocator)
    reads repr
  {
    && logs.Keys == books.Keys && parts.Keys == books.Keys && Apart(parts, repr)
    && (forall x <- books ::
          books[x] in parts[x] && parts[x] <= repr && BookValid(books[x], parts[x], logs[x], x, allocator))
  }

  lemma KnownBooks(books: map<Instrument, OrderBook>, parts: map<Instrument, set<object>>,
                   logs: map<Instrument, seq<Step>>, repr: set<object>, allocator: IdAllocator)
    requires AllValid(books, parts, logs, repr, allocator)
    ensures logs.Keys == books.Keys && parts.Keys == books.Keys
    ensures forall x <- books :: books[x] in repr
  {
  }

  /** Dispatching to one book leaves all others as they are. */
  method DispatchAmong(books: map<Instrument, OrderBook>, cmd: OrderCommand, ghost parts: map<Instrument, set<object>>,
                       ghost logs: map<Instrument, seq<Step>>, ghost repr: set<object>, allocator: IdAllocator)
    returns (defined: bool, ghost step: Step, ghost foot: set<object>)
    requires AllValid(books, parts, logs, repr, allocator) && allocator !in repr
    requires cmd.order.instrument in books
    requires cmd.kind == ADD ==> books[cmd.order.instrument].CanIssue()
    modifies repr, allocator
    ensures var x := cmd.order.instrument;
            && step.cmd == cmd && x in logs && fresh(foot - repr)
            && IdsFresh(logs[x] + [step]) && (defined <==> Safe(logs[x] + [step]))
            && (defined ==> AllValid(books, parts[x := foot], logs[x := logs[x] + [step]], repr + foot, allocator))
    ensures var x := cmd.order.instrument;
            var m := old(books[x].model);
            && m.Inv()
            && match cmd.kind
               case ADD =>
                 && step.id !in m.orders && EB.Add(m, step.id, cmd.order).Defined? == defined
                 && (defined ==> books[x].model == EB.Add(m, step.id, cmd.order).value)
               case MODIFY => defined && books[x].model == EB.Modify(m, cmd.id, cmd.order.price, cmd.order.quantity).0
               case CANCEL => defined && books[x].model == EB.Cancel(m, cmd.id).0
               case SHUTDOWN => defined && books[x].model == m
  {
    hide BookValid, Apart, OrderBook.CanIssue, Safe, IdsFresh;
    var x := cmd.order.instrument;
    Others(parts, repr, x);
    defined, step, foot := Dispatch(books[x], parts[x], logs[x], x, cmd, allocator);
    Grown(parts, repr, x, foot);
  }

  ghost predicate Apart(parts: map<Instrument, set<object>>, repr: set<object>) {
    && (forall x <- parts :: parts[x] <= repr)
    && (forall x, y | x in parts && y in parts && x != y :: parts[x] !! parts[y])
  }

  lemma Others(parts: map<Instrument, set<object>>, repr: set<object>, x: Instrument)
    requires Apart(parts, repr) && x in parts
    ensures parts[x] <= repr && forall y <- parts :: y != x ==> parts[y] !! parts[x]
  {
  }

  lemma Grown(parts: map<Instrument, set<object>>, repr: set<object>, x: Instrument, foot: set<object>)
    requires Apart(parts, repr) && x in parts && (foot - parts[x]) !! repr
    ensures Apart(parts[x := foot], repr + foot)
  {
  }

  /** The switch of `process_command`. */
  method Dispatch(book: OrderBook, ghost foot: set<object>, ghost log: seq<Step>, ghost x: Instrument,
                  cmd: OrderCommand, allocator: IdAllocator)
    returns (defined: bool, ghost s: Step, ghost foot': set<object>)
    requires book in foot && BookValid(book, foot, log, x, allocator)
    requires cmd.kind == ADD ==> book.CanIssue()
    modifies foot, allocator
    ensures s.cmd == cmd && book in foot' && foot <= foot' && fresh(foot' - foot)
    ensures IdsFresh(log + [s]) && (defined <==> Safe(log + [s]))
    ensures defined ==> BookValid(book, foot', log + [s], x, allocator)
    ensures var m := old(book.model);
            && m.Inv()
            && match cmd.kind
               case ADD =>
                 && s.id !in m.orders && EB.Add(m, s.id, cmd.order).Defined? == defined
                 && (defined ==> book.model == EB.Add(m, s.id, cmd.order).value)
               case MODIFY => defined && book.model == EB.Modify(m, cmd.id, cmd.order.price, cmd.order.quantity).0
               case CANCEL => defined && book.model == EB.Cancel(m, cmd.id).0
               case SHUTDOWN => defined && book.model == m
  {
    hide Source, Safe, EB.Book.Inv, EB.Add, EB.Cancel, EB.Modify, OrderBook.Represents, OrderBook.IdsInv, IdsFresh,
      OrderBook.Desk, OrderBook.CanIssue, EB.Book.Queues, EB.Book.Marks, EB.Book.Levels, Ids.Draw, HeadMarks.Add,
      HeadMarks.Marks.Clean, LB.Add, LB.Cancel, LB.Modify, LB.GrowsSoleOrder;
    ghost var m := book.model;
    s, defined := Step(cmd, cmd.id), true;
    match cmd.kind {
      case ADD =>
        var id;
        id, defined := book.AddOrder(cmd.order);
        s := Step(cmd, id);
      case MODIFY =>
        var _ := book.ModifyOrder(cmd.id, cmd.order.price, cmd.order.quantity);
      case CANCEL =>
        var _ := book.CancelOrder(cmd.id);
      case SHUTDOWN =>
    }
    BookSnoc(log, s, m);
    foot' := foot + book.Footprint();
  }

  lemma BookSnoc(log: seq<Step>, s: Step, b: EB.Book)
    requires IdsFresh(log) && Source(log) == Defined(b) && (s.cmd.kind == ADD ==> s.id !in b.orders)
    ensures b.Inv() && IdsFresh(log + [s]) && Source(log + [s]) == ApplyEntry(b, s).0
    ensures Safe(log + [s]) <==> ApplyEntry(b, s).0.Defined?
  {
    hide ApplyEntry, Runs.Book, EB.Book.Inv;
    AddedSnoc(log, s);
    SameOrders(b, log);
    assert (log + [s])[..|log|] == log;
  }

  ghost predicate BookValid(book: OrderBook, foot: set<object>, log: seq<Step>, x: Instrument, allocator: IdAllocator)
    reads book, foot
  {
    && book.Footprint() <= foot
    && book.Represents() && book.IdsInv() && book.instrument == x && book.idAllocator == allocator
    && IdsFresh(log) && Source(log) == Defined(book.model)
  }
}
