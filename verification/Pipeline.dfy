/** The whole engine: one producer, one ring and one worker per set of instruments, and books that
    draw their ids from a shared counter. Threads take atomic steps in any order
    (include/producer.h, include/worker.h, include/order_routing_system.h). */
module Pipeline {
  import opened Core
  import opened Orders
  import opened Producers
  import opened Runs
  import opened SourceRuns
  import Q = SpscQueue
  import EB = EntryBook
  import Ids = IdSupply
  import Refinement
  import Routing

  /** A book once its run is not defined any more stays so. */
  type SourceBook = Outcome<EB.Book>

  /** The book a worker keeps for an instrument. */
  datatype Key = Key(worker: nat, instrument: Instrument)

  /** How many popped commands a worker has dealt with, and whether it has left its loop. */
  datatype Worker = Worker(processed: nat, stopped: bool)

  /** What the producer thread is doing. `base` remembers, for the statements only, what each ring
      held when shutting down began. */
  datatype Program =
    | Ready
    | Submitting(w: nat, cmd: OrderCommand)
    | Stopping(sent: seq<bool>, count: nat, i: nat, base: seq<seq<OrderCommand>>)
    | Finished(base: seq<seq<OrderCommand>>)

  type CommandRing = Q.Ring<OrderCommand>

  const POISON := SHUTDOWN_COMMAND

  datatype System = System(
    rings: seq<CommandRing>, workers: seq<Worker>, router: map<Instrument, nat>,
    supply: Ids.Supply<Key>, logs: map<Key, seq<Step>>, books: map<Key, SourceBook>, program: Program)
  {
    ghost predicate Inv() {
      && |workers| == |rings| && RingsInv(rings, workers)
      && PushedRouted(rings, router) && RoutesInv(router, |rings|, logs.Keys)
      && supply.Inv() && BooksInv(logs, books, supply.desks, rings, workers)
      && ProgramInv(program, rings, router)
    }
  }

  ghost predicate RingsInv(rings: seq<CommandRing>, workers: seq<Worker>)
    requires |workers| == |rings|
  {
    forall w :: 0 <= w < |rings| ==> rings[w].Inv() && WorkerInv(workers[w], rings[w].popped)
  }

  /** Commands sit in the ring of the worker their instrument is routed to. */
  ghost predicate PushedRouted(rings: seq<CommandRing>, router: map<Instrument, nat>) {
    forall w, c | 0 <= w < |rings| && c in rings[w].pushed :: Routed(router, w, c)
  }

  /** Every book is what its log leads to, and the log is what its worker has processed for it. */
  ghost predicate BooksInv(logs: map<Key, seq<Step>>, books: map<Key, SourceBook>, desks: map<Key, Ids.Desk>,
                           rings: seq<CommandRing>, workers: seq<Worker>)
    requires |workers| == |rings|
  {
    && desks.Keys == logs.Keys && books.Keys == logs.Keys
    && (forall k <- logs :: k.worker < |rings|)
    && (forall k <- logs ::
          KeyInv(k, logs[k], books[k], desks[k].issued, rings[k.worker].popped, workers[k.worker].processed))
  }

  /** A worker stops at the first SHUTDOWN and not before. */
  ghost predicate WorkerInv(worker: Worker, popped: seq<OrderCommand>) {
    && worker.processed <= |popped| <= worker.processed + 1
    && (worker.stopped ==> |popped| == worker.processed >= 1 && popped[worker.processed - 1].kind == SHUTDOWN)
    && (forall i :: 0 <= i < worker.processed - (if worker.stopped then 1 else 0) ==> popped[i].kind != SHUTDOWN)
  }

  ghost predicate Routed(router: map<Instrument, nat>, w: nat, c: OrderCommand) {
    c.kind == SHUTDOWN || (c.order.instrument in router && router[c.order.instrument] == w)
  }

  /** Every route leads to a worker that keeps a book for the instrument. */
  ghost predicate RoutesInv(router: map<Instrument, nat>, n: nat, keys: set<Key>) {
    forall x <- router :: router[x] < n && Key(router[x], x) in keys
  }

  function Commands(log: seq<Step>): seq<OrderCommand> {
    seq(|log|, i requires 0 <= i < |log| => log[i].cmd)
  }

  /** The commands for one instrument, in order. */
  function Project(cmds: seq<OrderCommand>, x: Instrument): seq<OrderCommand> {
    if cmds == [] then []
    else
      var last := |cmds| - 1;
      Project(cmds[..last], x) +
      if cmds[last].kind != SHUTDOWN && cmds[last].order.instrument == x then [cmds[last]] else []
  }

  /** A command is kept exactly if it is for the instrument and is no SHUTDOWN, and order is kept. */
  lemma {:induction false} ProjectKeeps(a: seq<OrderCommand>, b: seq<OrderCommand>, x: Instrument)
    ensures Project(a + b, x) == Project(a, x) + Project(b, x) && Project([], x) == []
    ensures |b| == 1 ==> Project(b, x) == if b[0].kind != SHUTDOWN && b[0].order.instrument == x then b else []
    decreases |b|
  {
    if b == [] {
      assert a + b == a;
    } else {
      var last := |b| - 1;
      assert (a + b)[..|a + b| - 1] == a + b[..last] && (a + b)[|a + b| - 1] == b[last];
      ProjectKeeps(a, b[..last], x);
      assert |b| == 1 ==> b[..last] == [] && b == [b[0]];
    }
  }

  /** The ids issued for the ADDs of a log, in order. */
  function AddIds(log: seq<Step>): seq<OrderId> {
    if log == [] then []
    else AddIds(log[..|log| - 1]) + if log[|log| - 1].cmd.kind == ADD then [log[|log| - 1].id] else []
  }

  lemma {:induction false} AddIdsListed(log: seq<Step>)
    ensures forall id :: id in AddedIds(log) <==> id in AddIds(log)
  {
    if log != [] {
      var before, s := log[..|log| - 1], log[|log| - 1];
      AddIdsListed(before);
      AddedSnoc(before, s);
      assert log == before + [s];
    }
  }

  /** The log is what has been processed for this book, with the ids its desk has issued, in order. */
  ghost predicate KeyInv(k: Key, log: seq<Step>, book: SourceBook, issued: seq<OrderId>,
                         popped: seq<OrderCommand>, processed: nat)
  {
    && IdsFresh(log) && book == Source(log)
    && AddIds(log) == issued
    && processed <= |popped| && Commands(log) == Project(popped[..processed], k.instrument)
  }

  /** Only the ring the producer works on is in the middle of a push, and it carries that command. */
  ghost predicate ProgramInv(program: Program, rings: seq<CommandRing>, router: map<Instrument, nat>) {
    match program
    case Ready => forall w :: 0 <= w < |rings| ==> rings[w].producer.PIdle?
    case Submitting(a, cmd) =>
      && a < |rings| && Routed(router, a, cmd) && Carries(rings[a], cmd)
      && (forall w :: 0 <= w < |rings| && w != a ==> rings[w].producer.PIdle?)
    case Stopping(sent, count, i, base) =>
      && |sent| == |base| == |rings| && i <= |rings| && count == Count(sent)
      && PoisonFor(rings, base, sent)
      && (forall w :: 0 <= w < |rings| && (w != i || sent[w]) ==> rings[w].producer.PIdle?)
      && (i < |rings| && !sent[i] ==> Carries(rings[i], POISON))
    case Finished(base) =>
      && |base| == |rings|
      && (forall w :: 0 <= w < |rings| ==> rings[w].producer.PIdle? && rings[w].pushed == base[w] + [POISON])
  }

  /** Every ring holds what it held before shutting down began, and its SHUTDOWN if that was sent. */
  ghost predicate PoisonFor(rings: seq<CommandRing>, base: seq<seq<OrderCommand>>, sent: seq<bool>)
    requires |rings| == |base| == |sent|
  {
    forall w :: 0 <= w < |rings| ==> rings[w].pushed == base[w] + if sent[w] then [POISON] else []
  }

  predicate Carries(ring: CommandRing, cmd: OrderCommand) {
    ring.producer.PIdle? || ring.producer.item == cmd
  }

  // ---- the steps ----

  datatype Turn = Submit(cmd: OrderCommand) | BeginShutdown | ProducerTurn | WorkerTurn(w: nat)

  /** The worker has popped a command and not yet dealt with it. */
  predicate Pending(s: System, w: nat)
    requires |s.workers| == |s.rings|
  {
    w < |s.rings| && !s.workers[w].stopped && s.workers[w].processed < |s.rings[w].popped|
  }

  /** No order is accepted whose id would take the shared counter past 2^64. */
  ghost predicate CanStep(s: System, turn: Turn)
    requires s.Inv()
  {
    turn.WorkerTurn? && Pending(s, turn.w) ==>
      var cmd := s.rings[turn.w].popped[s.workers[turn.w].processed];
      var k := Key(turn.w, cmd.order.instrument);
      cmd.kind == ADD && k in s.logs ==> s.supply.Fits(k)
  }

  ghost function Next(s: System, turn: Turn): System
    requires s.Inv() && CanStep(s, turn)
  {
    match turn
    case Submit(cmd) => Submitted(s, cmd)
    case BeginShutdown =>
      if s.program != Ready then s
      else s.(program := Stopping(seq(|s.rings|, _ => false), 0, |s.rings|,
                                  seq(|s.rings|, w requires 0 <= w < |s.rings| => s.rings[w].pushed)))
    case ProducerTurn => Produced(s)
    case WorkerTurn(w) =>
      if w >= |s.rings| || s.workers[w].stopped then s
      else if Pending(s, w) then Processed(s, w)
      else s.(rings := s.rings[w := Q.ConsumerStep(s.rings[w])])
  }

  /** `submit` looks the instrument up; an unknown one is refused on the spot. */
  function Submitted(s: System, cmd: OrderCommand): System {
    if s.program == Ready && cmd.order.instrument in s.router
    then s.(program := Submitting(s.router[cmd.order.instrument], cmd)) else s
  }

  /** One step of the push in progress, or of the loop in `submit_all_shutdown_commands`. */
  ghost function Produced(s: System): System
    requires s.Inv()
  {
    match s.program
    case Ready => s
    case Finished(_) => s
    case Submitting(w, cmd) =>
      var ring := Q.ProducerStep(s.rings[w], cmd);
      s.(rings := s.rings[w := ring], program := if ring.producer.PIdle? then Ready else s.program)
    case Stopping(sent, count, i, base) =>
      if i == |s.rings| then
        s.(program := if count == |s.rings| then Finished(base) else Stopping(sent, count, 0, base))
      else if sent[i] then s.(program := Stopping(sent, count, i + 1, base))
      else
        var ring := Q.ProducerStep(s.rings[i], POISON);
        s.(rings := s.rings[i := ring],
           program := if !ring.producer.PIdle? then s.program
                      else if ring.producer.ok then Stopping(sent[i := true], count + 1, i + 1, base)
                      else Stopping(sent, count, i + 1, base))
  }

  /** `process_command`, or leaving the loop on SHUTDOWN. An unknown instrument is dropped. */
  ghost function Processed(s: System, w: nat): System
    requires s.Inv() && Pending(s, w) && CanStep(s, WorkerTurn(w))
  {
    var n := s.workers[w].processed;
    var cmd := s.rings[w].popped[n];
    var k := Key(w, cmd.order.instrument);
    var s' := s.(workers := s.workers[w := Worker(n + 1, cmd.kind == SHUTDOWN)]);
    if cmd.kind == SHUTDOWN || k !in s.logs then s'
    else
      var (supply, id) := if cmd.kind == ADD then Ids.Issue(s.supply, k) else (s.supply, cmd.id);
      var step := Step(cmd, id);
      StepFits(s, k, step);
      s'.(supply := supply, logs := s.logs[k := s.logs[k] + [step]],
          books := s.books[k := ApplySource(s.books[k], step)])
  }

  function ApplySource(book: SourceBook, step: Step): SourceBook
    requires book.Defined? ==> book.value.Inv() && (step.cmd.kind == ADD ==> step.id !in book.value.orders)
  {
    if book.Undefined? then Undefined else ApplyEntry(book.value, step).0
  }

  /** The issued id is new to the book that gets it. */
  lemma StepFits(s: System, k: Key, step: Step)
    requires s.Inv() && k in s.logs
    requires step.cmd.kind == ADD ==> s.supply.Fits(k) && step.id == Ids.Issue(s.supply, k).1
    ensures k in s.books && IdsFresh(s.logs[k]) && s.books[k] == Source(s.logs[k])
    ensures step.cmd.kind == ADD ==> step.id !in AddedIds(s.logs[k])
    ensures s.books[k].Defined? ==>
              s.books[k].value.Inv() && (step.cmd.kind == ADD ==> step.id !in s.books[k].value.orders)
  {
    KeyOf(s, k);
    AddIdsListed(s.logs[k]);
    if step.cmd.kind == ADD {
      Ids.IssueKeeps(s.supply, k);
    }
    if s.books[k].Defined? {
      SameOrders(s.books[k].value, s.logs[k]);
    }
  }

  // ---- every step keeps the invariant ----

  /** A producer step on a ring that carries `item`. */
  lemma PushStep(ring: CommandRing, item: OrderCommand)
    requires ring.Inv() && Carries(ring, item)
    ensures var r := Q.ProducerStep(ring, item);
            && r.Inv() && r.popped == ring.popped && Carries(r, item)
            && r.pushed == (if r.producer == Q.PIdle(true) then ring.pushed + [item] else ring.pushed)
  {
    Q.ProducerKeeps(ring, item);
  }

  lemma PopStep(ring: CommandRing)
    requires ring.Inv()
    ensures var r := Q.ConsumerStep(ring);
            && r.Inv() && r.pushed == ring.pushed && r.producer == ring.producer
            && ring.popped <= r.popped && |r.popped| <= |ring.popped| + 1
  {
    Q.ConsumerKeeps(ring);
  }

  lemma SubmitKeeps(s: System, cmd: OrderCommand)
    requires s.Inv()
    ensures Submitted(s, cmd).Inv()
  {
    hide RingsInv, BooksInv, PushedRouted, Ids.Supply.Inv;
  }

  lemma BeginKeeps(s: System)
    requires s.Inv()
    ensures Next(s, BeginShutdown).Inv()
  {
    hide RingsInv, BooksInv, PushedRouted, RoutesInv, Ids.Supply.Inv;
    CountNone(seq(|s.rings|, _ => false));
  }

  /** Replacing one ring by one with the same popped log and routed contents. */
  lemma RingReplaced(s: System, a: nat, ring: CommandRing, item: OrderCommand, program: Program)
    requires s.Inv() && a < |s.rings| && ring.Inv() && ring.popped == s.rings[a].popped &&
             WorkerInv(s.workers[a], ring.popped)
    requires ring.pushed == s.rings[a].pushed || (ring.pushed == s.rings[a].pushed + [item] &&
                                                  Routed(s.router, a, item))
    requires ProgramInv(program, s.rings[a := ring], s.router)
    ensures s.(rings := s.rings[a := ring], program := program).Inv()
  {
    hide Ids.Supply.Inv, ProgramInv, RoutesInv, RingsInv, BooksInv;
    var rings := s.rings[a := ring];
    SameForBooks(s.rings, rings, s.workers, s.logs, s.books, s.supply.desks);
    SameForWorkers(s.rings, rings, a, s.workers);
    forall w, c | 0 <= w < |rings| && c in rings[w].pushed ensures Routed(s.router, w, c) {
      if w == a && c !in s.rings[a].pushed {
        assert c == item;
      }
    }
  }

  lemma SameForBooks(rings: seq<CommandRing>, rings': seq<CommandRing>, workers: seq<Worker>, logs: map<Key, seq<Step>>,
                     books: map<Key, SourceBook>, desks: map<Key, Ids.Desk>)
    requires |workers| == |rings| == |rings'| && BooksInv(logs, books, desks, rings, workers)
    requires forall w :: 0 <= w < |rings| ==> rings[w].popped <= rings'[w].popped
    ensures BooksInv(logs, books, desks, rings', workers)
  {
    hide KeyInv;
    forall k <- logs ensures KeyInv(k, logs[k], books[k], desks[k].issued, rings'[k.worker].popped,
                                    workers[k.worker].processed) {
      KeySame(k, logs[k], books[k], desks[k].issued, rings[k.worker].popped, rings'[k.worker].popped,
              workers[k.worker].processed);
    }
  }

  lemma KeySame(k: Key, log: seq<Step>, book: SourceBook, issued: seq<OrderId>,
                popped: seq<OrderCommand>, popped': seq<OrderCommand>, n: nat)
    requires KeyInv(k, log, book, issued, popped, n) && popped <= popped'
    ensures KeyInv(k, log, book, issued, popped', n)
  {
    assert popped'[..n] == popped[..n];
  }

  lemma SameForWorkers(rings: seq<CommandRing>, rings': seq<CommandRing>, a: nat, workers: seq<Worker>)
    requires |workers| == |rings| && RingsInv(rings, workers) && a < |rings| && |rings'| == |rings|
    requires rings'[a].Inv() && WorkerInv(workers[a], rings'[a].popped) && rings' == rings[a := rings'[a]]
    ensures RingsInv(rings', workers)
  {
    hide Q.Ring.Inv, WorkerInv;
  }

  lemma SubmittingProgram(rings: seq<CommandRing>, router: map<Instrument, nat>, a: nat, cmd: OrderCommand,
                          ring: CommandRing)
    requires ProgramInv(Submitting(a, cmd), rings, router) && Carries(ring, cmd)
    ensures ProgramInv(if ring.producer.PIdle? then Ready else Submitting(a, cmd), rings[a := ring], router)
  {
  }

  lemma StoppingProgram(rings: seq<CommandRing>, router: map<Instrument, nat>, sent: seq<bool>, count: nat, i: nat,
                        base: seq<seq<OrderCommand>>, ring: CommandRing)
    requires ProgramInv(Stopping(sent, count, i, base), rings, router) && i < |rings| && !sent[i]
    requires Carries(ring, POISON)
    requires ring.pushed == if ring.producer == Q.PIdle(true) then rings[i].pushed + [POISON] else rings[i].pushed
    ensures ProgramInv(if !ring.producer.PIdle? then Stopping(sent, count, i, base)
                       else if ring.producer.ok then Stopping(sent[i := true], count + 1, i + 1, base)
                       else Stopping(sent, count, i + 1, base), rings[i := ring], router)
  {
    hide Count, PoisonFor;
    CountSet(sent, i);
    PoisonAdded(rings, base, sent, i, ring);
  }

  lemma PoisonAdded(rings: seq<CommandRing>, base: seq<seq<OrderCommand>>, sent: seq<bool>, i: nat, ring: CommandRing)
    requires |rings| == |base| == |sent| && i < |rings| && PoisonFor(rings, base, sent) && !sent[i]
    ensures ring.pushed == rings[i].pushed ==> PoisonFor(rings[i := ring], base, sent)
    ensures ring.pushed == rings[i].pushed + [POISON] ==> PoisonFor(rings[i := ring], base, sent[i := true])
  {
  }

  lemma ProgramReplaced(s: System, program: Program)
    requires s.Inv() && ProgramInv(program, s.rings, s.router)
    ensures s.(program := program).Inv()
  {
    hide RingsInv, BooksInv, PushedRouted, RoutesInv, Ids.Supply.Inv, ProgramInv;
  }

  lemma RingOf(s: System, w: nat)
    requires s.Inv() && w < |s.rings|
    ensures s.rings[w].Inv() && |s.workers| == |s.rings| && WorkerInv(s.workers[w], s.rings[w].popped)
  {
  }

  lemma SubmittingKeeps(s: System)
    requires s.Inv() && s.program.Submitting?
    ensures Produced(s).Inv()
  {
    hide RingsInv, BooksInv, PushedRouted, RoutesInv, Ids.Supply.Inv, Q.Ring.Inv, Q.ProducerStep, WorkerInv;
    var w, cmd := s.program.w, s.program.cmd;
    RingOf(s, w);
    var ring := Q.ProducerStep(s.rings[w], cmd);
    PushStep(s.rings[w], cmd);
    SubmittingProgram(s.rings, s.router, w, cmd, ring);
    RingReplaced(s, w, ring, cmd, if ring.producer.PIdle? then Ready else s.program);
  }

  lemma StoppingKeeps(s: System)
    requires s.Inv() && s.program.Stopping?
    ensures Produced(s).Inv()
  {
    hide RingsInv, BooksInv, PushedRouted, RoutesInv, Ids.Supply.Inv, Q.Ring.Inv, Q.ProducerStep, WorkerInv;
    var Stopping(sent, count, i, base) := s.program;
    if i == |s.rings| {
      CountAll(sent);
      ProgramReplaced(s, if count == |s.rings| then Finished(base) else Stopping(sent, count, 0, base));
    } else if sent[i] {
      ProgramReplaced(s, Stopping(sent, count, i + 1, base));
    } else {
      PoisonKeeps(s);
    }
  }

  lemma PoisonKeeps(s: System)
    requires s.Inv() && s.program.Stopping? && s.program.i < |s.rings| == |s.program.sent| &&
             !s.program.sent[s.program.i]
    ensures Produced(s).Inv()
  {
    hide RingsInv, BooksInv, PushedRouted, RoutesInv, Ids.Supply.Inv, Q.Ring.Inv, Q.ProducerStep, WorkerInv;
    var Stopping(sent, count, i, base) := s.program;
    RingOf(s, i);
    var ring := Q.ProducerStep(s.rings[i], POISON);
    PushStep(s.rings[i], POISON);
    StoppingProgram(s.rings, s.router, sent, count, i, base, ring);
    RingReplaced(s, i, ring, POISON, Produced(s).program);
  }

  lemma ProducedKeeps(s: System)
    requires s.Inv()
    ensures Produced(s).Inv()
  {
    hide System.Inv;
    if s.program.Submitting? {
      SubmittingKeeps(s);
    } else if s.program.Stopping? {
      StoppingKeeps(s);
    }
  }

  lemma ProgramSame(program: Program, rings: seq<CommandRing>, rings': seq<CommandRing>, router: map<Instrument, nat>)
    requires ProgramInv(program, rings, router) && |rings'| == |rings|
    requires forall w :: 0 <= w < |rings| ==>
               rings'[w].pushed == rings[w].pushed && rings'[w].producer == rings[w].producer
    ensures ProgramInv(program, rings', router)
  {
  }

  lemma ConsumedKeeps(s: System, w: nat)
    requires s.Inv() && w < |s.rings| && !s.workers[w].stopped && !Pending(s, w)
    ensures s.(rings := s.rings[w := Q.ConsumerStep(s.rings[w])]).Inv()
  {
    hide RingsInv, BooksInv, RoutesInv, Ids.Supply.Inv, ProgramInv, Q.Ring.Inv, Q.ConsumerStep, Routed;
    RingOf(s, w);
    PopStep(s.rings[w]);
    var rings := s.rings[w := Q.ConsumerStep(s.rings[w])];
    assert forall v :: 0 <= v < |rings| ==> rings[v].pushed == s.rings[v].pushed;
    ProgramSame(s.program, s.rings, rings, s.router);
    SameForWorkers(s.rings, rings, w, s.workers);
    SameForBooks(s.rings, rings, s.workers, s.logs, s.books, s.supply.desks);
  }

  lemma ProjectSnoc(cmds: seq<OrderCommand>, n: nat, x: Instrument)
    requires n < |cmds|
    ensures Project(cmds[..n + 1], x) == Project(cmds[..n], x) +
            if cmds[n].kind != SHUTDOWN && cmds[n].order.instrument == x then [cmds[n]] else []
  {
    assert cmds[..n + 1][..n] == cmds[..n];
  }

  /** The book that gets the command. */
  lemma KeyApplied(s: System, k: Key, step: Step, issued: seq<OrderId>, popped: seq<OrderCommand>, n: nat)
    requires n < |popped| && popped[n] == step.cmd && step.cmd.kind != SHUTDOWN &&
             step.cmd.order.instrument == k.instrument
    requires k in s.logs && k in s.books && k in s.supply.desks
    requires KeyInv(k, s.logs[k], s.books[k], s.supply.desks[k].issued, popped, n)
    requires step.cmd.kind == ADD ==> step.id !in AddedIds(s.logs[k])
    requires s.books[k].Defined? ==>
               s.books[k].value.Inv() && (step.cmd.kind == ADD ==> step.id !in s.books[k].value.orders)
    requires issued == s.supply.desks[k].issued + if step.cmd.kind == ADD then [step.id] else []
    ensures KeyInv(k, s.logs[k] + [step], ApplySource(s.books[k], step), issued, popped, n + 1)
  {
    var log := s.logs[k];
    AddedSnoc(log, step);
    ProjectSnoc(popped, n, k.instrument);
    assert (log + [step])[..|log|] == log;
    assert Commands(log + [step]) == Commands(log) + [step.cmd];
  }

  /** Every other book. */
  lemma KeySkipped(k: Key, log: seq<Step>, book: SourceBook, issued: seq<OrderId>, popped: seq<OrderCommand>, n: nat)
    requires n < |popped| && KeyInv(k, log, book, issued, popped, n)
    requires popped[n].kind == SHUTDOWN || popped[n].order.instrument != k.instrument
    ensures KeyInv(k, log, book, issued, popped, n + 1)
  {
    ProjectSnoc(popped, n, k.instrument);
  }

  lemma KeysOf(s: System)
    requires s.Inv()
    ensures s.supply.Inv() && s.supply.desks.Keys == s.logs.Keys && s.books.Keys == s.logs.Keys
    ensures |s.workers| == |s.rings|
  {
  }

  lemma KeyOf(s: System, k: Key)
    requires s.Inv() && k in s.logs
    ensures k in s.books && k in s.supply.desks && k.worker < |s.rings| == |s.workers|
    ensures KeyInv(k, s.logs[k], s.books[k], s.supply.desks[k].issued, s.rings[k.worker].popped,
                   s.workers[k.worker].processed)
  {
  }

  /** A command that no book here is for. */
  lemma ProcessedNone(s: System, w: nat)
    requires s.Inv() && Pending(s, w) && CanStep(s, WorkerTurn(w))
    requires var cmd := s.rings[w].popped[s.workers[w].processed];
             cmd.kind == SHUTDOWN || Key(w, cmd.order.instrument) !in s.logs
    ensures var n := s.workers[w].processed;
            Processed(s, w) == s.(workers := s.workers[w := Worker(n + 1, s.rings[w].popped[n].kind == SHUTDOWN)])
  {
    hide System.Inv;
  }

  /** A command for the book of `x`, which takes `step`, and has drawn an id from the supply for an ADD. */
  lemma ProcessedOne(s: System, w: nat) returns (x: Key, step: Step, supply: Ids.Supply<Key>)
    requires s.Inv() && Pending(s, w) && CanStep(s, WorkerTurn(w))
    requires var cmd := s.rings[w].popped[s.workers[w].processed];
             cmd.kind != SHUTDOWN && Key(w, cmd.order.instrument) in s.logs
    ensures var n := s.workers[w].processed;
            && x == Key(w, s.rings[w].popped[n].order.instrument) && step.cmd == s.rings[w].popped[n]
            && x in s.logs && x in s.books && x in s.supply.desks && s.supply.Inv()
            && (if step.cmd.kind == ADD then s.supply.Fits(x) && (supply, step.id) == Ids.Issue(s.supply, x)
                else supply == s.supply)
            && (s.books[x].Defined? ==>
                  s.books[x].value.Inv() && (step.cmd.kind == ADD ==> step.id !in s.books[x].value.orders))
            && (step.cmd.kind == ADD ==> step.id !in AddedIds(s.logs[x]))
            && Processed(s, w) ==
               System(s.rings, s.workers[w := Worker(n + 1, false)], s.router, supply,
                      s.logs[x := s.logs[x] + [step]], s.books[x := ApplySource(s.books[x], step)], s.program)
  {
    KeysOf(s);
    hide System.Inv, Ids.Issue, ApplySource, AddedIds, Ids.Supply.Inv;
    var cmd := s.rings[w].popped[s.workers[w].processed];
    x := Key(w, cmd.order.instrument);
    supply, step := s.supply, Step(cmd, cmd.id);
    if cmd.kind == ADD {
      var (supply', id) := Ids.Issue(s.supply, x);
      supply, step := supply', Step(cmd, id);
    }
    StepFits(s, x, step);
  }

  /** What a processed command changes outside the books. */
  lemma ProcessedShape(s: System, w: nat)
    requires s.Inv() && Pending(s, w) && CanStep(s, WorkerTurn(w))
    ensures var n, s' := s.workers[w].processed, Processed(s, w);
            var cmd := s.rings[w].popped[n];
            && s'.rings == s.rings && s'.router == s.router && s'.program == s.program
            && s'.workers == s.workers[w := Worker(n + 1, cmd.kind == SHUTDOWN)]
            && s'.supply.Inv() && s'.logs.Keys == s.logs.Keys && s'.books.Keys == s.logs.Keys &&
               s'.supply.desks.Keys == s.logs.Keys
            && (forall k <- s.logs :: k != Key(w, cmd.order.instrument) || cmd.kind == SHUTDOWN ==>
                  s'.logs[k] == s.logs[k] && s'.books[k] == s.books[k] && s'.supply.desks[k] == s.supply.desks[k])
  {
    hide System.Inv, Ids.Supply.Inv, Ids.Issue, ApplySource, Processed, CanStep, AddedIds;
    KeysOf(s);
    var cmd := s.rings[w].popped[s.workers[w].processed];
    if cmd.kind == SHUTDOWN || Key(w, cmd.order.instrument) !in s.logs {
      ProcessedNone(s, w);
    } else {
      var x, step, supply := ProcessedOne(s, w);
      if cmd.kind == ADD {
        Ids.IssueKeeps(s.supply, x);
      }
      PutKeys(s.logs, x, s.logs[x] + [step]);
      PutKeys(s.books, x, ApplySource(s.books[x], step));
    }
  }

  lemma PutKeys<V>(m: map<Key, V>, x: Key, v: V)
    requires x in m
    ensures m[x := v].Keys == m.Keys && forall k <- m :: k != x ==> m[x := v][k] == m[k]
  {
  }

  /** What it does to the book concerned. */
  lemma ProcessedBook(s: System, w: nat)
    requires s.Inv() && Pending(s, w) && CanStep(s, WorkerTurn(w))
    requires var cmd := s.rings[w].popped[s.workers[w].processed];
             cmd.kind != SHUTDOWN && Key(w, cmd.order.instrument) in s.logs
    ensures var n, s' := s.workers[w].processed, Processed(s, w);
            var x := Key(w, s.rings[w].popped[n].order.instrument);
            && x in s'.logs && x in s'.books && x in s'.supply.desks
            && KeyInv(x, s'.logs[x], s'.books[x], s'.supply.desks[x].issued, s.rings[w].popped, n + 1)
  {
    hide System.Inv, Ids.Supply.Inv, Ids.Issue, KeyInv, ApplySource, Processed, CanStep, AddedIds;
    KeysOf(s);
    var n := s.workers[w].processed;
    var x, step, supply := ProcessedOne(s, w);
    KeyOf(s, x);
    if step.cmd.kind == ADD {
      Ids.IssueKeeps(s.supply, x);
    }
    KeyApplied(s, x, step, supply.desks[x].issued, s.rings[w].popped, n);
  }

  lemma ProcessedBooks(s: System, w: nat)
    requires s.Inv() && Pending(s, w) && CanStep(s, WorkerTurn(w))
    ensures var s' := Processed(s, w);
            |s'.workers| == |s.rings| && BooksInv(s'.logs, s'.books, s'.supply.desks, s.rings, s'.workers)
  {
    hide System.Inv, KeyInv, Processed, CanStep;
    KeysOf(s);
    ProcessedShape(s, w);
    forall k <- s.logs
      ensures k.worker < |s.rings|
      ensures var s' := Processed(s, w);
              KeyInv(k, s'.logs[k], s'.books[k], s'.supply.desks[k].issued, s.rings[k.worker].popped,
                     s'.workers[k.worker].processed)
    {
      ProcessedKey(s, w, k);
    }
  }

  lemma ProcessedKey(s: System, w: nat, k: Key)
    requires s.Inv() && Pending(s, w) && CanStep(s, WorkerTurn(w)) && k in s.logs
    ensures var s' := Processed(s, w);
            && k in s'.logs && k in s'.books && k in s'.supply.desks && k.worker < |s'.workers| == |s.rings|
            && KeyInv(k, s'.logs[k], s'.books[k], s'.supply.desks[k].issued, s.rings[k.worker].popped,
                      s'.workers[k.worker].processed)
  {
    hide System.Inv, KeyInv, Processed, CanStep;
    ProcessedShape(s, w);
    KeyOf(s, k);
    var cmd := s.rings[w].popped[s.workers[w].processed];
    if k == Key(w, cmd.order.instrument) && cmd.kind != SHUTDOWN {
      ProcessedBook(s, w);
    } else if k.worker == w {
      KeySkipped(k, s.logs[k], s.books[k], s.supply.desks[k].issued, s.rings[w].popped, s.workers[w].processed);
    }
  }

  lemma ProcessedKeeps(s: System, w: nat)
    requires s.Inv() && Pending(s, w) && CanStep(s, WorkerTurn(w))
    ensures Processed(s, w).Inv()
  {
    hide PushedRouted, RoutesInv, ProgramInv, Ids.Supply.Inv, BooksInv, Processed, CanStep, Q.Ring.Inv;
    ProcessedShape(s, w);
    ProcessedBooks(s, w);
  }

  lemma NextKeeps(s: System, turn: Turn)
    requires s.Inv() && CanStep(s, turn)
    ensures Next(s, turn).Inv()
  {
    hide System.Inv;
    match turn
    case Submit(cmd) => SubmitKeeps(s, cmd);
    case BeginShutdown => BeginKeeps(s);
    case ProducerTurn => ProducedKeeps(s);
    case WorkerTurn(w) =>
      KeysOf(s);
      if w < |s.rings| && !s.workers[w].stopped {
        if Pending(s, w) {
          ProcessedKeeps(s, w);
        } else {
          ConsumedKeeps(s, w);
        }
      }
  }

  // ---- whole runs ----

  ghost predicate CanRun(s: System, turns: seq<Turn>)
    requires s.Inv()
    decreases |turns|
  {
    turns == [] || (CanStep(s, turns[0]) && (NextKeeps(s, turns[0]); CanRun(Next(s, turns[0]), turns[1..])))
  }

  ghost function Run(s: System, turns: seq<Turn>): (r: System)
    requires s.Inv() && CanRun(s, turns)
    ensures r.Inv()
    decreases |turns|
  {
    if turns == [] then s else (NextKeeps(s, turns[0]); Run(Next(s, turns[0]), turns[1..]))
  }

  /** The books in the order in which the first `m` workers' contexts make them. */
  function BookKeys(instruments: seq<Instrument>, n: nat, m: nat): seq<Key>
    requires n >= 1
  {
    if m == 0 then []
    else
      var dealt := Routing.Dealt(instruments, n, m - 1);
      BookKeys(instruments, n, m - 1) + seq(|dealt|, i requires 0 <= i < |dealt| => Key(m - 1, dealt[i]))
  }

  lemma {:induction false} BookKeysDealt(instruments: seq<Instrument>, n: nat, m: nat, k: Key)
    requires n >= 1
    ensures k in BookKeys(instruments, n, m) <==>
              k.worker < m && k.instrument in Routing.Dealt(instruments, n, k.worker)
  {
    if m > 0 {
      var dealt := Routing.Dealt(instruments, n, m - 1);
      var last := seq(|dealt|, i requires 0 <= i < |dealt| => Key(m - 1, dealt[i]));
      BookKeysDealt(instruments, n, m - 1, k);
      assert k in last <==> k.worker == m - 1 && k.instrument in dealt by {
        if k.worker == m - 1 && k.instrument in dealt {
          var i :| 0 <= i < |dealt| && dealt[i] == k.instrument;
          assert last[i] == k;
        }
      }
    }
  }

  /** They are made worker by worker, and each worker's in the order of the list. */
  lemma {:induction false} BookKeysAt(instruments: seq<Instrument>, n: nat, m: nat, w: nat, j: nat)
    requires n >= 1 && w < m <= n && w + j * n < |instruments|
    ensures |BookKeys(instruments, n, w)| + j < |BookKeys(instruments, n, m)|
    ensures BookKeys(instruments, n, m)[|BookKeys(instruments, n, w)| + j] == Key(w, instruments[w + j * n])
  {
    Routing.DealtInOrder(instruments, n, w, j);
    if w < m - 1 {
      BookKeysAt(instruments, n, m - 1, w, j);
    }
  }

  /** The engine as `build_order_routing_system` and the workers set it up: empty rings, and an empty
      book for every instrument a worker was dealt, each of which has fetched its first block of ids
      in turn. The counter must reach that far. */
  ghost predicate Initial(s: System, instruments: seq<Instrument>) {
    var n, blockSize := |s.rings|, s.supply.blockSize;
    && n >= 1 && s.router == Routing.Router(instruments, n)
    && s.workers == seq(n, _ => Worker(0, false))
    && (forall w :: 0 <= w < n ==> |s.rings[w].buffer| >= 1 && s.rings[w] == Q.Empty(s.rings[w].buffer))
    && s.logs == (map k | k in BookKeys(instruments, n, n) :: [])
    && s.books == (map k | k in BookKeys(instruments, n, n) :: Defined(EB.EMPTY))
    && blockSize >= 1 && FIRST_ORDER_ID + |BookKeys(instruments, n, n)| * blockSize < TWO_64
    && s.supply == Ids.OpenAll(Ids.Unopened(blockSize), BookKeys(instruments, n, n))
    && s.program == Ready
  }

  lemma InitialInv(s: System, instruments: seq<Instrument>)
    requires Initial(s, instruments)
    ensures s.Inv()
  {
    hide Ids.OpenAll, BookKeys, Routing.Router, Routing.Dealt, Ids.DeskInv, Ids.Separate;
    var n := |s.rings|;
    var keys := BookKeys(instruments, n, n);
    InitialSupply(s.supply.blockSize, keys);
    InitialRoutes(instruments, n);
    assert s.supply.desks.Keys == s.logs.Keys;
    forall k <- s.logs ensures k.worker < n && KeyInv(k, [], Defined(EB.EMPTY), [], [], 0) {
      BookKeysDealt(instruments, n, n, k);
      NothingProcessed(k);
    }
  }

  /** The book made at position `p` issues its first ids from the block number `p`. */
  lemma InitialDesk(s: System, instruments: seq<Instrument>, p: nat)
    requires Initial(s, instruments)
    requires var keys := BookKeys(instruments, |s.rings|, |s.rings|);
             p < |keys| && keys[p] !in keys[..p]
    ensures var k, size := BookKeys(instruments, |s.rings|, |s.rings|)[p], s.supply.blockSize;
            k in s.supply.desks && s.supply.desks[k] == Ids.Desk(1 + p * size, 1 + (p + 1) * size, [])
  {
    Ids.OpenAllAt(Ids.Unopened(s.supply.blockSize), BookKeys(instruments, |s.rings|, |s.rings|), p);
  }

  lemma NothingProcessed(k: Key)
    ensures KeyInv(k, [], Defined(EB.EMPTY), [], [], 0)
  {
    assert Commands([]) == [];
  }

  lemma InitialSupply(blockSize: nat, keys: seq<Key>)
    requires blockSize >= 1 && FIRST_ORDER_ID + |keys| * blockSize < TWO_64
    ensures var supply := Ids.OpenAll(Ids.Unopened(blockSize), keys);
            && supply.Inv() && (forall k :: k in supply.desks <==> k in keys)
            && (forall k <- supply.desks :: supply.desks[k].issued == [])
  {
    assert |keys| * blockSize >= 0;
    Ids.OpenAllKeeps(Ids.Unopened(blockSize), keys);
  }

  lemma InitialRoutes(instruments: seq<Instrument>, n: nat)
    requires n >= 1
    ensures RoutesInv(Routing.Router(instruments, n), n, set k | k in BookKeys(instruments, n, n))
  {
    Routing.RoutedToOwner(instruments, n);
    var router := Routing.Router(instruments, n);
    forall x <- router ensures Key(router[x], x) in BookKeys(instruments, n, n) {
      BookKeysDealt(instruments, n, n, Key(router[x], x));
    }
  }

  /** Under every interleaving each book has processed, in submission order, exactly the commands
      for its instrument among the first `processed` accepted ones, and is in the state that running
      them alone, with the ids it was issued, leads to in the source. On safe runs, and only there,
      that state is defined, and it is the price-time book's. */
  lemma EachBookSequential(s: System, turns: seq<Turn>, k: Key)
    requires s.Inv() && CanRun(s, turns) && k in Run(s, turns).logs
    ensures var r := Run(s, turns);
            && k.worker < |r.rings| && |r.workers| == |r.rings| && k in r.books
            && var accepted, done := r.rings[k.worker].pushed, r.workers[k.worker].processed;
               && done <= |accepted| && Commands(r.logs[k]) == Project(accepted[..done], k.instrument)
               && IdsFresh(r.logs[k]) && r.books[k] == Source(r.logs[k])
               && k in r.supply.desks && AddIds(r.logs[k]) == r.supply.desks[k].issued
               && Ids.Ascending(AddIds(r.logs[k]))
               && (r.books[k].Defined? <==> Safe(r.logs[k]))
               && (r.books[k].Defined? ==> Refinement.Flat(r.books[k].value.Queues()) == RunPT(r.logs[k]).0)
  {
    hide Source, Safe;
    var r := Run(s, turns);
    LogIsProjection(r, k);
    SourceRuns.RunRefines(r.logs[k]);
  }

  lemma LogIsProjection(r: System, k: Key)
    requires r.Inv() && k in r.logs
    ensures k.worker < |r.rings| && |r.workers| == |r.rings| && k in r.books
    ensures var accepted, done := r.rings[k.worker].pushed, r.workers[k.worker].processed;
            && done <= |accepted| && Commands(r.logs[k]) == Project(accepted[..done], k.instrument)
            && IdsFresh(r.logs[k]) && r.books[k] == Source(r.logs[k])
            && k in r.supply.desks && AddIds(r.logs[k]) == r.supply.desks[k].issued
            && Ids.Ascending(AddIds(r.logs[k]))
  {
    hide Ids.Supply.Inv, ProgramInv, Source, Project, RingsInv, BooksInv, PushedRouted, RoutesInv;
    KeyOf(r, k);
    RingOf(r, k.worker);
    var ring, done := r.rings[k.worker], r.workers[k.worker].processed;
    assert ring.popped[..done] == ring.pushed[..done];
    DeskOf(r, k);
  }

  lemma DeskOf(r: System, k: Key)
    requires r.Inv() && k in r.supply.desks
    ensures Ids.Ascending(r.supply.desks[k].issued)
  {
    assert Ids.DeskInv(r.supply.desks[k], r.supply.counter);
  }

  /** No two books ever register the same id, and none registers 0. A defined book has registered
      the ids of its ADDs and nothing else. */
  lemma IdsGloballyUnique(s: System, turns: seq<Turn>, k: Key, l: Key)
    requires s.Inv() && CanRun(s, turns)
    requires k in Run(s, turns).logs && l in Run(s, turns).logs
    ensures var r := Run(s, turns);
            && (k != l ==> AddedIds(r.logs[k]) !! AddedIds(r.logs[l]))
            && DEFAULT_ORDER_ID !in AddedIds(r.logs[k])
            && k in r.books && (r.books[k].Defined? ==> r.books[k].value.orders.Keys == AddedIds(r.logs[k]))
  {
    var r := Run(s, turns);
    KeyOf(r, k);
    KeyOf(r, l);
    AddIdsListed(r.logs[k]);
    AddIdsListed(r.logs[l]);
    assert Ids.DeskInv(r.supply.desks[k], r.supply.counter);
    assert k != l ==> Ids.Separate(r.supply.desks[k], r.supply.desks[l]);
    if r.books[k].Defined? {
      SameOrders(r.books[k].value, r.logs[k]);
    }
  }

  /** The dispatch never misses: the worker has a book for every accepted command. */
  lemma NothingDropped(s: System, turns: seq<Turn>, w: nat, c: OrderCommand)
    requires s.Inv() && CanRun(s, turns)
    requires w < |Run(s, turns).rings| && c in Run(s, turns).rings[w].pushed && c.kind != SHUTDOWN
    ensures Key(w, c.order.instrument) in Run(s, turns).logs
  {
    var r := Run(s, turns);
    assert Routed(r.router, w, c);
  }

  /** When `submit_all_shutdown_commands` has returned, every ring has received exactly one SHUTDOWN
      behind all commands accepted before. A worker that has stopped has processed all of those. */
  lemma ShutdownDrains(s: System, turns: seq<Turn>, w: nat)
    requires s.Inv() && CanRun(s, turns) && Run(s, turns).program.Finished?
    requires w < |Run(s, turns).rings|
    ensures var r := Run(s, turns);
            && |r.program.base| == |r.rings| == |r.workers|
            && r.rings[w].pushed == r.program.base[w] + [POISON]
            && (r.workers[w].stopped && (forall c <- r.program.base[w] :: c.kind != SHUTDOWN) ==>
                  forall k <- r.logs :: k.worker == w ==>
                    Commands(r.logs[k]) == Project(r.program.base[w], k.instrument))
  {
    var r := Run(s, turns);
    FinishedKnown(r, w);
    hide System.Inv, KeyInv, WorkerInv, Q.Ring.Inv, Project, Commands;
    var base := r.program.base[w];
    if r.workers[w].stopped && forall c <- base :: c.kind != SHUTDOWN {
      StoppedKnown(r, w, base);
      forall k <- r.logs | k.worker == w ensures Commands(r.logs[k]) == Project(base, k.instrument) {
        KeyOf(r, k);
        DrainedLog(k, r.logs[k], r.books[k], r.supply.desks[k].issued, base);
      }
    }
  }

  lemma FinishedKnown(r: System, w: nat)
    requires r.Inv() && r.program.Finished? && w < |r.rings|
    ensures |r.program.base| == |r.rings| == |r.workers|
    ensures r.rings[w].pushed == r.program.base[w] + [POISON]
  {
  }

  /** A stopped worker has popped and processed everything up to its SHUTDOWN. */
  lemma StoppedKnown(r: System, w: nat, base: seq<OrderCommand>)
    requires r.Inv() && w < |r.rings| == |r.workers| && r.workers[w].stopped
    requires r.rings[w].pushed == base + [POISON] && forall c <- base :: c.kind != SHUTDOWN
    ensures r.rings[w].popped == base + [POISON] && r.workers[w].processed == |base| + 1
  {
    hide BooksInv, PushedRouted, RoutesInv, Ids.Supply.Inv, ProgramInv;
    RingOf(r, w);
    var ring, n := r.rings[w], r.workers[w].processed;
    assert ring.popped == ring.pushed[..n] && ring.popped[n - 1] == ring.pushed[n - 1];
    OnlyLast(base, POISON, n - 1);
  }

  lemma DrainedLog(k: Key, log: seq<Step>, book: SourceBook, issued: seq<OrderId>, base: seq<OrderCommand>)
    requires KeyInv(k, log, book, issued, base + [POISON], |base| + 1)
    ensures Commands(log) == Project(base, k.instrument)
  {
    var popped := base + [POISON];
    ProjectSnoc(popped, |base|, k.instrument);
    assert popped[..|base|] == base && popped[..|base| + 1] == popped;
  }

  lemma OnlyLast(base: seq<OrderCommand>, c: OrderCommand, i: nat)
    requires i <= |base| && (base + [c])[i].kind == SHUTDOWN && forall b <- base :: b.kind != SHUTDOWN
    ensures i == |base|
  {
  }
}
