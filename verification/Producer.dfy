/** The producer object: routing a command to the queue of its worker (include/producer.h). */
module Producers {
  import opened Core
  import opened Orders
  import opened SpscQueue

  type CommandQueue = SPSCQueue<OrderCommand>

  const SHUTDOWN_COMMAND := OrderCommand(SHUTDOWN, ClientOrder("", BUY, 0.0, 0), DEFAULT_ORDER_ID)

  /** No two workers share a queue or a buffer. */
  ghost predicate Separate(queues: seq<CommandQueue>)
  {
    && (forall i, j :: 0 <= i < j < |queues| ==> queues[i] != queues[j] && queues[i].buffer != queues[j].buffer)
  }

  class Producer {
    const queues: seq<CommandQueue>
    const instrumentRouter: map<Instrument, nat>

    ghost predicate Valid()
      reads queues, set q | q in queues :: q.buffer
    {
      && Separate(queues) && (forall q <- queues :: q.Valid())
      && (forall x <- instrumentRouter :: instrumentRouter[x] < |queues|)
    }

    ghost function Buffers(): set<array<OrderCommand>> {
      set q | q in queues :: q.buffer
    }

    constructor (queues: seq<CommandQueue>, instrumentRouter: map<Instrument, nat>)
      requires Separate(queues) && (forall q <- queues :: q.Valid())
      requires forall x <- instrumentRouter :: instrumentRouter[x] < |queues|
      ensures Valid() && this.queues == queues && this.instrumentRouter == instrumentRouter
    {
      this.queues, this.instrumentRouter := queues, instrumentRouter;
    }

    /** A command is accepted exactly if its instrument is routed and that worker's queue has room;
        then it is last there. No other queue is touched. */
    method Submit(cmd: OrderCommand) returns (ok: bool)
      requires Valid()
      modifies queues, Buffers()
      ensures Valid()
      ensures ok <==> cmd.order.instrument in instrumentRouter &&
                      old(HasRoom(queues[instrumentRouter[cmd.order.instrument]]))
      ensures forall i :: 0 <= i < |queues| ==>
                queues[i].ring.popped == old(queues[i].ring.popped) &&
                queues[i].ring.pushed == old(queues[i].ring.pushed) +
                  if ok && i == instrumentRouter[cmd.order.instrument] then [cmd] else []
    {
      if cmd.order.instrument !in instrumentRouter {
        return false;
      }
      var idx := instrumentRouter[cmd.order.instrument];
      ok := PushAt(idx, cmd);
    }

    /** Pushing to one queue. */
    method PushAt(idx: nat, cmd: OrderCommand) returns (ok: bool)
      requires Valid() && idx < |queues|
      modifies queues[idx], queues[idx].buffer
      ensures Valid()
      ensures ok <==> old(HasRoom(queues[idx]))
      ensures queues[idx].ring.popped == old(queues[idx].ring.popped)
      ensures queues[idx].ring.pushed == old(queues[idx].ring.pushed) + if ok then [cmd] else []
      ensures forall i :: 0 <= i < |queues| && i != idx ==> queues[i].ring == old(queues[i].ring)
    {
      hide Ring.Inv;
      ok := queues[idx].Push(cmd);
    }

    /** One pass of the loop in `submit_all_shutdown_commands`: every queue that has room and has not
        got its SHUTDOWN yet gets it now, and no queue gets a second one. */
    method ShutdownPass(submitted: seq<bool>, shutdownCount: nat) returns (submitted': seq<bool>, shutdownCount': nat)
      requires Valid() && |submitted| == |queues| && shutdownCount == Count(submitted)
      modifies queues, Buffers()
      ensures Valid() && |submitted'| == |queues| && shutdownCount' == Count(submitted')
      ensures forall i :: 0 <= i < |queues| ==>
                && (submitted'[i] <==> submitted[i] || old(HasRoom(queues[i])))
                && queues[i].ring.popped == old(queues[i].ring.popped)
                && queues[i].ring.pushed == old(queues[i].ring.pushed) +
                   if submitted'[i] && !submitted[i] then [SHUTDOWN_COMMAND] else []
      ensures shutdownCount' == |queues| <==> forall i :: 0 <= i < |queues| ==> submitted'[i]
    {
      hide Ring.Inv;
      submitted', shutdownCount' := submitted, shutdownCount;
      for i := 0 to |queues|
        invariant Valid() && |submitted'| == |queues| && shutdownCount' == Count(submitted')
        invariant forall k :: i <= k < |queues| ==>
                    submitted'[k] == submitted[k] && queues[k].ring == old(queues[k].ring)
        invariant forall k :: 0 <= k < i ==>
                    && (submitted'[k] <==> submitted[k] || old(HasRoom(queues[k])))
                    && queues[k].ring.popped == old(queues[k].ring.popped)
                    && queues[k].ring.pushed == old(queues[k].ring.pushed) +
                       if submitted'[k] && !submitted[k] then [SHUTDOWN_COMMAND] else []
      {
        if submitted'[i] {
          continue;
        }
        var shutdownSubmitted := PushAt(i, SHUTDOWN_COMMAND);
        if shutdownSubmitted {
          CountSet(submitted', i);
          submitted' := submitted'[i := true];
          shutdownCount' := shutdownCount' + 1;
        }
      }
      CountAll(submitted');
    }
  }

  /** The ring is not full. */
  ghost predicate HasRoom(queue: CommandQueue)
    reads queue
  {
    queue.ring.InFlight() < queue.buffer.Length - 1
  }

  function Count(flags: seq<bool>): nat {
    if flags == [] then 0 else (if flags[0] then 1 else 0) + Count(flags[1..])
  }

  lemma {:induction false} CountSet(flags: seq<bool>, i: nat)
    requires i < |flags| && !flags[i]
    ensures Count(flags[i := true]) == Count(flags) + 1
  {
    if i > 0 {
      assert flags[i := true][1..] == flags[1..][i - 1 := true];
      CountSet(flags[1..], i - 1);
    } else {
      assert flags[i := true][1..] == flags[1..];
    }
  }

  lemma {:induction false} CountAll(flags: seq<bool>)
    ensures Count(flags) <= |flags|
    ensures Count(flags) == |flags| <==> forall i :: 0 <= i < |flags| ==> flags[i]
  {
    if flags != [] {
      CountAll(flags[1..]);
      assert forall i :: 1 <= i < |flags| ==> flags[i] == flags[1..][i - 1];
    }
  }

  lemma {:induction false} CountNone(flags: seq<bool>)
    requires forall i :: 0 <= i < |flags| ==> !flags[i]
    ensures Count(flags) == 0
  {
    if flags != [] {
      CountNone(flags[1..]);
    }
  }
}
