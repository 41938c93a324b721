/** What the threads of the engine get done: a submitted command is in its ring after five steps of
    the producer, a command in a ring is processed after six of its worker, whatever the others do in
    between, and shutting down comes to an end where the rings have room. */
module Progress {
  import opened Core
  import opened Orders
  import opened Runs
  import opened SourceRuns
  import opened Producers
  import opened Pipeline
  import Q = SpscQueue
  import Ids = IdSupply

  // ---- turns and gaps ----

  ghost predicate WorkersOnly(turns: seq<Turn>) {
    forall t <- turns :: t.WorkerTurn?
  }

  /** After each gap comes the same turn. */
  function Interleaved(turn: Turn, gaps: seq<seq<Turn>>): seq<Turn> {
    if gaps == [] then [] else gaps[0] + [turn] + Interleaved(turn, gaps[1..])
  }

  lemma {:induction false} RunConcat(s: System, a: seq<Turn>, b: seq<Turn>)
    requires s.Inv()
    ensures CanRun(s, a + b) <==> CanRun(s, a) && CanRun(Run(s, a), b)
    ensures CanRun(s, a + b) ==> Run(s, a + b) == Run(Run(s, a), b)
    decreases |a|
  {
    if a == [] {
      assert a + b == b;
    } else {
      assert (a + b)[0] == a[0] && (a + b)[1..] == a[1..] + b;
      if CanStep(s, a[0]) {
        NextKeeps(s, a[0]);
        RunConcat(Next(s, a[0]), a[1..], b);
      }
    }
  }

  /** A gap, the turn after it, and the rest. */
  lemma Unfold(s: System, turn: Turn, gaps: seq<seq<Turn>>)
    requires s.Inv() && gaps != [] && CanRun(s, Interleaved(turn, gaps))
    ensures CanRun(s, gaps[0])
    ensures var t := Run(s, gaps[0]);
            && CanStep(t, turn) && Next(t, turn).Inv() && CanRun(Next(t, turn), Interleaved(turn, gaps[1..]))
            && Run(s, Interleaved(turn, gaps)) == Run(Next(t, turn), Interleaved(turn, gaps[1..]))
  {
    var rest := Interleaved(turn, gaps[1..]);
    assert gaps[0] + [turn] + rest == gaps[0] + ([turn] + rest);
    RunConcat(s, gaps[0], [turn] + rest);
    var t := Run(s, gaps[0]);
    assert ([turn] + rest)[0] == turn && ([turn] + rest)[1..] == rest;
    NextKeeps(t, turn);
  }

  /** After `k` rounds of a gap and `turn` the system is in state `r`, and goes on from there. */
  ghost predicate Leads(s: System, turn: Turn, gaps: seq<seq<Turn>>, k: nat, r: System)
    requires s.Inv() && CanRun(s, Interleaved(turn, gaps))
  {
    && k <= |gaps| && r.Inv() && CanRun(r, Interleaved(turn, gaps[k..]))
    && Run(s, Interleaved(turn, gaps)) == Run(r, Interleaved(turn, gaps[k..]))
  }

  lemma LeadsOn(s: System, turn: Turn, gaps: seq<seq<Turn>>, k: nat, r: System, l: nat, r': System)
    requires s.Inv() && CanRun(s, Interleaved(turn, gaps)) && Leads(s, turn, gaps, k, r)
    requires Leads(r, turn, gaps[k..], l, r')
    ensures Leads(s, turn, gaps, k + l, r')
  {
    assert gaps[k..][l..] == gaps[k + l..];
  }

  /** All rounds taken. */
  lemma LeadsTo(s: System, turn: Turn, gaps: seq<seq<Turn>>, k: nat, r: System)
    requires s.Inv() && CanRun(s, Interleaved(turn, gaps)) && Leads(s, turn, gaps, k, r) && k == |gaps|
    ensures Run(s, Interleaved(turn, gaps)) == r
  {
    assert gaps[k..] == [];
  }

  // ---- what a turn leaves alone ----

  /** Another worker's turn, or another thread's view of this one's: rings keep what was pushed, and
      only the ring and the books of worker `v` change. */
  ghost predicate OnlyWorker(s: System, v: nat, r: System) {
    && |r.rings| == |s.rings| == |s.workers| == |r.workers|
    && r.program == s.program && r.router == s.router && r.logs.Keys == s.logs.Keys
    && r.books.Keys == s.books.Keys == s.logs.Keys
    && (forall w :: 0 <= w < |s.rings| ==>
          && r.rings[w].producer == s.rings[w].producer && r.rings[w].pushed == s.rings[w].pushed
          && |r.rings[w].buffer| == |s.rings[w].buffer| && s.rings[w].popped <= r.rings[w].popped)
    && (forall w :: 0 <= w < |s.rings| && w != v ==> r.rings[w] == s.rings[w] && r.workers[w] == s.workers[w])
    && (forall k <- s.logs :: k.worker != v ==> r.logs[k] == s.logs[k] && r.books[k] == s.books[k])
  }

  lemma WorkerTakes(s: System, v: nat)
    requires s.Inv() && CanStep(s, WorkerTurn(v))
    ensures Next(s, WorkerTurn(v)).Inv() && OnlyWorker(s, v, Next(s, WorkerTurn(v)))
  {
    hide System.Inv, Next, CanStep, Processed, OnlyWorker, Ids.Supply.Inv, Q.Ring.Inv, Q.ConsumerStep;
    NextKeeps(s, WorkerTurn(v));
    KeysOf(s);
    NextOfWorker(s, v);
    if v >= |s.rings| || s.workers[v].stopped {
      NothingTaken(s, v);
    } else if Pending(s, v) {
      ProcessedShape(s, v);
      ProcessingTakes(s, v, Processed(s, v));
    } else {
      RingOf(s, v);
      Q.PopAdvances(s.rings[v]);
      PopTakes(s, v, Q.ConsumerStep(s.rings[v]));
    }
  }

  lemma NextOfWorker(s: System, v: nat)
    requires s.Inv() && CanStep(s, WorkerTurn(v))
    ensures |s.workers| == |s.rings|
    ensures var r := Next(s, WorkerTurn(v));
            if v >= |s.rings| || s.workers[v].stopped then r == s
            else if Pending(s, v) then r == Processed(s, v)
            else s.rings[v].Inv() && r == s.(rings := s.rings[v := Q.ConsumerStep(s.rings[v])])
  {
    KeysOf(s);
    if v < |s.rings| {
      RingOf(s, v);
    }
    hide System.Inv, CanStep, Processed, Pending, Q.Ring.Inv, Q.ConsumerStep;
  }

  lemma NothingTaken(s: System, v: nat)
    requires |s.workers| == |s.rings| && s.books.Keys == s.logs.Keys
    ensures OnlyWorker(s, v, s)
  {
  }

  lemma PopTakes(s: System, v: nat, ring: CommandRing)
    requires |s.workers| == |s.rings| && s.books.Keys == s.logs.Keys && v < |s.rings|
    requires ring.producer == s.rings[v].producer && ring.pushed == s.rings[v].pushed
    requires |ring.buffer| == |s.rings[v].buffer| && s.rings[v].popped <= ring.popped
    ensures OnlyWorker(s, v, s.(rings := s.rings[v := ring]))
  {
  }

  lemma ProcessingTakes(s: System, v: nat, r: System)
    requires |s.workers| == |s.rings| && s.books.Keys == s.logs.Keys && v < |s.rings|
    requires r.rings == s.rings && r.router == s.router && r.program == s.program
    requires r.logs.Keys == s.logs.Keys == r.books.Keys && |r.workers| == |s.workers|
    requires forall w :: 0 <= w < |s.rings| && w != v ==> r.workers[w] == s.workers[w]
    requires forall k <- s.logs :: k.worker != v ==> r.logs[k] == s.logs[k] && r.books[k] == s.books[k]
    ensures OnlyWorker(s, v, r)
  {
  }

  // ---- the producer does not notice the workers ----

  /** What the producer has to do with is the same; the rings may only have emptied. */
  ghost predicate SameForProducer(s: System, r: System) {
    && |r.rings| == |s.rings| && r.program == s.program && r.router == s.router
    && forall w :: 0 <= w < |s.rings| ==>
         && r.rings[w].producer == s.rings[w].producer && r.rings[w].pushed == s.rings[w].pushed
         && |r.rings[w].buffer| == |s.rings[w].buffer| && s.rings[w].popped <= r.rings[w].popped
  }

  lemma SameRefl(s: System)
    ensures SameForProducer(s, s)
  {
  }

  lemma SameTrans(s: System, t: System, r: System)
    requires SameForProducer(s, t) && SameForProducer(t, r)
    ensures SameForProducer(s, r)
  {
  }

  lemma OnlyWorkerSame(s: System, v: nat, r: System)
    requires OnlyWorker(s, v, r)
    ensures SameForProducer(s, r)
  {
  }

  lemma {:induction false} WorkersKeepProducer(s: System, turns: seq<Turn>)
    requires s.Inv() && CanRun(s, turns) && WorkersOnly(turns)
    ensures SameForProducer(s, Run(s, turns))
    decreases |turns|
  {
    SameRefl(s);
    if turns != [] {
      hide SameForProducer, OnlyWorker, System.Inv, Next, CanStep;
      assert turns[0] in turns;
      WorkerTakes(s, turns[0].w);
      OnlyWorkerSame(s, turns[0].w, Next(s, turns[0]));
      WorkersKeepProducer(Next(s, turns[0]), turns[1..]);
      SameTrans(s, Next(s, turns[0]), Run(s, turns));
    }
  }

  // ---- pushing ----

  ghost predicate Gaps(gaps: seq<seq<Turn>>) {
    forall g <- gaps :: WorkersOnly(g)
  }

  /** The program is pushing `cmd` to ring `a`, to submit it or to shut down. */
  predicate Sending(program: Program, a: nat, cmd: OrderCommand) {
    match program
    case Submitting(w, c) => w == a && c == cmd
    case Stopping(sent, _, i, _) => i == a && i < |sent| && !sent[i] && cmd == POISON
    case _ => false
  }

  /** Where it goes on when the push has been answered. */
  function Answered(program: Program, ok: bool): Program {
    match program
    case Stopping(sent, count, i, base) =>
      if ok && i < |sent| then Stopping(sent[i := true], count + 1, i + 1, base)
      else Stopping(sent, count, i + 1, base)
    case _ => Ready
  }

  ghost predicate Pushing(s: System, a: nat, cmd: OrderCommand) {
    && s.Inv() && a < |s.rings| && Sending(s.program, a, cmd) && Carries(s.rings[a], cmd)
  }

  /** Of what concerns the producer, only the ring it pushes to has changed, and nothing is published. */
  ghost predicate Underway(s: System, a: nat, r: System) {
    && |r.rings| == |s.rings| && r.program == s.program && r.router == s.router
    && (forall w :: 0 <= w < |s.rings| ==>
         && r.rings[w].pushed == s.rings[w].pushed && |r.rings[w].buffer| == |s.rings[w].buffer|
         && s.rings[w].popped <= r.rings[w].popped)
    && (forall w :: 0 <= w < |s.rings| && w != a ==> r.rings[w].producer == s.rings[w].producer)
  }

  /** The push on ring `a` has been answered with `ok`; `cmd` is last there exactly if the answer is
      yes, and no other ring has got anything. */
  ghost predicate Delivered(s: System, a: nat, cmd: OrderCommand, ok: bool, r: System) {
    && |r.rings| == |s.rings| && r.program == Answered(s.program, ok) && r.router == s.router
    && (forall w :: 0 <= w < |s.rings| ==>
         && r.rings[w].pushed == (if w == a && ok then s.rings[w].pushed + [cmd] else s.rings[w].pushed)
         && |r.rings[w].buffer| == |s.rings[w].buffer| && s.rings[w].popped <= r.rings[w].popped)
    && (forall w :: 0 <= w < |s.rings| ==>
         r.rings[w].producer == if w == a then Q.PIdle(ok) else s.rings[w].producer)
  }

  lemma UnderwayDelivered(s: System, t: System, a: nat, cmd: OrderCommand, ok: bool, r: System)
    requires Underway(s, a, t) && Delivered(t, a, cmd, ok, r)
    ensures Delivered(s, a, cmd, ok, r)
  {
  }

  /** A turn of the producer in the middle of a push. */
  lemma PushTurn(s: System, a: nat, cmd: OrderCommand)
    requires Pushing(s, a, cmd)
    ensures var r, ring := Next(s, ProducerTurn), Q.ProducerStep(s.rings[a], cmd);
            && s.rings[a].Inv() && r.Inv() && r.rings == s.rings[a := ring] && r.router == s.router
            && match ring.producer
               case PIdle(ok) => r.program == Answered(s.program, ok)
               case _ => r.program == s.program && Pushing(r, a, cmd)
  {
    NextKeeps(s, ProducerTurn);
    RingOf(s, a);
    hide System.Inv, Q.Ring.Inv, Q.ProducerStep;
    PushStep(s.rings[a], cmd);
    NextOfPush(s, a, cmd);
  }

  lemma NextOfPush(s: System, a: nat, cmd: OrderCommand)
    requires Pushing(s, a, cmd)
    ensures var r, ring := Next(s, ProducerTurn), Q.ProducerStep(s.rings[a], cmd);
            && r.rings == s.rings[a := ring] && r.router == s.router
            && r.program == match ring.producer
                            case PIdle(ok) => Answered(s.program, ok)
                            case _ => s.program
  {
    RingOf(s, a);
    hide System.Inv, Q.Ring.Inv, Q.ProducerStep, Carries, Produced;
    if s.program.Submitting? {
      SubmitsOn(s);
    } else {
      StopsOn(s);
    }
  }

  lemma SubmitsOn(s: System)
    requires s.Inv() && s.program.Submitting?
    ensures var Submitting(a, cmd) := s.program;
            && a < |s.rings| && s.rings[a].Inv()
            && var ring := Q.ProducerStep(s.rings[a], cmd);
               Produced(s) == s.(rings := s.rings[a := ring], program := if ring.producer.PIdle? then Ready
                                                                         else s.program)
  {
    RingOf(s, s.program.w);
    hide System.Inv, Q.Ring.Inv, Q.ProducerStep;
  }

  lemma StopsOn(s: System)
    requires s.Inv() && s.program.Stopping? && s.program.i < |s.rings|
    requires s.program.i < |s.program.sent| ==> !s.program.sent[s.program.i]
    ensures var a := s.program.i;
            && s.rings[a].Inv() && a < |s.program.sent|
            && var ring := Q.ProducerStep(s.rings[a], POISON);
               Produced(s) ==
               s.(rings := s.rings[a := ring],
                  program := if ring.producer.PIdle? then Answered(s.program, ring.producer.ok) else s.program)
  {
    RingOf(s, s.program.i);
    StoppingLength(s);
    hide System.Inv, Q.Ring.Inv, Q.ProducerStep;
  }

  lemma StoppingLength(s: System)
    requires s.Inv() && s.program.Stopping?
    ensures |s.program.sent| == |s.program.base| == |s.rings| && s.program.count == Count(s.program.sent)
    ensures s.program.i <= |s.rings|
  {
  }

  /** A gap and the producer's turn, in the middle of a push. */
  lemma PushRound(s: System, a: nat, cmd: OrderCommand, gaps: seq<seq<Turn>>) returns (t: System, u: System)
    requires Pushing(s, a, cmd) && gaps != [] && Gaps(gaps) && CanRun(s, Interleaved(ProducerTurn, gaps))
    ensures CanRun(s, gaps[0]) && t == Run(s, gaps[0]) && SameForProducer(s, t) && Pushing(t, a, cmd)
    ensures CanStep(t, ProducerTurn) && u == Next(t, ProducerTurn) && Leads(s, ProducerTurn, gaps, 1, u)
    ensures t.rings[a].Inv() && u.rings == t.rings[a := Q.ProducerStep(t.rings[a], cmd)] && u.router == t.router
    ensures match u.rings[a].producer
            case PIdle(ok) => u.program == Answered(t.program, ok)
            case _ => u.program == t.program && Pushing(u, a, cmd)
  {
    hide System.Inv, Next, SameForProducer, Sending, Answered, Q.Ring.Inv, Q.ProducerStep;
    assert gaps[0] in gaps;
    Unfold(s, ProducerTurn, gaps);
    WorkersKeepProducer(s, gaps[0]);
    t := Run(s, gaps[0]);
    PushingSame(s, a, cmd, t);
    PushTurn(t, a, cmd);
    u := Next(t, ProducerTurn);
  }

  lemma PushingSame(s: System, a: nat, cmd: OrderCommand, t: System)
    requires Pushing(s, a, cmd) && SameForProducer(s, t) && t.Inv()
    ensures Pushing(t, a, cmd)
  {
    hide System.Inv, Sending;
  }

  lemma RestOfGaps(gaps: seq<seq<Turn>>, k: nat)
    requires Gaps(gaps) && k <= |gaps|
    ensures Gaps(gaps[k..])
  {
    hide WorkersOnly;
  }

  /** A round that publishes nothing. */
  lemma RoundUnderway(s: System, a: nat, t: System, ring: CommandRing, u: System)
    requires SameForProducer(s, t) && a < |s.rings| && u.rings == t.rings[a := ring]
    requires u.program == t.program && u.router == t.router
    requires ring.pushed == t.rings[a].pushed && ring.popped == t.rings[a].popped
    requires |ring.buffer| == |t.rings[a].buffer|
    ensures Underway(s, a, u)
  {
  }

  /** The round that answers. */
  lemma RoundDelivers(s: System, a: nat, cmd: OrderCommand, ok: bool, t: System, ring: CommandRing, u: System)
    requires SameForProducer(s, t) && a < |s.rings| && u.rings == t.rings[a := ring]
    requires u.program == Answered(t.program, ok) && u.router == t.router
    requires ring.pushed == (if ok then t.rings[a].pushed + [cmd] else t.rings[a].pushed)
    requires ring.producer == Q.PIdle(ok) && ring.popped == t.rings[a].popped
    requires |ring.buffer| == |t.rings[a].buffer|
    ensures Delivered(s, a, cmd, ok, u)
  {
  }

  /** The last step of a push publishes the command. */
  lemma FromWritten(s: System, a: nat, cmd: OrderCommand, gaps: seq<seq<Turn>>) returns (r: System)
    requires Pushing(s, a, cmd) && s.rings[a].producer.PWritten?
    requires |gaps| >= 1 && Gaps(gaps) && CanRun(s, Interleaved(ProducerTurn, gaps))
    ensures Leads(s, ProducerTurn, gaps, 1, r) && Delivered(s, a, cmd, true, r)
  {
    hide System.Inv, Next, SameForProducer, Delivered, Sending, Answered, Leads;
    var t, u := PushRound(s, a, cmd, gaps);
    r := u;
    RingSame(s, a, t);
    Q.PushAdvances(t.rings[a], cmd);
    hide Q.Ring.Inv, Q.ProducerStep;
    RoundDelivers(s, a, cmd, true, t, u.rings[a], u);
  }

  lemma RingSame(s: System, a: nat, t: System)
    requires SameForProducer(s, t) && a < |s.rings|
    ensures |t.rings| == |s.rings| && t.rings[a].producer == s.rings[a].producer
    ensures t.rings[a].pushed == s.rings[a].pushed && |t.rings[a].buffer| == |s.rings[a].buffer|
  {
  }

  lemma FromReady(s: System, a: nat, cmd: OrderCommand, gaps: seq<seq<Turn>>) returns (r: System)
    requires Pushing(s, a, cmd) && s.rings[a].producer.PReady?
    requires |gaps| >= 2 && Gaps(gaps) && CanRun(s, Interleaved(ProducerTurn, gaps))
    ensures Leads(s, ProducerTurn, gaps, 2, r) && Delivered(s, a, cmd, true, r)
  {
    hide System.Inv, Next, SameForProducer, Delivered, Underway, Sending, Answered;
    var t, u := PushRound(s, a, cmd, gaps);
    RingSame(s, a, t);
    Q.PushAdvances(t.rings[a], cmd);
    hide Q.Ring.Inv, Q.ProducerStep;
    RoundUnderway(s, a, t, u.rings[a], u);
    RestOfGaps(gaps, 1);
    r := FromWritten(u, a, cmd, gaps[1..]);
    UnderwayDelivered(s, u, a, cmd, true, r);
    LeadsOn(s, ProducerTurn, gaps, 1, u, 1, r);
  }

  /** The copy of the consumer's count taken before decides. */
  lemma FromTail(s: System, a: nat, cmd: OrderCommand, gaps: seq<seq<Turn>>) returns (ok: bool, r: System)
    requires Pushing(s, a, cmd) && s.rings[a].producer.PTail?
    requires |gaps| >= 3 && Gaps(gaps) && CanRun(s, Interleaved(ProducerTurn, gaps))
    ensures ok <==> |s.rings[a].pushed| - s.rings[a].producer.seenTail != |s.rings[a].buffer| - 1
    ensures Leads(s, ProducerTurn, gaps, if ok then 3 else 1, r) && Delivered(s, a, cmd, ok, r)
  {
    hide System.Inv, Next, SameForProducer, Delivered, Underway, Sending, Answered;
    var t, u := PushRound(s, a, cmd, gaps);
    RingSame(s, a, t);
    Q.PushAdvances(t.rings[a], cmd);
    hide Q.Ring.Inv, Q.ProducerStep;
    ok, r := u.rings[a].producer.PReady?, u;
    if ok {
      RoundUnderway(s, a, t, u.rings[a], u);
      RestOfGaps(gaps, 1);
      r := FromReady(u, a, cmd, gaps[1..]);
      UnderwayDelivered(s, u, a, cmd, true, r);
      LeadsOn(s, ProducerTurn, gaps, 1, u, 2, r);
    } else {
      RoundDelivers(s, a, cmd, false, t, u.rings[a], u);
    }
  }

  /** The ring has room for another item. */
  predicate HasRoomAt(s: System, a: nat) {
    a < |s.rings| && |s.rings[a].pushed| - |s.rings[a].popped| < |s.rings[a].buffer| - 1
  }

  lemma FromHead(s: System, a: nat, cmd: OrderCommand, gaps: seq<seq<Turn>>) returns (ok: bool, r: System)
    requires Pushing(s, a, cmd) && s.rings[a].producer.PHead?
    requires |gaps| >= 4 && Gaps(gaps) && CanRun(s, Interleaved(ProducerTurn, gaps))
    ensures CanRun(s, gaps[0]) && ok == HasRoomAt(Run(s, gaps[0]), a)
    ensures Leads(s, ProducerTurn, gaps, if ok then 4 else 2, r) && Delivered(s, a, cmd, ok, r)
  {
    hide System.Inv, Next, SameForProducer, Delivered, Underway, Sending, Answered;
    var t, u := PushRound(s, a, cmd, gaps);
    RingSame(s, a, t);
    Q.PushAdvances(t.rings[a], cmd);
    Q.HeadInRange(t.rings[a]);
    hide Q.Ring.Inv, Q.ProducerStep;
    RoundUnderway(s, a, t, u.rings[a], u);
    RestOfGaps(gaps, 1);
    ok, r := FromTail(u, a, cmd, gaps[1..]);
    UnderwayDelivered(s, u, a, cmd, ok, r);
    LeadsOn(s, ProducerTurn, gaps, 1, u, if ok then 3 else 1, r);
  }

  /** The turns up to the producer's second load, at which it sees how far the consumer has got. */
  function UpToLoad(gaps: seq<seq<Turn>>): seq<Turn>
    requires |gaps| >= 2
  {
    gaps[0] + [ProducerTurn] + gaps[1]
  }

  lemma ReachesLoad(s: System, gaps: seq<seq<Turn>>)
    requires s.Inv() && |gaps| >= 2 && CanRun(s, gaps[0]) && CanStep(Run(s, gaps[0]), ProducerTurn)
    requires var u := Next(Run(s, gaps[0]), ProducerTurn); u.Inv() && CanRun(u, gaps[1])
    ensures CanRun(s, UpToLoad(gaps))
    ensures Run(s, UpToLoad(gaps)) == Run(Next(Run(s, gaps[0]), ProducerTurn), gaps[1])
  {
    hide System.Inv, Next, CanStep;
    var rest := [ProducerTurn] + gaps[1];
    assert UpToLoad(gaps) == gaps[0] + rest;
    RunConcat(s, gaps[0], rest);
    assert rest[0] == ProducerTurn && rest[1..] == gaps[1];
  }

  /** A whole push, whatever the workers do meanwhile: five turns if the ring had room when the
      consumer's index was loaded, else three; then it is answered. */
  lemma PushCompletes(s: System, a: nat, cmd: OrderCommand, gaps: seq<seq<Turn>>) returns (ok: bool, r: System)
    requires Pushing(s, a, cmd) && s.rings[a].producer.PIdle?
    requires |gaps| >= 5 && Gaps(gaps) && CanRun(s, Interleaved(ProducerTurn, gaps))
    ensures CanRun(s, UpToLoad(gaps)) && ok == HasRoomAt(Run(s, UpToLoad(gaps)), a)
    ensures Leads(s, ProducerTurn, gaps, if ok then 5 else 3, r) && Delivered(s, a, cmd, ok, r)
    ensures HasRoomAt(s, a) ==> ok
  {
    hide System.Inv, Next, CanStep, SameForProducer, Delivered, Underway, Sending, Answered;
    var t, u := PushRound(s, a, cmd, gaps);
    RingSame(s, a, t);
    Q.PushAdvances(t.rings[a], cmd);
    hide Q.Ring.Inv, Q.ProducerStep;
    RoundUnderway(s, a, t, u.rings[a], u);
    RestOfGaps(gaps, 1);
    ok, r := FromHead(u, a, cmd, gaps[1..]);
    ReachesLoad(s, gaps);
    UnderwayDelivered(s, u, a, cmd, ok, r);
    LeadsOn(s, ProducerTurn, gaps, 1, u, if ok then 4 else 2, r);
    assert gaps[1] in gaps;
    WorkersKeepProducer(u, gaps[1]);
    RoomStays(s, a, u, Run(u, gaps[1]));
  }

  lemma RoomStays(s: System, a: nat, u: System, v: System)
    requires Underway(s, a, u) && SameForProducer(u, v)
    ensures HasRoomAt(s, a) ==> HasRoomAt(v, a)
  {
  }

  // ---- submitting and shutting down ----

  /** With no push to do, the producer's turns change nothing. */
  lemma {:induction false} IdleStays(s: System, gaps: seq<seq<Turn>>)
    requires s.Inv() && (s.program.Ready? || s.program.Finished?)
    requires Gaps(gaps) && CanRun(s, Interleaved(ProducerTurn, gaps))
    ensures SameForProducer(s, Run(s, Interleaved(ProducerTurn, gaps)))
    decreases |gaps|
  {
    SameRefl(s);
    if gaps != [] {
      hide SameForProducer, System.Inv;
      assert gaps[0] in gaps;
      Unfold(s, ProducerTurn, gaps);
      WorkersKeepProducer(s, gaps[0]);
      var t := Run(s, gaps[0]);
      ProgramStays(s, t);
      RestOfGaps(gaps, 1);
      IdleStays(t, gaps[1..]);
      SameTrans(s, t, Run(s, Interleaved(ProducerTurn, gaps)));
    }
  }

  lemma ProgramStays(s: System, t: System)
    requires SameForProducer(s, t) && (s.program.Ready? || s.program.Finished?) && t.Inv()
    ensures t.program == s.program && Next(t, ProducerTurn) == t
  {
    hide System.Inv;
  }

  /** A command submitted when the producer is ready is answered within five of its turns, whatever
      the workers do in between. It has then been put in the ring of the worker its instrument is
      routed to exactly if there is a route and that ring had room at the load, and nowhere else. */
  lemma SubmitCompletes(s: System, cmd: OrderCommand, gaps: seq<seq<Turn>>)
    requires s.Inv() && s.program == Ready && |gaps| >= 5 && Gaps(gaps)
    requires CanRun(s, [Submit(cmd)] + Interleaved(ProducerTurn, gaps))
    ensures var r := Run(s, [Submit(cmd)] + Interleaved(ProducerTurn, gaps));
            && r.program == Ready && |r.rings| == |s.rings|
            && if cmd.order.instrument !in s.router
               then forall w :: 0 <= w < |s.rings| ==> r.rings[w].pushed == s.rings[w].pushed
               else
                 var a := s.router[cmd.order.instrument];
                 && a < |s.rings| && CanRun(s, [Submit(cmd)] + UpToLoad(gaps))
                 && var ok := HasRoomAt(Run(s, [Submit(cmd)] + UpToLoad(gaps)), a);
                    && (HasRoomAt(s, a) ==> ok) && r.rings[a].producer == Q.PIdle(ok)
                    && forall w :: 0 <= w < |s.rings| ==>
                         r.rings[w].pushed == if w == a && ok then s.rings[w].pushed + [cmd] else s.rings[w].pushed
  {
    hide System.Inv, Next, CanStep, SameForProducer, Delivered, UpToLoad, Interleaved;
    var turns := Interleaved(ProducerTurn, gaps);
    FirstTurn(s, Submit(cmd), turns);
    SubmitStarts(s, cmd);
    var t := Next(s, Submit(cmd));
    if cmd.order.instrument !in s.router {
      IdleStays(t, gaps);
      SameKnown(t, Run(t, turns));
    } else {
      var a := s.router[cmd.order.instrument];
      var ok, r := PushCompletes(t, a, cmd, gaps);
      RestOfGaps(gaps, if ok then 5 else 3);
      DeliveredKnown(t, a, cmd, ok, r);
      IdleStays(r, gaps[if ok then 5 else 3..]);
      SameKnown(r, Run(t, turns));
      TurnFirst(s, Submit(cmd), UpToLoad(gaps));
      SameRoom(s, a, t);
    }
  }

  lemma FirstTurn(s: System, turn: Turn, turns: seq<Turn>)
    requires s.Inv() && CanRun(s, [turn] + turns)
    ensures CanStep(s, turn) && Next(s, turn).Inv() && CanRun(Next(s, turn), turns)
    ensures Run(s, [turn] + turns) == Run(Next(s, turn), turns)
  {
    hide System.Inv, Next, CanStep;
    assert ([turn] + turns)[0] == turn && ([turn] + turns)[1..] == turns;
    NextKeeps(s, turn);
  }

  lemma TurnFirst(s: System, turn: Turn, turns: seq<Turn>)
    requires s.Inv() && CanStep(s, turn) && Next(s, turn).Inv() && CanRun(Next(s, turn), turns)
    ensures CanRun(s, [turn] + turns) && Run(s, [turn] + turns) == Run(Next(s, turn), turns)
  {
    hide System.Inv, Next, CanStep;
    assert ([turn] + turns)[0] == turn && ([turn] + turns)[1..] == turns;
    NextKeeps(s, turn);
  }

  lemma SameRoom(s: System, a: nat, t: System)
    requires t.rings == s.rings
    ensures HasRoomAt(s, a) == HasRoomAt(t, a)
  {
  }

  lemma SubmitStarts(s: System, cmd: OrderCommand)
    requires s.Inv() && s.program == Ready && CanStep(s, Submit(cmd))
    ensures var t := Next(s, Submit(cmd));
            && t.Inv() && t.rings == s.rings && t.router == s.router
            && if cmd.order.instrument !in s.router then t.program == Ready
               else
                 var a := s.router[cmd.order.instrument];
                 && a < |s.rings| && s.rings[a].producer.PIdle? && t.program == Submitting(a, cmd)
                 && Pushing(t, a, cmd)
  {
    hide System.Inv, Next, CanStep;
    NextKeeps(s, Submit(cmd));
    ReadyKnown(s);
    NextOfSubmit(s, cmd);
  }

  lemma NextOfSubmit(s: System, cmd: OrderCommand)
    requires s.Inv() && s.program == Ready && CanStep(s, Submit(cmd))
    ensures Next(s, Submit(cmd)) == if cmd.order.instrument !in s.router then s
                                    else s.(program := Submitting(s.router[cmd.order.instrument], cmd))
  {
    hide System.Inv, CanStep, Q.Ring.Inv;
  }

  lemma ReadyKnown(s: System)
    requires s.Inv() && s.program == Ready
    ensures forall w :: 0 <= w < |s.rings| ==> s.rings[w].producer.PIdle?
    ensures forall x <- s.router :: s.router[x] < |s.rings|
  {
  }

  lemma SameKnown(s: System, r: System)
    requires SameForProducer(s, r)
    ensures r.program == s.program && |r.rings| == |s.rings| && r.router == s.router
    ensures forall w :: 0 <= w < |s.rings| ==>
              r.rings[w].pushed == s.rings[w].pushed && r.rings[w].producer == s.rings[w].producer
  {
  }

  lemma DeliveredKnown(s: System, a: nat, cmd: OrderCommand, ok: bool, r: System)
    requires Delivered(s, a, cmd, ok, r) && a < |s.rings|
    ensures |r.rings| == |s.rings| && r.rings[a].producer == Q.PIdle(ok) && r.program == Answered(s.program, ok)
    ensures forall w :: 0 <= w < |s.rings| ==>
              r.rings[w].pushed == if w == a && ok then s.rings[w].pushed + [cmd] else s.rings[w].pushed
    ensures forall w :: 0 <= w < |s.rings| && w != a ==> r.rings[w].producer == s.rings[w].producer
    ensures forall w :: 0 <= w < |s.rings| && w != a && HasRoomAt(s, w) ==> HasRoomAt(r, w)
  {
  }

  lemma StoppingKnown(s: System)
    requires s.Inv() && s.program.Stopping?
    ensures var Stopping(sent, count, i, base) := s.program;
            && |sent| == |base| == |s.rings| && i <= |s.rings|
            && (count == |s.rings| <==> forall w :: 0 <= w < |s.rings| ==> sent[w])
            && (forall w :: 0 <= w < |s.rings| && (w != i || sent[w]) ==> s.rings[w].producer.PIdle?)
  {
    StoppingLength(s);
    CountAll(s.program.sent);
    hide Count, Q.Ring.Inv, RingsInv, BooksInv, PushedRouted, RoutesInv, Ids.Supply.Inv;
  }

  /** The loop of `submit_all_shutdown_commands` where it need not push: it passes over a ring that
      has got its SHUTDOWN, and after the last ring ends, or starts over with those still missing. */
  lemma StopPassesOver(s: System, gaps: seq<seq<Turn>>) returns (r: System)
    requires s.Inv() && s.program.Stopping?
    requires |gaps| >= 1 && Gaps(gaps) && CanRun(s, Interleaved(ProducerTurn, gaps))
    requires var Stopping(sent, _, i, _) := s.program; i < |sent| ==> sent[i]
    ensures Leads(s, ProducerTurn, gaps, 1, r) && SameForProducer(s, r.(program := s.program))
    ensures var Stopping(sent, count, i, base) := s.program;
            && |sent| == |s.rings|
            && r.program == if i < |sent| then Stopping(sent, count, i + 1, base)
                            else if forall w :: 0 <= w < |sent| ==> sent[w] then Finished(base)
                            else Stopping(sent, count, 0, base)
  {
    hide System.Inv, Next, CanStep, SameForProducer;
    StoppingKnown(s);
    assert gaps[0] in gaps;
    Unfold(s, ProducerTurn, gaps);
    WorkersKeepProducer(s, gaps[0]);
    var t := Run(s, gaps[0]);
    SameKnown(s, t);
    NextOfStop(t);
    r := Next(t, ProducerTurn);
    ProgramApart(s, t, r.program);
  }

  lemma NextOfStop(s: System)
    requires s.Inv() && s.program.Stopping?
    requires var Stopping(sent, _, i, _) := s.program; i < |sent| ==> sent[i]
    ensures var Stopping(sent, count, i, base) := s.program;
            Next(s, ProducerTurn) == s.(program := if i < |sent| then Stopping(sent, count, i + 1, base)
                                                   else if count == |s.rings| then Finished(base)
                                                   else Stopping(sent, count, 0, base))
  {
    hide System.Inv, CanStep, Produced;
    ProducedStop(s);
  }

  lemma ProducedStop(s: System)
    requires s.Inv() && s.program.Stopping?
    requires var Stopping(sent, _, i, _) := s.program; i < |sent| ==> sent[i]
    ensures var Stopping(sent, count, i, base) := s.program;
            Produced(s) == s.(program := if i < |sent| then Stopping(sent, count, i + 1, base)
                                         else if count == |s.rings| then Finished(base)
                                         else Stopping(sent, count, 0, base))
  {
    StoppingLength(s);
    hide System.Inv, Q.Ring.Inv, Q.ProducerStep;
  }

  lemma ProgramApart(s: System, t: System, program: Program)
    requires SameForProducer(s, t)
    ensures SameForProducer(s, t.(program := program).(program := s.program))
  {
  }

  /** Where it has to push: the ring gets its SHUTDOWN exactly if it had room at the load; else it is
      left for the next time round. */
  lemma StopTries(s: System, gaps: seq<seq<Turn>>) returns (ok: bool, r: System)
    requires s.Inv() && s.program.Stopping? && s.program.i < |s.program.sent| && !s.program.sent[s.program.i]
    requires s.program.i < |s.rings| && s.rings[s.program.i].producer.PIdle?
    requires |gaps| >= 5 && Gaps(gaps) && CanRun(s, Interleaved(ProducerTurn, gaps))
    ensures var Stopping(sent, count, i, base) := s.program;
            && CanRun(s, UpToLoad(gaps)) && ok == HasRoomAt(Run(s, UpToLoad(gaps)), i)
            && (HasRoomAt(s, i) ==> ok)
            && Leads(s, ProducerTurn, gaps, if ok then 5 else 3, r) && Delivered(s, i, POISON, ok, r)
            && r.program == if ok then Stopping(sent[i := true], count + 1, i + 1, base)
                            else Stopping(sent, count, i + 1, base)
  {
    hide System.Inv, Next, CanStep, Delivered, UpToLoad, Interleaved, HasRoomAt, Leads;
    ok, r := PushCompletes(s, s.program.i, POISON, gaps);
    DeliveredKnown(s, s.program.i, POISON, ok, r);
  }

  /** What is left of the first pass, if every ring still to come has room. */
  lemma {:induction false} StopCompletes(s: System, gaps: seq<seq<Turn>>)
    requires s.Inv() && s.program.Stopping? && s.program.i <= |s.program.sent| == |s.rings|
    requires forall w :: 0 <= w < |s.rings| ==>
               if w < s.program.i then s.program.sent[w]
               else !s.program.sent[w] && HasRoomAt(s, w) && s.rings[w].producer.PIdle?
    requires |gaps| >= 5 * (|s.rings| - s.program.i) + 1 && Gaps(gaps)
    requires CanRun(s, Interleaved(ProducerTurn, gaps))
    ensures Run(s, Interleaved(ProducerTurn, gaps)).program == Finished(s.program.base)
    decreases |s.rings| - s.program.i
  {
    hide System.Inv, Next, CanStep, SameForProducer, Delivered, UpToLoad, Interleaved, HasRoomAt;
    var i := s.program.i;
    var r;
    if i == |s.rings| {
      r := StopPassesOver(s, gaps);
      RestOfGaps(gaps, 1);
      IdleStays(r, gaps[1..]);
      SameKnown(r, Run(s, Interleaved(ProducerTurn, gaps)));
    } else {
      var ok;
      ok, r := StopTries(s, gaps);
      DeliveredKnown(s, i, POISON, ok, r);
      RestOfGaps(gaps, 5);
      StopCompletes(r, gaps[5..]);
    }
  }

  /** Shutting down an engine whose rings have room comes to an end, whatever the workers do in
      between; each ring has then got one SHUTDOWN behind what it held. */
  lemma ShutdownCompletes(s: System, gaps: seq<seq<Turn>>)
    requires s.Inv() && s.program == Ready && forall w :: 0 <= w < |s.rings| ==> HasRoomAt(s, w)
    requires |gaps| >= 5 * |s.rings| + 2 && Gaps(gaps)
    requires CanRun(s, [BeginShutdown] + Interleaved(ProducerTurn, gaps))
    ensures var r := Run(s, [BeginShutdown] + Interleaved(ProducerTurn, gaps));
            && r.program.Finished? && |r.rings| == |s.rings| && POISON.kind == SHUTDOWN
            && forall w :: 0 <= w < |s.rings| ==> r.rings[w].pushed == s.rings[w].pushed + [POISON]
  {
    hide System.Inv, Next, CanStep, SameForProducer, Interleaved, HasRoomAt;
    var turns := Interleaved(ProducerTurn, gaps);
    FirstTurn(s, BeginShutdown, turns);
    StopStarts(s);
    var t := Next(s, BeginShutdown);
    var u := StopPassesOver(t, gaps);
    SameKnown(t, u.(program := t.program));
    RestOfGaps(gaps, 1);
    if |s.rings| == 0 {
      IdleStays(u, gaps[1..]);
      SameKnown(u, Run(t, turns));
    } else {
      assert !t.program.sent[0];
      forall w | 0 <= w < |s.rings| ensures HasRoomAt(u, w) {
        RoomKept(s, w, t, u);
      }
      StopCompletes(u, gaps[1..]);
    }
    FinishedAll(Run(t, turns));
  }

  lemma RoomKept(s: System, w: nat, t: System, u: System)
    requires t.rings == s.rings && SameForProducer(t, u.(program := t.program)) && HasRoomAt(s, w)
    ensures HasRoomAt(u, w)
  {
  }

  lemma FinishedAll(r: System)
    requires r.Inv() && r.program.Finished?
    ensures |r.program.base| == |r.rings|
    ensures forall w :: 0 <= w < |r.rings| ==> r.rings[w].pushed == r.program.base[w] + [POISON]
  {
  }

  lemma StopStarts(s: System)
    requires s.Inv() && s.program == Ready && CanStep(s, BeginShutdown)
    ensures var t := Next(s, BeginShutdown);
            && t.rings == s.rings && t.program.Stopping?
            && var Stopping(sent, count, i, base) := t.program;
               && |sent| == |base| == i == |s.rings| && count == 0
               && (forall w :: 0 <= w < |s.rings| ==> !sent[w] && base[w] == s.rings[w].pushed)
    ensures forall w :: 0 <= w < |s.rings| ==> s.rings[w].producer.PIdle?
  {
    ReadyKnown(s);
    hide System.Inv, CanStep, Q.Ring.Inv;
  }

  // ---- a worker does not notice the others ----

  ghost predicate Without(turns: seq<Turn>, w: nat) {
    forall t <- turns :: t != WorkerTurn(w)
  }

  ghost predicate GapsWithout(gaps: seq<seq<Turn>>, w: nat) {
    forall g <- gaps :: Without(g, w)
  }

  /** Worker `w` is where it was, and so are its books; there may be more in its ring. */
  ghost predicate Kept(s: System, w: nat, r: System) {
    && |r.rings| == |s.rings| == |s.workers| == |r.workers| && w < |s.rings|
    && r.workers[w] == s.workers[w] && s.rings[w].pushed <= r.rings[w].pushed
    && r.logs.Keys == s.logs.Keys == r.books.Keys == s.books.Keys
    && (forall k <- s.logs :: k.worker == w ==> r.logs[k] == s.logs[k] && r.books[k] == s.books[k])
  }

  /** Besides, it has taken no step. */
  ghost predicate SameForWorker(s: System, w: nat, r: System) {
    Kept(s, w, r) && r.rings[w].consumer == s.rings[w].consumer && r.rings[w].popped == s.rings[w].popped
  }

  lemma WorkerSameRefl(s: System, w: nat)
    requires |s.workers| == |s.rings| && w < |s.rings| && s.books.Keys == s.logs.Keys
    ensures SameForWorker(s, w, s)
  {
  }

  lemma WorkerSameTrans(s: System, w: nat, t: System, r: System)
    requires SameForWorker(s, w, t) && SameForWorker(t, w, r)
    ensures SameForWorker(s, w, r)
  {
  }

  lemma OtherWorkerSame(s: System, v: nat, w: nat, r: System)
    requires OnlyWorker(s, v, r) && v != w && w < |s.rings|
    ensures SameForWorker(s, w, r)
  {
  }

  lemma ProducerSame(s: System, a: nat, ring: CommandRing, w: nat, r: System)
    requires |s.workers| == |s.rings| && w < |s.rings| && a < |s.rings| && s.books.Keys == s.logs.Keys
    requires ring.consumer == s.rings[a].consumer && ring.popped == s.rings[a].popped
    requires s.rings[a].pushed <= ring.pushed
    requires r == s.(rings := s.rings[a := ring], program := r.program)
    ensures SameForWorker(s, w, r)
  {
  }

  lemma ProgramSameForWorker(s: System, w: nat, program: Program)
    requires |s.workers| == |s.rings| && w < |s.rings| && s.books.Keys == s.logs.Keys
    ensures SameForWorker(s, w, s.(program := program))
  {
  }

  /** What the producer's turn does to the rings. */
  lemma ProducerTakes(s: System, w: nat)
    requires s.Inv() && w < |s.rings|
    ensures SameForWorker(s, w, Produced(s))
  {
    KeysOf(s);
    hide System.Inv, Produced, Q.Ring.Inv, Q.ProducerStep, Ids.Supply.Inv, SameForWorker;
    if s.program.Submitting? {
      SubmitsOn(s);
      var a := s.program.w;
      Q.PushAdvances(s.rings[a], s.program.cmd);
      ProducerSame(s, a, Q.ProducerStep(s.rings[a], s.program.cmd), w, Produced(s));
    } else {
      StopTakes(s, w);
    }
  }

  lemma StopTakes(s: System, w: nat)
    requires s.Inv() && w < |s.rings| && !s.program.Submitting?
    ensures SameForWorker(s, w, Produced(s))
  {
    KeysOf(s);
    hide System.Inv, Produced, Q.Ring.Inv, Q.ProducerStep, Ids.Supply.Inv, SameForWorker;
    if s.program.Stopping? {
      StoppingLength(s);
      var i := s.program.i;
      if i < |s.rings| && !s.program.sent[i] {
        StopsOn(s);
        Q.PushAdvances(s.rings[i], POISON);
        ProducerSame(s, i, Q.ProducerStep(s.rings[i], POISON), w, Produced(s));
      } else {
        ProducedProgram(s);
        ProgramSameForWorker(s, w, Produced(s).program);
      }
    } else {
      ProducedProgram(s);
      ProgramSameForWorker(s, w, Produced(s).program);
    }
  }

  lemma ProducedProgram(s: System)
    requires s.Inv() && !s.program.Submitting?
    requires s.program.Stopping? ==>
               && |s.program.sent| == |s.rings| && s.program.i <= |s.rings|
               && (s.program.i < |s.rings| ==> s.program.sent[s.program.i])
    ensures Produced(s) == s.(program := Produced(s).program)
  {
    hide System.Inv, Q.Ring.Inv;
  }

  lemma OtherTurn(s: System, turn: Turn, w: nat)
    requires s.Inv() && CanStep(s, turn) && turn != WorkerTurn(w) && w < |s.rings|
    ensures Next(s, turn).Inv() && SameForWorker(s, w, Next(s, turn))
  {
    NextKeeps(s, turn);
    KeysOf(s);
    hide System.Inv, CanStep, Produced, SameForWorker, OnlyWorker, Q.Ring.Inv, Ids.Supply.Inv, Processed;
    match turn
    case WorkerTurn(v) =>
      WorkerTakes(s, v);
      OtherWorkerSame(s, v, w, Next(s, turn));
    case ProducerTurn => ProducerTakes(s, w);
    case _ => ProgramSameForWorker(s, w, Next(s, turn).program);
  }

  lemma {:induction false} OthersKeepWorker(s: System, turns: seq<Turn>, w: nat)
    requires s.Inv() && CanRun(s, turns) && Without(turns, w) && w < |s.rings|
    ensures SameForWorker(s, w, Run(s, turns))
    decreases |turns|
  {
    KeysOf(s);
    WorkerSameRefl(s, w);
    if turns != [] {
      hide System.Inv, Next, CanStep;
      assert turns[0] in turns;
      OtherTurn(s, turns[0], w);
      assert forall t <- turns[1..] :: t in turns;
      OthersKeepWorker(Next(s, turns[0]), turns[1..], w);
      WorkerSameTrans(s, w, Next(s, turns[0]), Run(s, turns));
    }
  }

  // ---- popping ----

  /** Worker `w` has not stopped and has dealt with what it has popped. */
  predicate Popping(s: System, w: nat) {
    w < |s.rings| == |s.workers| && !s.workers[w].stopped && s.workers[w].processed == |s.rings[w].popped|
  }

  /** A gap and the worker's turn, while it pops. */
  lemma PopRound(s: System, w: nat, gaps: seq<seq<Turn>>) returns (t: System, u: System)
    requires s.Inv() && Popping(s, w)
    requires gaps != [] && GapsWithout(gaps, w) && CanRun(s, Interleaved(WorkerTurn(w), gaps))
    ensures t.Inv() && SameForWorker(s, w, t) && Leads(s, WorkerTurn(w), gaps, 1, u)
    ensures t.rings[w].Inv() && u == t.(rings := t.rings[w := Q.ConsumerStep(t.rings[w])])
  {
    hide System.Inv, Next, CanStep, SameForWorker, Q.Ring.Inv, Q.ConsumerStep;
    assert gaps[0] in gaps;
    Unfold(s, WorkerTurn(w), gaps);
    OthersKeepWorker(s, gaps[0], w);
    t := Run(s, gaps[0]);
    PoppingSame(s, w, t);
    RingOf(t, w);
    NextOfWorker(t, w);
    u := Next(t, WorkerTurn(w));
  }

  lemma PoppingSame(s: System, w: nat, t: System)
    requires SameForWorker(s, w, t) && Popping(s, w)
    ensures Popping(t, w) && !Pending(t, w)
  {
  }

  lemma RestWithout(gaps: seq<seq<Turn>>, w: nat, k: nat)
    requires GapsWithout(gaps, w) && k <= |gaps|
    ensures GapsWithout(gaps[k..], w)
  {
    hide Without;
  }

  /** Worker `w` is on its way to an item. */
  ghost predicate Loading(s: System, w: nat, r: System) {
    Kept(s, w, r) && r.rings[w].popped == s.rings[w].popped
  }

  /** Worker `w` has taken the oldest item of its ring, and that is the answer of its `pop`. */
  ghost predicate Took(s: System, w: nat, r: System) {
    && Kept(s, w, r) && |s.rings[w].popped| < |s.rings[w].pushed|
    && var item := s.rings[w].pushed[|s.rings[w].popped|];
       r.rings[w].popped == s.rings[w].popped + [item] && r.rings[w].consumer == Q.CIdle(Q.Some(item))
  }

  lemma RoundLoads(s: System, w: nat, t: System, ring: CommandRing, u: System)
    requires SameForWorker(s, w, t) && ring.popped == t.rings[w].popped && ring.pushed == t.rings[w].pushed
    requires u == t.(rings := t.rings[w := ring])
    ensures Loading(s, w, u) && u.rings[w].pushed == t.rings[w].pushed
    ensures Popping(s, w) ==> Popping(u, w)
  {
  }

  lemma RoundTakes(s: System, w: nat, t: System, ring: CommandRing, u: System)
    requires SameForWorker(s, w, t) && |t.rings[w].popped| < |t.rings[w].pushed|
    requires |s.rings[w].popped| < |s.rings[w].pushed|
    requires var item := t.rings[w].pushed[|t.rings[w].popped|];
             ring.popped == t.rings[w].popped + [item] && ring.consumer == Q.CIdle(Q.Some(item))
    requires ring.pushed == t.rings[w].pushed && u == t.(rings := t.rings[w := ring])
    ensures Took(s, w, u)
  {
  }

  lemma LoadingTook(s: System, w: nat, t: System, r: System)
    requires Loading(s, w, t) && Took(t, w, r) && |s.rings[w].popped| < |s.rings[w].pushed|
    ensures Took(s, w, r)
  {
  }

  /** The last step of a pop takes the item read before. */
  lemma FromRead(s: System, w: nat, gaps: seq<seq<Turn>>) returns (r: System)
    requires s.Inv() && Popping(s, w) && s.rings[w].consumer.CRead? && |s.rings[w].popped| < |s.rings[w].pushed|
    requires |gaps| >= 1 && GapsWithout(gaps, w) && CanRun(s, Interleaved(WorkerTurn(w), gaps))
    ensures Leads(s, WorkerTurn(w), gaps, 1, r) && Took(s, w, r)
  {
    hide System.Inv, Next, CanStep, SameForWorker, Took, Leads;
    var t, u := PopRound(s, w, gaps);
    r := u;
    ConsumerSame(s, w, t);
    Q.PopAdvances(t.rings[w]);
    hide Q.Ring.Inv, Q.ConsumerStep;
    RoundTakes(s, w, t, Q.ConsumerStep(t.rings[w]), u);
  }

  lemma ConsumerSame(s: System, w: nat, t: System)
    requires SameForWorker(s, w, t)
    ensures |t.rings| == |s.rings| && w < |s.rings| && t.rings[w].consumer == s.rings[w].consumer
    ensures t.rings[w].popped == s.rings[w].popped && s.rings[w].pushed <= t.rings[w].pushed
  {
  }

  lemma FromReadable(s: System, w: nat, gaps: seq<seq<Turn>>) returns (r: System)
    requires s.Inv() && Popping(s, w) && s.rings[w].consumer.CReady? && |s.rings[w].popped| < |s.rings[w].pushed|
    requires |gaps| >= 2 && GapsWithout(gaps, w) && CanRun(s, Interleaved(WorkerTurn(w), gaps))
    ensures Leads(s, WorkerTurn(w), gaps, 2, r) && Took(s, w, r)
  {
    hide System.Inv, Next, CanStep, SameForWorker, Took, Loading, Popping;
    var t, u := PopRound(s, w, gaps);
    ConsumerSame(s, w, t);
    Q.PopAdvances(t.rings[w]);
    hide Q.Ring.Inv, Q.ConsumerStep;
    RoundLoads(s, w, t, Q.ConsumerStep(t.rings[w]), u);
    LoadingKnown(s, w, u);
    RestWithout(gaps, w, 1);
    r := FromRead(u, w, gaps[1..]);
    LoadingTook(s, w, u, r);
    LeadsOn(s, WorkerTurn(w), gaps, 1, u, 1, r);
  }

  lemma LoadingKnown(s: System, w: nat, t: System)
    requires Loading(s, w, t)
    ensures |t.rings| == |s.rings| && w < |s.rings|
    ensures t.rings[w].popped == s.rings[w].popped && s.rings[w].pushed <= t.rings[w].pushed
  {
  }

  /** The copy of the producer's count taken before decides. */
  lemma FromSeen(s: System, w: nat, gaps: seq<seq<Turn>>) returns (r: System)
    requires s.Inv() && Popping(s, w) && s.rings[w].consumer.CHead?
    requires |s.rings[w].popped| < |s.rings[w].pushed| && s.rings[w].consumer.seenHead != |s.rings[w].popped|
    requires |gaps| >= 3 && GapsWithout(gaps, w) && CanRun(s, Interleaved(WorkerTurn(w), gaps))
    ensures Leads(s, WorkerTurn(w), gaps, 3, r) && Took(s, w, r)
  {
    hide System.Inv, Next, CanStep, SameForWorker, Took, Loading, Popping;
    var t, u := PopRound(s, w, gaps);
    ConsumerSame(s, w, t);
    Q.PopAdvances(t.rings[w]);
    hide Q.Ring.Inv, Q.ConsumerStep;
    RoundLoads(s, w, t, Q.ConsumerStep(t.rings[w]), u);
    LoadingKnown(s, w, u);
    RestWithout(gaps, w, 1);
    r := FromReadable(u, w, gaps[1..]);
    LoadingTook(s, w, u, r);
    LeadsOn(s, WorkerTurn(w), gaps, 1, u, 2, r);
  }

  lemma FromStarted(s: System, w: nat, gaps: seq<seq<Turn>>) returns (r: System)
    requires s.Inv() && Popping(s, w) && s.rings[w].consumer.CTail? && |s.rings[w].popped| < |s.rings[w].pushed|
    requires |gaps| >= 4 && GapsWithout(gaps, w) && CanRun(s, Interleaved(WorkerTurn(w), gaps))
    ensures Leads(s, WorkerTurn(w), gaps, 4, r) && Took(s, w, r)
  {
    hide System.Inv, Next, CanStep, SameForWorker, Took, Loading, Popping;
    var t, u := PopRound(s, w, gaps);
    ConsumerSame(s, w, t);
    Q.PopAdvances(t.rings[w]);
    hide Q.Ring.Inv, Q.ConsumerStep;
    RoundLoads(s, w, t, Q.ConsumerStep(t.rings[w]), u);
    LoadingKnown(s, w, u);
    RestWithout(gaps, w, 1);
    r := FromSeen(u, w, gaps[1..]);
    LoadingTook(s, w, u, r);
    LeadsOn(s, WorkerTurn(w), gaps, 1, u, 3, r);
  }

  /** With something in its ring, an idle worker has taken the oldest item after five of its turns,
      whatever the others do in between. */
  lemma PopCompletes(s: System, w: nat, gaps: seq<seq<Turn>>) returns (r: System)
    requires s.Inv() && Popping(s, w) && s.rings[w].consumer.CIdle? && |s.rings[w].popped| < |s.rings[w].pushed|
    requires |gaps| >= 5 && GapsWithout(gaps, w) && CanRun(s, Interleaved(WorkerTurn(w), gaps))
    ensures Leads(s, WorkerTurn(w), gaps, 5, r) && Took(s, w, r)
  {
    hide System.Inv, Next, CanStep, SameForWorker, Took, Loading, Popping;
    var t, u := PopRound(s, w, gaps);
    ConsumerSame(s, w, t);
    Q.PopAdvances(t.rings[w]);
    hide Q.Ring.Inv, Q.ConsumerStep;
    RoundLoads(s, w, t, Q.ConsumerStep(t.rings[w]), u);
    LoadingKnown(s, w, u);
    RestWithout(gaps, w, 1);
    r := FromStarted(u, w, gaps[1..]);
    LoadingTook(s, w, u, r);
    LeadsOn(s, WorkerTurn(w), gaps, 1, u, 4, r);
  }

  // ---- processing ----

  /** The book of `k` at its worker takes the command `item` if it is for it: the command is last in
      its log, and the book is in the state the source gets to by that log. */
  ghost predicate Handed(item: OrderCommand, k: Key, log: seq<Step>, book: SourceBook, log': seq<Step>,
                         book': SourceBook)
  {
    if item.kind != SHUTDOWN && item.order.instrument == k.instrument then
      && |log'| == |log| + 1 && log <= log' && log'[|log|].cmd == item
      && IdsFresh(log') && book' == Source(log')
    else log' == log && book' == book
  }

  /** Worker `w` has taken the oldest command of its ring and dealt with it. */
  ghost predicate Dealt(s: System, w: nat, r: System) {
    && |r.rings| == |s.rings| == |s.workers| == |r.workers| && w < |s.rings|
    && |s.rings[w].popped| < |s.rings[w].pushed| && s.rings[w].pushed <= r.rings[w].pushed
    && r.logs.Keys == s.logs.Keys == r.books.Keys == s.books.Keys
    && var item := s.rings[w].pushed[|s.rings[w].popped|];
       && r.workers[w] == Worker(s.workers[w].processed + 1, item.kind == SHUTDOWN)
       && r.rings[w].popped == s.rings[w].popped + [item] && r.rings[w].consumer == Q.CIdle(Q.Some(item))
       && forall k <- s.logs :: k.worker == w ==> Handed(item, k, s.logs[k], s.books[k], r.logs[k], r.books[k])
  }

  /** The turn after a pop. */
  lemma DealRound(s: System, w: nat, gaps: seq<seq<Turn>>) returns (t: System, r: System)
    requires s.Inv() && w < |s.rings| && Pending(s, w)
    requires gaps != [] && GapsWithout(gaps, w) && CanRun(s, Interleaved(WorkerTurn(w), gaps))
    ensures t.Inv() && SameForWorker(s, w, t) && Pending(t, w) && CanStep(t, WorkerTurn(w))
    ensures r == Processed(t, w) && Leads(s, WorkerTurn(w), gaps, 1, r)
  {
    hide System.Inv, Next, CanStep, SameForWorker, Processed;
    assert gaps[0] in gaps;
    Unfold(s, WorkerTurn(w), gaps);
    OthersKeepWorker(s, gaps[0], w);
    t := Run(s, gaps[0]);
    PendingSame(s, w, t);
    NextOfWorker(t, w);
    r := Next(t, WorkerTurn(w));
  }

  lemma PendingSame(s: System, w: nat, t: System)
    requires SameForWorker(s, w, t) && Pending(s, w)
    ensures Pending(t, w)
  {
  }

  /** What the turn does to the book of `k`. */
  lemma HandedTo(s: System, w: nat, k: Key)
    requires s.Inv() && Pending(s, w) && CanStep(s, WorkerTurn(w)) && k in s.logs && k.worker == w
    ensures var r := Processed(s, w);
            && k in r.logs && k in r.books && k in s.books
            && Handed(s.rings[w].popped[s.workers[w].processed], k, s.logs[k], s.books[k], r.logs[k], r.books[k])
  {
    hide System.Inv, Processed, CanStep, Ids.Supply.Inv, Ids.Issue, ApplySource, AddedIds, Source;
    KeysOf(s);
    ProcessedShape(s, w);
    var item := s.rings[w].popped[s.workers[w].processed];
    if item.kind != SHUTDOWN && item.order.instrument == k.instrument {
      assert k == Key(w, item.order.instrument);
      var x, step, supply := ProcessedOne(s, w);
      ProcessedBook(s, w);
    }
  }

  /** Five turns to take the oldest command and one to deal with it, whatever the others do. */
  lemma CommandCompletes(s: System, w: nat, gaps: seq<seq<Turn>>) returns (r: System)
    requires s.Inv() && Popping(s, w) && s.rings[w].consumer.CIdle? && |s.rings[w].popped| < |s.rings[w].pushed|
    requires |gaps| >= 6 && GapsWithout(gaps, w) && CanRun(s, Interleaved(WorkerTurn(w), gaps))
    ensures Leads(s, WorkerTurn(w), gaps, 6, r) && Dealt(s, w, r)
  {
    hide System.Inv, Next, CanStep, SameForWorker, Took, Handed, Processed, Q.Ring.Inv, Interleaved;
    var p := PopCompletes(s, w, gaps);
    TookKnown(s, w, p);
    RestWithout(gaps, w, 5);
    var t;
    t, r := DealRound(p, w, gaps[5..]);
    LeadsOn(s, WorkerTurn(w), gaps, 5, p, 1, r);
    SameForWorkerKnown(p, w, t);
    KeysOf(t);
    ProcessedShape(t, w);
    forall k <- s.logs | k.worker == w
      ensures Handed(s.rings[w].pushed[|s.rings[w].popped|], k, s.logs[k], s.books[k], r.logs[k], r.books[k])
    {
      HandedTo(t, w, k);
    }
  }

  lemma SameForWorkerKnown(s: System, w: nat, t: System)
    requires SameForWorker(s, w, t)
    ensures Kept(s, w, t) && t.rings[w].consumer == s.rings[w].consumer && t.rings[w].popped == s.rings[w].popped
  {
    hide Kept;
  }

  lemma TookKnown(s: System, w: nat, r: System)
    requires Took(s, w, r) && Popping(s, w)
    ensures Kept(s, w, r) && Pending(r, w) && w < |s.rings| && |s.rings[w].popped| < |s.rings[w].pushed|
    ensures var item := s.rings[w].pushed[|s.rings[w].popped|];
            && r.rings[w].popped == s.rings[w].popped + [item] && r.rings[w].consumer == Q.CIdle(Q.Some(item))
            && s.workers[w].processed < |r.rings[w].popped| && r.rings[w].popped[s.workers[w].processed] == item
  {
  }

  /** Six turns for each command: a worker catches up with what is in its ring, up to a SHUTDOWN. */
  lemma {:induction false} WorkerCatchesUp(s: System, w: nat, m: nat, gaps: seq<seq<Turn>>)
    requires s.Inv() && Popping(s, w) && s.rings[w].consumer.CIdle?
    requires |s.rings[w].popped| + m <= |s.rings[w].pushed|
    requires forall i :: |s.rings[w].popped| <= i < |s.rings[w].popped| + m - 1 ==>
               s.rings[w].pushed[i].kind != SHUTDOWN
    requires |gaps| == 6 * m && GapsWithout(gaps, w) && CanRun(s, Interleaved(WorkerTurn(w), gaps))
    ensures var r, done := Run(s, Interleaved(WorkerTurn(w), gaps)), |s.rings[w].popped| + m;
            && w < |r.rings| == |r.workers| && r.logs.Keys == s.logs.Keys
            && r.rings[w].popped == s.rings[w].pushed[..done]
            && r.workers[w] == Worker(done, m > 0 && s.rings[w].pushed[done - 1].kind == SHUTDOWN)
            && forall k <- r.logs :: k.worker == w ==>
                 Commands(r.logs[k]) == Project(s.rings[w].pushed[..done], k.instrument)
    decreases m
  {
    hide System.Inv, Next, CanStep, Dealt, KeyInv, Q.Ring.Inv, Interleaved, Leads, Project, Commands, WorkerInv;
    var ring, done := s.rings[w], |s.rings[w].popped| + m;
    if m == 0 {
      assert gaps == [];
      NoRounds(s, WorkerTurn(w));
      PoppedPrefix(s, w);
      forall k <- s.logs | k.worker == w ensures Commands(s.logs[k]) == Project(ring.pushed[..done], k.instrument) {
        LogIsProjection(s, k);
      }
    } else {
      var r := CommandCompletes(s, w, gaps);
      DealtKnown(s, w, r);
      if m == 1 {
        LeadsTo(s, WorkerTurn(w), gaps, 6, r);
        PoppedPrefix(r, w);
        assert r.rings[w].pushed[..done] == ring.pushed[..done];
        forall k <- r.logs | k.worker == w ensures Commands(r.logs[k]) == Project(ring.pushed[..done], k.instrument) {
          LogIsProjection(r, k);
        }
      } else {
        RestWithout(gaps, w, 6);
        LeadsKnown(s, WorkerTurn(w), gaps, 6, r);
        WorkerCatchesUp(r, w, m - 1, gaps[6..]);
        assert r.rings[w].pushed[..done] == ring.pushed[..done];
      }
    }
  }

  lemma NoRounds(s: System, turn: Turn)
    requires s.Inv()
    ensures CanRun(s, Interleaved(turn, [])) && Run(s, Interleaved(turn, [])) == s
  {
  }

  lemma LeadsKnown(s: System, turn: Turn, gaps: seq<seq<Turn>>, k: nat, r: System)
    requires s.Inv() && CanRun(s, Interleaved(turn, gaps)) && Leads(s, turn, gaps, k, r)
    ensures k <= |gaps| && r.Inv() && CanRun(r, Interleaved(turn, gaps[k..]))
    ensures Run(s, Interleaved(turn, gaps)) == Run(r, Interleaved(turn, gaps[k..]))
  {
  }

  lemma PoppedPrefix(s: System, w: nat)
    requires s.Inv() && w < |s.rings|
    ensures |s.rings[w].popped| <= |s.rings[w].pushed|
    ensures s.rings[w].popped == s.rings[w].pushed[..|s.rings[w].popped|]
  {
    RingOf(s, w);
    hide System.Inv;
  }

  lemma DealtKnown(s: System, w: nat, r: System)
    requires Dealt(s, w, r) && Popping(s, w)
    ensures |r.rings| == |s.rings| == |r.workers| && r.logs.Keys == s.logs.Keys
    ensures s.rings[w].pushed <= r.rings[w].pushed && |r.rings[w].popped| == |s.rings[w].popped| + 1
    ensures |s.rings[w].popped| < |s.rings[w].pushed| && r.rings[w].consumer.CIdle?
    ensures r.workers[w] ==
            Worker(|s.rings[w].popped| + 1, s.rings[w].pushed[|s.rings[w].popped|].kind == SHUTDOWN)
  {
  }
}
