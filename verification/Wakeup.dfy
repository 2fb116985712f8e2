/** The condition variable the send thread sleeps on. The application and the receive thread
    put messages into the send queue under send_lock and signal only after they have given the
    lock back; the application even queues a whole ageing round before its one signal. Still,
    the send thread never sleeps over a message that nobody is going to wake it for.

    The threads that fill the queue follow the text of the functions they call: what is said
    of them is said of their position in that text. */
module Wakeup {

  // ---- the calls, as far as send_lock, the queue and the signal go ----

  datatype Instr = Lock | Put | Unlock | Signal

  /** A critical section of send_lock: one that only looks, or one that queues a message. */
  datatype Section = Visit | Enqueue

  function Code(s: Section): seq<Instr> {
    match s
    case Visit => [Lock, Unlock]
    case Enqueue => [Lock, Put, Unlock]
  }

  function CodeOf(sections: seq<Section>): seq<Instr> {
    if sections == [] then [] else CodeOf(sections[..|sections| - 1]) + Code(sections[|sections| - 1])
  }

  /** `cbc_send`: the DATA message, the sections of the ageing round, and one signal. */
  function CbcSend(round: seq<Section>): seq<Instr> { Code(Enqueue) + CodeOf(round) + [Signal] }

  /** `ack_received_message`. */
  function AckReceivedMessage(): seq<Instr> { Code(Enqueue) + [Signal] }

  /** `request_retransmission`. */
  function RequestRetransmission(): seq<Instr> { Code(Enqueue) + [Signal] }

  /** `queue_retransmission`: looks for the message, and queues it if it is there. */
  function QueueRetransmission(found: bool): seq<Instr> {
    if found then Code(Visit) + Code(Enqueue) + [Signal] else Code(Visit)
  }

  /** `register_ack` and `cbc_collect_statistics` only look at what send_lock guards. */
  function LookOnly(): seq<Instr> { Code(Visit) }

  ghost predicate IsCall(c: seq<Instr>) {
    || (exists round :: c == CbcSend(round))
    || c == AckReceivedMessage()
    || c == RequestRetransmission()
    || (exists found :: c == QueueRetransmission(found))
    || c == LookOnly()
  }

  // ---- the threads ----

  /** Where the send thread is in its loop. */
  datatype Sender =
    | Wants          // about to lock, at the top of the loop
    | Tests          // holds the lock, about to test the queue
    | Waits          // has found the queue empty, still holds the lock, about to wait
    | Sleeps         // in pthread_cond_wait
    | Wakes          // signalled, about to take the lock again
    | Takes          // has found a message and removed it, still holds the lock
    | Works          // serialises and sends
    | WantsBuffer    // about to lock for the sent buffer
    | Buffers        // holds the lock, adds to the sent buffer

  /** A thread that fills the queue: the call it is in, and how far it has got. */
  datatype Producer = Producer(call: seq<Instr>, pc: nat)

  datatype Holder = Nobody | TheSender | AProducer(i: nat)

  datatype State = State(queue: nat, lock: Holder, sender: Sender, producers: seq<Producer>)

  datatype Action =
    | SenderMoves
    | SpuriousWake
    | Begin(i: nat, call: seq<Instr>)   // a producer at rest begins a call
    | Exec(i: nat)                      // a producer takes the next step of its call

  predicate AtRest(p: Producer) { p.pc >= |p.call| }

  ghost predicate Init(s: State) {
    && s.queue == 0 && s.lock == Nobody && s.sender == Wants
    && forall i :: 0 <= i < |s.producers| ==> s.producers[i] == Producer([], 0)
  }

  function Wake(s: State): State { if s.sender == Sleeps then s.(sender := Wakes) else s }

  function SetProducer(s: State, i: nat, p: Producer): State
    requires i < |s.producers|
  {
    s.(producers := s.producers[i := p])
  }

  /** The loop of `cbc_send_thread`. `pthread_cond_wait` gives the lock back and goes to sleep
      in one step, and takes the lock again before the queue is tested again. */
  ghost predicate SenderStep(s: State, s': State) {
    match s.sender
    case Wants => s.lock == Nobody && s' == s.(lock := TheSender, sender := Tests)
    case Tests =>
      if s.queue == 0 then s' == s.(sender := Waits)
      else s' == s.(queue := s.queue - 1, sender := Takes)
    case Waits => s' == s.(lock := Nobody, sender := Sleeps)
    case Sleeps => false
    case Wakes => s.lock == Nobody && s' == s.(lock := TheSender, sender := Tests)
    case Takes => s' == s.(lock := Nobody, sender := Works)
    case Works => s' == s.(sender := Wants) || s' == s.(sender := WantsBuffer)
    case WantsBuffer => s.lock == Nobody && s' == s.(lock := TheSender, sender := Buffers)
    case Buffers => s' == s.(lock := Nobody, sender := Wants)
  }

  predicate CanExec(s: State, i: nat) {
    && i < |s.producers| && !AtRest(s.producers[i])
    && (s.producers[i].call[s.producers[i].pc] == Lock ==> s.lock == Nobody)
  }

  /** The state after producer `i` has taken its next step. */
  function AfterExec(s: State, i: nat): State
    requires CanExec(s, i)
  {
    var p := s.producers[i];
    var on := SetProducer(s, i, p.(pc := p.pc + 1));
    match p.call[p.pc]
    case Lock => on.(lock := AProducer(i))
    case Put => on.(queue := s.queue + 1)
    case Unlock => on.(lock := Nobody)
    case Signal => Wake(on)
  }

  ghost predicate Step(s: State, a: Action, s': State) {
    match a
    case SenderMoves => SenderStep(s, s')
    case SpuriousWake => s.sender == Sleeps && s' == Wake(s)
    case Begin(i, c) =>
      i < |s.producers| && AtRest(s.producers[i]) && IsCall(c) && s' == SetProducer(s, i, Producer(c, 0))
    case Exec(i) => CanExec(s, i) && s' == AfterExec(s, i)
  }

  ghost predicate Next(s: State, s': State) { exists a :: Step(s, a, s') }

  ghost predicate IsRun(run: seq<State>) {
    && |run| > 0 && Init(run[0])
    && forall i, j {:trigger Next(run[i], run[j])} :: 0 <= i && j == i + 1 && j < |run| ==> Next(run[i], run[j])
  }

  // ---- the text of the calls ----

  predicate Opens(x: Instr) { x == Lock || x == Put }

  /** Critical sections are closed where they were opened, and messages are queued in them. */
  predicate Nested(c: seq<Instr>) {
    && (forall i :: 0 <= i < |c| && c[i] == Lock ==> i + 1 < |c| && (c[i + 1] == Put || c[i + 1] == Unlock))
    && (forall i :: 0 <= i < |c| && c[i] == Put ==> 0 < i && c[i - 1] == Lock && i + 1 < |c| && c[i + 1] == Unlock)
    && (forall i :: 0 <= i < |c| && c[i] == Unlock ==> 0 < i && Opens(c[i - 1]))
  }

  /** A signal lies ahead of position `pc`. */
  predicate SignalAhead(c: seq<Instr>, pc: nat) {
    exists j :: pc <= j < |c| && c[j] == Signal
  }

  /** Whatever a call queues it announces later in its text. */
  predicate Announces(c: seq<Instr>) {
    forall i :: 0 <= i < |c| && c[i] == Put ==> SignalAhead(c, i + 1)
  }

  lemma NestedConcat(a: seq<Instr>, b: seq<Instr>)
    requires Nested(a) && Nested(b)
    ensures Nested(a + b)
  {
    var c := a + b;
    forall i | 0 <= i < |c|
      ensures c[i] == Lock ==> i + 1 < |c| && (c[i + 1] == Put || c[i + 1] == Unlock)
      ensures c[i] == Put ==> 0 < i && c[i - 1] == Lock && i + 1 < |c| && c[i + 1] == Unlock
      ensures c[i] == Unlock ==> 0 < i && Opens(c[i - 1])
    {
      if i >= |a| {
        assert c[i] == b[i - |a|];
      }
    }
  }

  lemma {:induction false} SectionsNested(sections: seq<Section>)
    ensures Nested(CodeOf(sections))
  {
    if sections != [] {
      SectionsNested(sections[..|sections| - 1]);
      NestedConcat(CodeOf(sections[..|sections| - 1]), Code(sections[|sections| - 1]));
    }
  }

  lemma CodeNested(s: Section)
    ensures Nested(Code(s))
  {
  }

  /** Ending with a signal, a call announces everything it has queued. */
  lemma SignalEnds(c: seq<Instr>)
    requires Nested(c)
    ensures Nested(c + [Signal]) && Announces(c + [Signal])
  {
    var d := c + [Signal];
    NestedConcat(c, [Signal]);
    forall i | 0 <= i < |d| && d[i] == Put ensures SignalAhead(d, i + 1) {
      assert i < |c| && d[|c|] == Signal;
    }
  }

  lemma EnqueueSignals()
    ensures var c := Code(Enqueue) + [Signal]; Nested(c) && Announces(c)
  {
    CodeNested(Enqueue);
    SignalEnds(Code(Enqueue));
  }

  lemma CbcSendAnnounces(round: seq<Section>)
    ensures Nested(CbcSend(round)) && Announces(CbcSend(round))
  {
    CodeNested(Enqueue);
    SectionsNested(round);
    NestedConcat(Code(Enqueue), CodeOf(round));
    SignalEnds(Code(Enqueue) + CodeOf(round));
  }

  lemma QueueRetransmissionAnnounces(found: bool)
    ensures Nested(QueueRetransmission(found)) && Announces(QueueRetransmission(found))
  {
    CodeNested(Visit);
    CodeNested(Enqueue);
    NestedConcat(Code(Visit), Code(Enqueue));
    SignalEnds(Code(Visit) + Code(Enqueue));
  }

  /** Every call of the program is well nested, and ends with the signal it owes. */
  lemma CallsAnnounce(c: seq<Instr>)
    requires IsCall(c)
    ensures Nested(c) && Announces(c)
  {
    if round :| c == CbcSend(round) {
      CbcSendAnnounces(round);
    } else if found :| c == QueueRetransmission(found) {
      QueueRetransmissionAnnounces(found);
    } else {
      EnqueueSignals();
      CodeNested(Visit);
    }
  }

  // ---- the invariant ----

  predicate SenderHolds(p: Sender) { p == Tests || p == Waits || p == Takes || p == Buffers }

  predicate InSection(p: Producer) { 0 < p.pc <= |p.call| && Opens(p.call[p.pc - 1]) }

  ghost predicate LockOk(s: State) {
    && (s.lock == TheSender <==> SenderHolds(s.sender))
    && (forall i: nat :: i < |s.producers| ==> (s.lock == AProducer(i) <==> InSection(s.producers[i])))
    && (s.lock.AProducer? ==> s.lock.i < |s.producers|)
  }

  /** A message has been queued in this call and no signal has followed yet. */
  predicate PutSince(c: seq<Instr>, pc: nat) {
    exists i :: 0 <= i < pc && i < |c| && c[i] == Put && forall k :: i < k < pc && k < |c| ==> c[k] != Signal
  }

  /** The thread is, in the text of its call, after a message it has queued and before a signal
      that the text still makes it reach. */
  predicate Owes(p: Producer) { PutSince(p.call, p.pc) && SignalAhead(p.call, p.pc) }

  ghost predicate SomeoneOwes(s: State) {
    exists i :: 0 <= i < |s.producers| && Owes(s.producers[i])
  }

  predicate TextOk(p: Producer) { Nested(p.call) && Announces(p.call) && p.pc <= |p.call| }

  ghost predicate Inv(s: State) {
    && LockOk(s)
    && (forall i :: 0 <= i < |s.producers| ==> TextOk(s.producers[i]))
    && (s.sender == Waits ==> s.queue == 0)
    && (s.sender == Sleeps && s.queue > 0 ==> SomeoneOwes(s))
  }

  /** Queueing a message makes a thread owe; only its signal settles that. */
  lemma OwesOn(p: Producer)
    requires TextOk(p) && !AtRest(p)
    ensures p.call[p.pc] == Put ==> Owes(p.(pc := p.pc + 1))
    ensures Owes(p) && p.call[p.pc] != Signal ==> Owes(p.(pc := p.pc + 1))
  {
    var c, next := p.call, p.pc + 1;
    if c[p.pc] == Put {
      assert PutSince(c, next);
    } else if Owes(p) && c[p.pc] != Signal {
      var i :| 0 <= i < p.pc && i < |c| && c[i] == Put && forall k :: i < k < p.pc && k < |c| ==> c[k] != Signal;
      assert PutSince(c, next);
      var j :| p.pc <= j < |c| && c[j] == Signal;
      assert next <= j;
    }
  }

  lemma ExecKeepsLock(s: State, i: nat)
    requires Inv(s) && CanExec(s, i)
    ensures LockOk(AfterExec(s, i)) && TextOk(AfterExec(s, i).producers[i])
  {
    var p := s.producers[i];
    assert TextOk(p);
  }

  lemma ExecKeepsInv(s: State, i: nat)
    requires Inv(s) && CanExec(s, i)
    ensures Inv(AfterExec(s, i))
  {
    var p, s' := s.producers[i], AfterExec(s, i);
    ExecKeepsLock(s, i);
    OwesOn(p);
    if s'.sender == Sleeps && s'.queue > 0 {
      if p.call[p.pc] == Put {
        assert Owes(s'.producers[i]);
      } else {
        var j :| 0 <= j < |s.producers| && Owes(s.producers[j]);
        assert Owes(s'.producers[j]);
      }
    }
  }

  lemma BeginKeepsLock(s: State, i: nat, c: seq<Instr>, s': State)
    requires Inv(s) && Step(s, Begin(i, c), s')
    ensures LockOk(s')
  {
    assert TextOk(s.producers[i]);
    forall j: nat | j < |s'.producers| ensures s'.lock == AProducer(j) <==> InSection(s'.producers[j]) {
      assert s.lock == AProducer(j) <==> InSection(s.producers[j]);
    }
  }

  lemma BeginKeepsInv(s: State, i: nat, c: seq<Instr>, s': State)
    requires Inv(s) && Step(s, Begin(i, c), s')
    ensures Inv(s')
  {
    CallsAnnounce(c);
    BeginKeepsLock(s, i, c, s');
    if s'.sender == Sleeps && s'.queue > 0 {
      var j :| 0 <= j < |s.producers| && Owes(s.producers[j]);
      assert j != i && Owes(s'.producers[j]);
    }
  }

  lemma SenderKeepsInv(s: State, a: Action, s': State)
    requires Inv(s) && Step(s, a, s') && (a.SenderMoves? || a.SpuriousWake?)
    ensures Inv(s')
  {
    assert s'.producers == s.producers;
  }

  lemma StepKeepsInv(s: State, a: Action, s': State)
    requires Inv(s) && Step(s, a, s')
    ensures Inv(s')
  {
    match a
    case Begin(i, c) => BeginKeepsInv(s, i, c, s');
    case Exec(i) => ExecKeepsInv(s, i);
    case _ => SenderKeepsInv(s, a, s');
  }

  lemma {:induction false} RunKeepsInv(run: seq<State>, i: nat)
    requires IsRun(run) && i < |run|
    ensures Inv(run[i])
  {
    if i > 0 {
      RunKeepsInv(run, i - 1);
      assert Next(run[i - 1], run[i]);
      var a :| Step(run[i - 1], a, run[i]);
      StepKeepsInv(run[i - 1], a, run[i]);
    }
  }

  // ---- what is queued is in the queue ----

  /** A producer takes a step of its call, and the step is the `Put` of its text. */
  predicate Puts(b: State, e: State) {
    && |b.producers| == |e.producers|
    && exists i :: 0 <= i < |b.producers| && PutsItself(b.producers[i], e.producers[i])
  }

  predicate PutsItself(p: Producer, p': Producer) {
    p.pc < |p.call| && p.call[p.pc] == Put && p' == Producer(p.call, p.pc + 1)
  }

  /** The send thread finds a message and takes it. */
  predicate Takings(b: State, e: State) { b.sender == Tests && e.sender == Takes }

  function NumPuts(run: seq<State>): nat {
    if |run| <= 1 then 0
    else NumPuts(run[..|run| - 1]) + if Puts(run[|run| - 2], run[|run| - 1]) then 1 else 0
  }

  function NumTakings(run: seq<State>): nat {
    if |run| <= 1 then 0
    else NumTakings(run[..|run| - 1]) + if Takings(run[|run| - 2], run[|run| - 1]) then 1 else 0
  }

  function One(b: bool): nat { if b then 1 else 0 }

  lemma ExecPuts(s: State, i: nat)
    requires CanExec(s, i)
    ensures Puts(s, AfterExec(s, i)) <==> s.producers[i].call[s.producers[i].pc] == Put
    ensures !Takings(s, AfterExec(s, i))
  {
    var s', p := AfterExec(s, i), s.producers[i];
    assert s'.producers[i] == Producer(p.call, p.pc + 1);
    assert PutsItself(p, s'.producers[i]) <==> p.call[p.pc] == Put;
  }

  lemma StepConserves(s: State, a: Action, s': State)
    requires Step(s, a, s')
    ensures s'.queue + One(Takings(s, s')) == s.queue + One(Puts(s, s'))
  {
    match a
    case Exec(i) => ExecPuts(s, i);
    case Begin(i, c) => assert forall j :: 0 <= j < |s.producers| && j != i ==> s'.producers[j] == s.producers[j];
    case _ => assert s'.producers == s.producers;
  }

  /** In every run the queue holds what has been put there and not been taken. */
  lemma {:induction false} QueueConserves(run: seq<State>)
    requires IsRun(run)
    ensures run[|run| - 1].queue + NumTakings(run) == NumPuts(run)
    decreases |run|
  {
    if |run| > 1 {
      var init := run[..|run| - 1];
      forall i, j | 0 <= i && j == i + 1 && j < |init| ensures Next(init[i], init[j]) {
        assert Next(run[i], run[j]);
      }
      QueueConserves(init);
      assert Next(run[|run| - 2], run[|run| - 1]);
      var a :| Step(run[|run| - 2], a, run[|run| - 1]);
      StepConserves(run[|run| - 2], a, run[|run| - 1]);
    }
  }

  // ---- no lost wakeup ----

  /** No lost wakeup: if the send thread sleeps although the queue is not empty, some thread is
      between a message it has queued and a signal that its call still makes it reach. */
  lemma NoLostWakeup(run: seq<State>, i: nat)
    requires IsRun(run) && i < |run|
    requires run[i].sender == Sleeps && run[i].queue > 0
    ensures SomeoneOwes(run[i])
  {
    RunKeepsInv(run, i);
  }

  /** ... which does happen: the send thread goes to sleep, and an acknowledgement is queued. */
  lemma SleepsOverMessage() returns (run: seq<State>)
    ensures IsRun(run) && run[|run| - 1].sender == Sleeps && run[|run| - 1].queue == 1
  {
    var c := AckReceivedMessage();
    assert c == [Lock, Put, Unlock, Signal];
    var idle, at0, at1, at2 := Producer([], 0), Producer(c, 0), Producer(c, 1), Producer(c, 2);
    var s0 := State(0, Nobody, Wants, [idle]);
    var s1 := s0.(lock := TheSender, sender := Tests);
    var s2, s3 := s1.(sender := Waits), s0.(sender := Sleeps);
    var s4 := s3.(producers := [at0]);
    var s5 := s3.(lock := AProducer(0), producers := [at1]);
    var s6 := s5.(queue := 1, producers := [at2]);
    assert Step(s0, SenderMoves, s1) && Step(s1, SenderMoves, s2) && Step(s2, SenderMoves, s3);
    assert Step(s3, Begin(0, c), s4) by { assert [idle][0 := at0] == [at0]; }
    assert Step(s4, Exec(0), s5) by { assert [at0][0 := at1] == [at1]; }
    assert Step(s5, Exec(0), s6) by { assert [at1][0 := at2] == [at2]; }
    run := [s0, s1, s2, s3, s4, s5, s6];
  }

  /** ... so when all calls have returned, a sleeping send thread has an empty queue. */
  lemma QuietMeansEmpty(run: seq<State>, i: nat)
    requires IsRun(run) && i < |run| && run[i].sender == Sleeps
    requires forall j :: 0 <= j < |run[i].producers| ==> AtRest(run[i].producers[j])
    ensures run[i].queue == 0
  {
    RunKeepsInv(run, i);
  }

  /** The producers named in `ks`, one after the other, take the next step of the calls they
      are in; no call is begun, and the send thread does nothing by itself. */
  ghost predicate Executes(s: State, ks: seq<nat>, s': State)
    decreases |ks|
  {
    if ks == [] then s' == s
    else CanExec(s, ks[0]) && Executes(AfterExec(s, ks[0]), ks[1..], s')
  }

  lemma {:induction false} ExecutesOn(s: State, ks: seq<nat>, m: State, more: seq<nat>, s': State)
    requires Executes(s, ks, m) && Executes(m, more, s')
    ensures Executes(s, ks + more, s')
    decreases |ks|
  {
    if ks == [] {
      assert ks + more == more;
    } else {
      ExecutesOn(AfterExec(s, ks[0]), ks[1..], m, more, s');
      assert (ks + more)[0] == ks[0] && (ks + more)[1..] == ks[1..] + more;
    }
  }

  lemma ExecutesFirst(s: State, k: nat, ks: seq<nat>, s': State)
    requires CanExec(s, k) && Executes(AfterExec(s, k), ks, s')
    ensures Executes(s, [k] + ks, s')
  {
    assert ([k] + ks)[1..] == ks;
  }

  /** A thread in a critical section of send_lock leaves it, and still owes what it owed. */
  lemma {:induction false} LeavesSection(s: State, k: nat) returns (ks: seq<nat>, s': State)
    requires Inv(s) && s.lock == AProducer(k)
    ensures Executes(s, ks, s') && Inv(s')
    ensures s'.lock == Nobody && s'.sender == s.sender && |s'.producers| == |s.producers|
    ensures forall j :: 0 <= j < |s.producers| && Owes(s.producers[j]) ==> Owes(s'.producers[j])
    decreases if k < |s.producers| then |s.producers[k].call| - s.producers[k].pc else 0
  {
    var p := s.producers[k];
    assert TextOk(p) && InSection(p);
    OwesOn(p);
    ExecKeepsInv(s, k);
    var m := AfterExec(s, k);
    if p.call[p.pc] == Unlock {
      ks, s' := [], m;
    } else {
      ks, s' := LeavesSection(m, k);
    }
    ExecutesFirst(s, k, ks, s');
    ks := [k] + ks;
  }

  /** A thread with a signal ahead, and the lock not in other hands, comes to its signal. */
  lemma {:induction false} ComesToSignal(s: State, k: nat) returns (ks: seq<nat>, s': State)
    requires Inv(s) && s.sender == Sleeps && k < |s.producers|
    requires SignalAhead(s.producers[k].call, s.producers[k].pc)
    requires s.lock == Nobody || s.lock == AProducer(k)
    ensures Executes(s, ks, s') && s'.sender == Wakes
    decreases |s.producers[k].call| - s.producers[k].pc
  {
    var p := s.producers[k];
    assert TextOk(p);
    LockIsFree(p, s.lock == AProducer(k));
    ExecKeepsInv(s, k);
    var m := AfterExec(s, k);
    if p.call[p.pc] == Signal {
      ks, s' := [], m;
    } else {
      var j :| p.pc <= j < |p.call| && p.call[j] == Signal;
      assert SignalAhead(p.call, p.pc + 1);
      ks, s' := ComesToSignal(m, k);
    }
    ExecutesFirst(s, k, ks, s');
    ks := [k] + ks;
  }

  /** No thread asks for the lock it holds. */
  lemma LockIsFree(p: Producer, holds: bool)
    requires TextOk(p) && !AtRest(p) && holds == InSection(p)
    ensures holds ==> p.call[p.pc] != Lock
  {
  }

  /** ... and until then nothing is in its way: the calls that are under way wake the send
      thread by themselves. */
  lemma WakeupComes(run: seq<State>, i: nat) returns (ks: seq<nat>, s': State)
    requires IsRun(run) && i < |run| && run[i].sender == Sleeps && run[i].queue > 0
    ensures Executes(run[i], ks, s') && s'.sender == Wakes
  {
    RunKeepsInv(run, i);
    var s := run[i];
    var k: nat :| k < |s.producers| && Owes(s.producers[k]);
    var first, m := [], s;
    if s.lock.AProducer? {
      first, m := LeavesSection(s, s.lock.i);
    }
    var more;
    more, s' := ComesToSignal(m, k);
    ExecutesOn(s, first, m, more, s');
    ks := first + more;
  }
}
