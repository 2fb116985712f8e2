/** The locks the threads take. Every nested acquisition follows the order send_lock,
    recv_lock, and then one of peer_lock, the clock's mutex and stats_lock; so whatever the
    interleaving, threads never wait for each other in a circle. */
module Locks {
  import opened Messages

  datatype Lock = SendLock | RecvLock | PeerLock | ClockLock | StatsLock

  function Rank(l: Lock): nat {
    match l
    case SendLock => 0
    case RecvLock => 1
    case PeerLock => 2
    case ClockLock => 2
    case StatsLock => 2
  }

  /** What a function does to the locks, with everything else left to chance. */
  datatype Prog =
    | Skip
    | Acquire(l: Lock)
    | Release(l: Lock)
    | Sleep                       // blocked in pthread_cond_wait until signalled
    | Then(first: Prog, rest: Prog)
    | Either(left: Prog, right: Prog)
    | Repeat(body: Prog)

  // ---- the order ----

  predicate MayTake(held: set<Lock>, l: Lock) { forall h :: h in held ==> Rank(h) < Rank(l) }

  /** The locks held after `p`, if it is started with `held` and keeps the order. */
  function Check(p: Prog, held: set<Lock>): Option<set<Lock>> {
    match p
    case Skip => Some(held)
    case Acquire(l) => if MayTake(held, l) then Some(held + {l}) else None
    case Release(l) => if l in held then Some(held - {l}) else None
    case Sleep => if held == {} then Some(held) else None
    case Then(a, b) => (match Check(a, held) case None => None case Some(h) => Check(b, h))
    case Either(a, b) => if Check(a, held) == Check(b, held) then Check(a, held) else None
    case Repeat(a) => if Check(a, held) == Some(held) then Some(held) else None
  }

  function CheckAll(todo: seq<Prog>, held: set<Lock>): Option<set<Lock>> {
    if todo == [] then Some(held)
    else match Check(todo[0], held) case None => None case Some(h) => CheckAll(todo[1..], h)
  }

  // ---- the threads together ----

  datatype Thread = Thread(todo: seq<Prog>, held: set<Lock>)

  type State = seq<Thread>

  predicate Free(s: State, l: Lock) { forall i :: 0 <= i < |s| ==> l !in s[i].held }

  /** What a thread may become in one step; `free` are the locks nobody holds. */
  ghost predicate ThreadStep(t: Thread, free: set<Lock>, t': Thread) {
    && t.todo != []
    && var rest := t.todo[1..];
       match t.todo[0]
       case Skip => t' == t.(todo := rest)
       case Sleep => t' == t.(todo := rest)
       case Acquire(l) => l in free && t' == Thread(rest, t.held + {l})
       case Release(l) => t' == Thread(rest, t.held - {l})
       case Then(a, b) => t' == t.(todo := [a, b] + rest)
       case Either(a, b) => t' == t.(todo := [a] + rest) || t' == t.(todo := [b] + rest)
       case Repeat(a) => t' == t.(todo := rest) || t' == t.(todo := [a, Repeat(a)] + rest)
  }

  ghost function FreeLocks(s: State): set<Lock> { set l: Lock | Free(s, l) }

  ghost predicate Step(s: State, i: nat, s': State) {
    i < |s| && |s'| == |s| && ThreadStep(s[i], FreeLocks(s), s'[i]) && s' == s[i := s'[i]]
  }

  ghost predicate Next(s: State, s': State) { exists i: nat :: Step(s, i, s') }

  ghost predicate IsRun(run: seq<State>) {
    && |run| > 0
    && (forall i :: 0 <= i < |run[0]| ==> Starts(run[0][i]))
    && forall i, j {:trigger Next(run[i], run[j])} :: 0 <= i && j == i + 1 && j < |run| ==> Next(run[i], run[j])
  }

  /** A thread at its start: any number of each kind may run. */
  ghost predicate Starts(t: Thread) {
    t.held == {} && t.todo in {[AppThread()], [SendThread()], [RecvThread()]}
  }

  // ---- the invariant ----

  predicate InOrder(t: Thread) { CheckAll(t.todo, t.held) == Some({}) }

  ghost predicate Exclusive(s: State) {
    forall i, j :: 0 <= i < j < |s| ==> s[i].held !! s[j].held
  }

  ghost predicate Inv(s: State) {
    Exclusive(s) && forall i :: 0 <= i < |s| ==> InOrder(s[i])
  }

  lemma CheckFront(a: Prog, rest: seq<Prog>, held: set<Lock>)
    ensures CheckAll([a] + rest, held) == match Check(a, held) case None => None case Some(h) => CheckAll(rest, h)
  {
    assert ([a] + rest)[1..] == rest;
  }

  lemma CheckFrontTwo(a: Prog, b: Prog, rest: seq<Prog>, held: set<Lock>)
    ensures CheckAll([a, b] + rest, held) == CheckAll([Then(a, b)] + rest, held)
  {
    assert [a, b] + rest == [a] + ([b] + rest);
    CheckFront(a, [b] + rest, held);
    CheckFront(Then(a, b), rest, held);
    if Check(a, held).Some? {
      CheckFront(b, rest, Check(a, held).value);
    }
  }

  /** A step of a thread that keeps the order leaves one that does. */
  lemma StepKeepsOrder(t: Thread, free: set<Lock>, t': Thread)
    requires InOrder(t) && ThreadStep(t, free, t')
    ensures InOrder(t')
    ensures t'.held <= t.held + free
  {
    var rest := t.todo[1..];
    assert t.todo == [t.todo[0]] + rest;
    match t.todo[0]
    case Then(a, b) => CheckFrontTwo(a, b, rest, t.held);
    case Either(a, b) =>
      CheckFront(a, rest, t.held);
      CheckFront(b, rest, t.held);
    case Repeat(a) =>
      CheckFront(a, [Repeat(a)] + rest, t.held);
      assert [a, Repeat(a)] + rest == [a] + ([Repeat(a)] + rest);
    case _ =>
  }

  lemma StepKeepsInv(s: State, s': State)
    requires Inv(s) && Next(s, s')
    ensures Inv(s')
  {
    var i: nat :| Step(s, i, s');
    StepKeepsOrder(s[i], FreeLocks(s), s'[i]);
    forall j | 0 <= j < |s| && j != i ensures s'[j] == s[j] && s'[j].held !! s'[i].held {
      assert s[j].held !! s[i].held;
      assert s[j].held !! FreeLocks(s);
    }
  }

  lemma {:induction false} RunKeepsInv(run: seq<State>, i: nat)
    requires IsRun(run) && i < |run|
    ensures Inv(run[i])
  {
    if i == 0 {
      forall j | 0 <= j < |run[0]| ensures InOrder(run[0][j]) {
        StartsInOrder(run[0][j]);
      }
    } else {
      RunKeepsInv(run, i - 1);
      assert Next(run[i - 1], run[i]);
      StepKeepsInv(run[i - 1], run[i]);
    }
  }

  // ---- mutual exclusion ----

  /** Thread `i` gets past an instruction: its text shows which. */
  predicate Passes(s: State, s': State, i: nat, p: Prog) {
    i < |s| && i < |s'| && s[i].todo != [] && s[i].todo[0] == p && s'[i].todo == s[i].todo[1..]
  }

  lemma PassesHolds(s: State, s': State, i: nat, l: Lock)
    requires Next(s, s') && i < |s|
    ensures |s'| == |s|
    ensures Passes(s, s', i, Acquire(l)) ==> Free(s, l) && l in s'[i].held
    ensures l in s[i].held && !Passes(s, s', i, Release(l)) ==> l in s'[i].held
  {
    var j: nat :| Step(s, j, s');
    if i != j {
      assert s'[i] == s[i];
    }
  }

  /** A thread that has taken a lock holds it until it gets past a release. */
  lemma {:induction false} KeepsLock(run: seq<State>, k: nat, m: nat, i: nat, l: Lock)
    requires IsRun(run) && k < m < |run| && i < |run[k]|
    requires Passes(run[k], run[k + 1], i, Acquire(l))
    requires forall n :: k < n < m ==> !Released(run, n, i, l)
    ensures i < |run[m]| && l in run[m][i].held
    decreases m
  {
    assert Next(run[m - 1], run[m]);
    if m > k + 1 {
      KeepsLock(run, k, m - 1, i, l);
      assert !Released(run, m - 1, i, l);
    }
    PassesHolds(run[m - 1], run[m], i, l);
  }

  predicate Released(run: seq<State>, n: nat, i: nat, l: Lock) {
    n + 1 < |run| && Passes(run[n], run[n + 1], i, Release(l))
  }

  /** Mutual exclusion, told by the texts alone: between a thread's taking a lock and any thread's
      taking it the next time, the first one has released it. */
  lemma MutualExclusion(run: seq<State>, k: nat, m: nat, a: nat, b: nat, l: Lock)
    requires IsRun(run) && k < m < |run| - 1 && a < |run[k]|
    requires Passes(run[k], run[k + 1], a, Acquire(l)) && Passes(run[m], run[m + 1], b, Acquire(l))
    ensures exists n :: k < n < m && Released(run, n, a, l)
  {
    if forall n :: k < n < m ==> !Released(run, n, a, l) {
      KeepsLock(run, k, m, a, l);
      assert Next(run[m], run[m + 1]);
      PassesHolds(run[m], run[m + 1], b, l);
    }
  }

  // ---- no deadlock ----

  /** Thread `i` wants a lock that thread `j` holds. */
  predicate WaitsFor(s: State, i: nat, j: nat) {
    i < |s| && j < |s| && s[i].todo != [] && s[i].todo[0].Acquire? && s[i].todo[0].l in s[j].held
  }

  ghost predicate Blocked(s: State, i: nat) { exists j: nat :: WaitsFor(s, i, j) }

  /** A thread that holds a lock and waits for another one waits for a higher one. */
  lemma WaitsUpwards(s: State, i: nat, j: nat, k: nat)
    requires Inv(s) && WaitsFor(s, i, j) && WaitsFor(s, j, k)
    ensures Rank(s[i].todo[0].l) < Rank(s[j].todo[0].l)
  {
    assert InOrder(s[j]);
  }

  ghost predicate WaitChain(s: State, chain: seq<nat>) {
    && |chain| >= 2
    && forall a, b :: 0 <= a && b == a + 1 && b < |chain| ==> WaitsFor(s, chain[a], chain[b])
  }

  lemma {:induction false} ChainClimbs(s: State, chain: seq<nat>, k: nat)
    requires Inv(s) && WaitChain(s, chain) && 0 < k < |chain| - 1
    ensures WaitsFor(s, chain[0], chain[1]) && WaitsFor(s, chain[k], chain[k + 1])
    ensures Rank(s[chain[0]].todo[0].l) < Rank(s[chain[k]].todo[0].l)
  {
    var c0, c1, ck, next := chain[0], chain[1], chain[k], chain[k + 1];
    assert WaitsFor(s, c0, c1) && WaitsFor(s, ck, next);
    if k == 1 {
      WaitsUpwards(s, c0, c1, next);
    } else {
      ChainClimbs(s, chain, k - 1);
      WaitsUpwards(s, chain[k - 1], ck, next);
    }
  }

  /** No circle of waiting threads in any state of any run. */
  lemma NoCircle(run: seq<State>, i: nat, chain: seq<nat>)
    requires IsRun(run) && i < |run| && WaitChain(run[i], chain)
    ensures chain[0] != chain[|chain| - 1]
  {
    RunKeepsInv(run, i);
    var s, n := run[i], |chain|;
    var a, b := chain[n - 2], chain[n - 1];
    assert WaitsFor(s, a, b);
    if n == 2 {
      assert chain[0] == a;
      NoSelfWait(s, a);
    } else if chain[0] == b {
      ChainClimbs(s, chain, n - 2);
      WaitsUpwards(s, a, b, chain[1]);
    }
  }

  lemma NoSelfWait(s: State, i: nat)
    requires Inv(s)
    ensures !WaitsFor(s, i, i)
  {
    if i < |s| {
      assert InOrder(s[i]);
    }
  }

  /** If a thread waits for a lock, a thread that holds one can go on at once: it is neither
      blocked nor asleep. */
  lemma SomeoneGoesOn(run: seq<State>, i: nat, w: nat) returns (j: nat, t': Thread)
    requires IsRun(run) && i < |run| && w < |run[i]| && Blocked(run[i], w)
    ensures j < |run[i]| && run[i][j].held != {} && !Blocked(run[i], j)
    ensures run[i][j].todo != [] && run[i][j].todo[0] != Sleep
    ensures ThreadStep(run[i][j], FreeLocks(run[i]), t')
  {
    RunKeepsInv(run, i);
    j := Holder(run[i], w);
    t' := GoesOn(run[i], j);
  }

  lemma Advance(run: seq<State>, i: nat, t': Thread) returns (run': seq<State>)
    requires IsRun(run) && i < |run[|run| - 1]|
    requires ThreadStep(run[|run| - 1][i], FreeLocks(run[|run| - 1]), t')
    ensures IsRun(run') && run'[|run'| - 1] == run[|run| - 1][i := t']
  {
    var s := run[|run| - 1];
    assert Step(s, i, s[i := t']);
    run' := run + [s[i := t']];
    forall a, b | 0 <= a && b == a + 1 && b < |run'| ensures Next(run'[a], run'[b]) {
      if b < |run| {
        assert Next(run[a], run[b]);
      }
    }
  }

  /** A send thread that has not begun comes to want send_lock. */
  lemma ComesToLock(run: seq<State>, i: nat) returns (run': seq<State>)
    requires IsRun(run) && i < |run[|run| - 1]| && run[|run| - 1][i] == Thread([SendThread()], {})
    ensures IsRun(run') && exists t: Thread :: run'[|run'| - 1] == run[|run| - 1][i := t] && WantsSendLock(t)
  {
    var loop := SendThread();
    var body := loop.body;
    var section, work := body.first, body.rest;
    assert [loop][1..] == [];
    run' := Advance(run, i, Thread([body, loop], {}));
    assert [body, loop][1..] == [loop];
    run' := Advance(run', i, Thread([section, work, loop], {}));
    assert [section, work, loop][1..] == [work, loop];
    var t := Thread([section.first, section.rest, work, loop], {});
    run' := Advance(run', i, t);
    assert WantsSendLock(t);
  }

  predicate WantsSendLock(t: Thread) { t.todo != [] && t.todo[0] == Acquire(SendLock) && t.held == {} }

  /** Threads do come to wait: of two that want send_lock the first takes it. */
  lemma SomeoneWaits() returns (run: seq<State>)
    ensures IsRun(run) && |run[|run| - 1]| == 2 && Blocked(run[|run| - 1], 1)
  {
    var t := Thread([SendThread()], {});
    run := [[t, t]];
    run := ComesToLock(run, 0);
    run := ComesToLock(run, 1);
    var s := run[|run| - 1];
    assert Free(s, SendLock);
    run := Advance(run, 0, Thread(s[0].todo[1..], {} + {SendLock}));
    assert WaitsFor(run[|run| - 1], 1, 0);
  }

  lemma {:induction false} Holder(s: State, w: nat) returns (j: nat)
    requires Inv(s) && w < |s| && Blocked(s, w)
    ensures j < |s| && s[j].held != {} && !Blocked(s, j)
    decreases 3 - Rank(s[w].todo[0].l)
  {
    j :| WaitsFor(s, w, j);
    if Blocked(s, j) {
      var k :| WaitsFor(s, j, k);
      WaitsUpwards(s, w, j, k);
      j := Holder(s, j);
    }
  }

  lemma GoesOn(s: State, j: nat) returns (t': Thread)
    requires Inv(s) && j < |s| && s[j].held != {} && !Blocked(s, j)
    ensures s[j].todo != [] && s[j].todo[0] != Sleep && ThreadStep(s[j], FreeLocks(s), t')
  {
    var t := s[j];
    assert InOrder(t);
    var rest := t.todo[1..];
    match t.todo[0]
    case Skip => t' := t.(todo := rest);
    case Acquire(l) =>
      assert Free(s, l) by {
        forall i | 0 <= i < |s| ensures l !in s[i].held {
          assert !WaitsFor(s, j, i);
        }
      }
      t' := Thread(rest, t.held + {l});
    case Release(l) => t' := Thread(rest, t.held - {l});
    case Then(a, b) => t' := t.(todo := [a, b] + rest);
    case Either(a, b) => t' := t.(todo := [a] + rest);
    case Repeat(a) => t' := t.(todo := rest);
    case Sleep => t' := t;
  }

  // ---- the functions of the program ----

  function Section(l: Lock, p: Prog): Prog { Then(Acquire(l), Then(p, Release(l))) }

  function Enqueue(): Prog { Section(SendLock, Skip) }

  function AddrCopy(): Prog { Section(PeerLock, Skip) }

  // receive.c

  function CbcReceive(): Prog { Then(Section(RecvLock, Skip), Either(Skip, Section(StatsLock, Skip))) }

  function AckReceivedMessage(): Prog { Then(AddrCopy(), Either(Skip, Enqueue())) }

  function RequestRetransmission(): Prog {
    Then(Section(ClockLock, Skip), Then(AddrCopy(), Either(Skip, Enqueue())))
  }

  function TryDeliverHeldMsgs(): Prog { Repeat(Section(ClockLock, Skip)) }

  function DeliverCase(): Prog {
    Then(AckReceivedMessage(),
         Section(RecvLock, Then(Section(ClockLock, Skip), Either(Skip, TryDeliverHeldMsgs()))))
  }

  function HoldCase(): Prog {
    Then(AckReceivedMessage(), Then(Section(RecvLock, Skip), RequestRetransmission()))
  }

  function HandleDataMsg(): Prog {
    Then(Section(ClockLock, Skip), Either(AckReceivedMessage(), Either(DeliverCase(), HoldCase())))
  }

  function QueueRetransmission(): Prog { Then(Section(SendLock, Skip), Either(Skip, Then(AddrCopy(), Enqueue()))) }

  function RecvThread(): Prog {
    Repeat(Either(Skip,
      Then(Section(PeerLock, Skip),
           Either(Skip, Either(HandleDataMsg(), Either(Section(SendLock, Skip), QueueRetransmission()))))))
  }

  // send.c

  function FindUnackedPeers(): Prog { Section(PeerLock, Skip) }

  function HandleDeadPeers(): Prog {
    Then(Section(PeerLock, Skip), Section(SendLock, Section(RecvLock, Section(PeerLock, Skip))))
  }

  function RetransmitMessages(): Prog { Repeat(Then(FindUnackedPeers(), Repeat(Then(AddrCopy(), Enqueue())))) }

  function HandleOldMessages(): Prog {
    Either(Skip,
      Then(Section(ClockLock, Skip),
      Then(Section(SendLock, Skip),
           Either(Skip,
             Then(Either(Skip, Then(Repeat(FindUnackedPeers()), Either(Skip, HandleDeadPeers()))),
                  RetransmitMessages())))))
  }

  function CbcSend(): Prog {
    Either(Skip, Then(Section(ClockLock, Skip), Then(Enqueue(), HandleOldMessages())))
  }

  function Broadcast(): Prog { Then(Section(PeerLock, Skip), Section(StatsLock, Skip)) }

  /** `pthread_cond_wait`: the mutex is given back, and taken again before the return. */
  function CondWait(): Prog { Then(Release(SendLock), Then(Sleep, Acquire(SendLock))) }

  function SendThread(): Prog {
    Repeat(
      Then(Section(SendLock, Repeat(CondWait())),
           Either(Then(Broadcast(), Section(SendLock, Skip)), Section(StatsLock, Skip))))
  }

  // the application of main.c

  function CollectStatistics(): Prog {
    Then(Section(SendLock, Skip), Then(Section(RecvLock, Skip),
      Then(Section(ClockLock, Skip), Section(StatsLock, Skip))))
  }

  function AppThread(): Prog { Repeat(Either(CbcReceive(), Either(CbcSend(), CollectStatistics()))) }

  // ---- every function keeps the order ----

  lemma SectionKeeps(l: Lock, p: Prog, held: set<Lock>)
    requires MayTake(held, l) && Check(p, held + {l}) == Some(held + {l})
    ensures Check(Section(l, p), held) == Some(held)
  {
    assert l !in held && held + {l} - {l} == held;
    assert Check(Then(p, Release(l)), held + {l}) == Some(held);
  }

  lemma SmallSections(held: set<Lock>)
    requires held == {} || held == {RecvLock}
    ensures Check(Section(ClockLock, Skip), held) == Some(held)
    ensures Check(Section(PeerLock, Skip), held) == Some(held)
    ensures Check(Section(StatsLock, Skip), held) == Some(held)
    ensures held == {} ==> Check(Section(RecvLock, Skip), held) == Some(held)
    ensures held == {} ==> Check(Section(SendLock, Skip), held) == Some(held)
  {
    SectionKeeps(ClockLock, Skip, held);
    SectionKeeps(PeerLock, Skip, held);
    SectionKeeps(StatsLock, Skip, held);
    if held == {} {
      SectionKeeps(RecvLock, Skip, held);
      SectionKeeps(SendLock, Skip, held);
    }
  }

  lemma RecvThreadInOrder()
    ensures Check(RecvThread(), {}) == Some({})
  {
    SmallSections({});
    SmallSections({RecvLock});
    assert Check(AckReceivedMessage(), {}) == Some({});
    assert Check(RequestRetransmission(), {}) == Some({});
    var inside := Then(Section(ClockLock, Skip), Either(Skip, TryDeliverHeldMsgs()));
    assert Check(TryDeliverHeldMsgs(), {RecvLock}) == Some({RecvLock});
    assert Check(inside, {RecvLock}) == Some({RecvLock});
    assert {} + {RecvLock} == {RecvLock};
    SectionKeeps(RecvLock, inside, {});
    assert Check(DeliverCase(), {}) == Some({});
    assert Check(HoldCase(), {}) == Some({});
    assert Check(HandleDataMsg(), {}) == Some({});
    assert Check(QueueRetransmission(), {}) == Some({});
  }

  lemma DeclarationInOrder()
    ensures Check(HandleDeadPeers(), {}) == Some({})
  {
    SmallSections({});
    SectionKeeps(PeerLock, Skip, {SendLock, RecvLock});
    assert {SendLock} + {RecvLock} == {SendLock, RecvLock};
    SectionKeeps(RecvLock, Section(PeerLock, Skip), {SendLock});
    assert {} + {SendLock} == {SendLock};
    SectionKeeps(SendLock, Section(RecvLock, Section(PeerLock, Skip)), {});
  }

  lemma AppThreadInOrder()
    ensures Check(AppThread(), {}) == Some({})
  {
    SmallSections({});
    DeclarationInOrder();
    assert Check(Repeat(Then(AddrCopy(), Enqueue())), {}) == Some({});
    assert Check(RetransmitMessages(), {}) == Some({});
    assert Check(Either(Skip, Then(Repeat(FindUnackedPeers()), Either(Skip, HandleDeadPeers()))), {}) == Some({});
    assert Check(HandleOldMessages(), {}) == Some({});
    assert Check(CbcSend(), {}) == Some({});
    assert Check(CbcReceive(), {}) == Some({});
    assert Check(CollectStatistics(), {}) == Some({});
  }

  lemma SendThreadInOrder()
    ensures Check(SendThread(), {}) == Some({})
  {
    SmallSections({});
    assert {SendLock} - {SendLock} == {} && {} + {SendLock} == {SendLock};
    assert Check(CondWait(), {SendLock}) == Some({SendLock});
    SectionKeeps(SendLock, Repeat(CondWait()), {});
    assert Check(Broadcast(), {}) == Some({});
    var work := Either(Then(Broadcast(), Section(SendLock, Skip)), Section(StatsLock, Skip));
    assert Check(work, {}) == Some({});
    assert Check(Then(Section(SendLock, Repeat(CondWait())), work), {}) == Some({});
  }

  lemma OneProgram(p: Prog)
    requires Check(p, {}) == Some({})
    ensures InOrder(Thread([p], {}))
  {
    CheckFront(p, [], {});
    assert [p] + [] == [p];
  }

  lemma StartsInOrder(t: Thread)
    requires Starts(t)
    ensures InOrder(t)
  {
    if t.todo == [RecvThread()] {
      RecvThreadInOrder();
      OneProgram(RecvThread());
    } else if t.todo == [AppThread()] {
      AppThreadInOrder();
      OneProgram(AppThread());
    } else {
      SendThreadInOrder();
      OneProgram(SendThread());
    }
  }
}
