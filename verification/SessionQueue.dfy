/**
  A bounded ring of sessions shared by producers and consumers under one mutex and two condition variables.
  A step is what a thread does between two points where another thread could run; a waiting thread may
  also wake up unasked, and a signal may wake more than one.
 */
module SessionQueue {
  import opened Wrappers

  datatype Pc =
    | Idle
    | PushEnter(session: nat) | PushTest(session: nat) | PushWait(session: nat) | PushWoken(session: nat)
    | PushPut(session: nat) | PushSignal(session: nat) | PushLeave(session: nat, accepted: bool)
    | FetchEnter | FetchTest | FetchWait | FetchWoken | FetchTake
    | FetchSignal(fetched: nat) | FetchLeave(result: Option<nat>)
    | CloseEnter | CloseTest | CloseConsumers | CloseProducers | CloseLeave(failed: bool)

  /** History: the sessions that entered the ring, those that left it, and those that calls have returned, each in
      order; `issued` numbers new sessions, `closes` counts the closes that have answered with success. */
  datatype State = State(
    slots: seq<Option<nat>>, running: bool, count: nat, fetchIdx: nat, writeIdx: nat,
    mutex: Option<nat>, pcs: seq<Pc>, issued: nat, pushed: seq<nat>, fetched: seq<nat>,
    returned: seq<nat>, closes: nat)

  function Init(capacity: nat, threads: nat): State {
    State(seq(capacity, i => None), true, 0, 0, 0, None, seq(threads, t => Idle), 0, [], [], [], 0)
  }

  function Capacity(s: State): nat { |s.slots| }

  predicate WantsMutex(pc: Pc) {
    pc.PushEnter? || pc.PushWoken? || pc.FetchEnter? || pc.FetchWoken? || pc.CloseEnter?
  }

  predicate Waits(pc: Pc) { pc.PushWait? || pc.FetchWait? }

  predicate InMonitor(pc: Pc) { !pc.Idle? && !WantsMutex(pc) && !Waits(pc) }

  function Set(s: State, t: nat, pc: Pc): State
    requires t < |s.pcs|
  {
    s.(pcs := s.pcs[t := pc])
  }

  /** The indices stay inside the ring. */
  predicate Indexed(s: State) {
    s.fetchIdx < Capacity(s) && s.writeIdx < Capacity(s)
  }

  /** The thread can run its next step on its own. */
  predicate CanStep(s: State, t: nat)
    requires t < |s.pcs|
  {
    && Indexed(s) && !s.pcs[t].Idle? && !Waits(s.pcs[t]) && (WantsMutex(s.pcs[t]) ==> s.mutex.None?)
    && (s.pcs[t].FetchTake? ==> s.slots[s.fetchIdx].Some? && s.count > 0)
  }

  function Woken(pc: Pc): Pc {
    match pc
    case PushWait(x) => PushWoken(x)
    case FetchWait => FetchWoken
    case _ => pc
  }

  /** The waiting threads in `chosen` wake up. */
  function Wake(pcs: seq<Pc>, chosen: set<nat>): (r: seq<Pc>)
    ensures |r| == |pcs| && forall t: nat :: t < |pcs| ==> r[t] == if t in chosen then Woken(pcs[t]) else pcs[t]
  {
    seq(|pcs|, t requires 0 <= t < |pcs| => if t in chosen then Woken(pcs[t]) else pcs[t])
  }

  /** A signal wakes some of the threads waiting there, at least one if there is any. */
  ghost predicate Signals(pcs: seq<Pc>, chosen: set<nat>, producers: bool) {
    && (forall t :: t in chosen ==> t < |pcs| && if producers then pcs[t].PushWait? else pcs[t].FetchWait?)
    && ((exists t :: 0 <= t < |pcs| && if producers then pcs[t].PushWait? else pcs[t].FetchWait?) ==> chosen != {})
  }

  /** A broadcast wakes all of them. */
  ghost predicate Broadcasts(pcs: seq<Pc>, chosen: set<nat>, producers: bool) {
    forall t: nat :: t in chosen <==> t < |pcs| && if producers then pcs[t].PushWait? else pcs[t].FetchWait?
  }

  /** The steps inside push, fetch and close; `chosen` are the threads that a signal or broadcast wakes. */
  function Step(s: State, t: nat, chosen: set<nat>): State
    requires t < |s.pcs| && CanStep(s, t)
  {
    match s.pcs[t]
    case Idle => s
    case PushWait(_) => s
    case FetchWait => s
    case PushEnter(x) => Set(s, t, PushTest(x)).(mutex := Some(t))
    case PushWoken(x) => Set(s, t, PushTest(x)).(mutex := Some(t))
    case PushTest(x) =>
      if s.count == Capacity(s) && s.running then Set(s, t, PushWait(x)).(mutex := None)
      else Set(s, t, if !s.running then PushLeave(x, false) else PushPut(x))
    case PushPut(x) =>
      Set(s, t, PushSignal(x)).(slots := s.slots[s.writeIdx := Some(x)], writeIdx := (s.writeIdx + 1) % Capacity(s),
                                count := s.count + 1, pushed := s.pushed + [x])
    case PushSignal(x) => s.(pcs := Wake(s.pcs, chosen)[t := PushLeave(x, true)])
    case PushLeave(_, _) => Set(s, t, Idle).(mutex := None)
    case FetchEnter => Set(s, t, FetchTest).(mutex := Some(t))
    case FetchWoken => Set(s, t, FetchTest).(mutex := Some(t))
    case FetchTest =>
      if s.count == 0 && s.running then Set(s, t, FetchWait).(mutex := None)
      else Set(s, t, if !s.running then FetchLeave(None) else FetchTake)
    case FetchTake =>
      var x := s.slots[s.fetchIdx].value;
      Set(s, t, FetchSignal(x)).(slots := s.slots[s.fetchIdx := None], fetchIdx := (s.fetchIdx + 1) % Capacity(s),
                                 count := s.count - 1, fetched := s.fetched + [x])
    case FetchSignal(x) => s.(pcs := Wake(s.pcs, chosen)[t := FetchLeave(Some(x))])
    case FetchLeave(result) =>
      Set(s, t, Idle).(mutex := None, returned := s.returned + if result.Some? then [result.value] else [])
    case CloseEnter => Set(s, t, CloseTest).(mutex := Some(t))
    case CloseTest => if !s.running then Set(s, t, CloseLeave(true)) else Set(s, t, CloseConsumers).(running := false)
    case CloseConsumers => s.(pcs := Wake(s.pcs, chosen)[t := CloseProducers])
    case CloseProducers => s.(pcs := Wake(s.pcs, chosen)[t := CloseLeave(false)])
    case CloseLeave(failed) => Set(s, t, Idle).(mutex := None, closes := s.closes + if failed then 0 else 1)
  }

  ghost predicate RightChoice(s: State, t: nat, chosen: set<nat>)
    requires t < |s.pcs|
  {
    match s.pcs[t]
    case PushSignal(_) => Signals(s.pcs, chosen, false)
    case FetchSignal(_) => Signals(s.pcs, chosen, true)
    case CloseConsumers => Broadcasts(s.pcs, chosen, false)
    case CloseProducers => Broadcasts(s.pcs, chosen, true)
    case _ => true
  }

  datatype Call = Push | Fetch | Close

  /** An idle thread calls one of the operations; every push brings a new session. */
  function Calls(s: State, t: nat, call: Call): State
    requires t < |s.pcs|
  {
    match call
    case Push => Set(s, t, PushEnter(s.issued)).(issued := s.issued + 1)
    case Fetch => Set(s, t, FetchEnter)
    case Close => Set(s, t, CloseEnter)
  }

  ghost predicate NextOf(s: State, s': State, t: nat)
    requires t < |s.pcs|
  {
    if s.pcs[t].Idle? then exists call :: s' == Calls(s, t, call)
    else if Waits(s.pcs[t]) then s' == Set(s, t, Woken(s.pcs[t]))  // a spurious wake-up
    else CanStep(s, t) && exists chosen :: RightChoice(s, t, chosen) && s' == Step(s, t, chosen)
  }

  ghost predicate Next(s: State, s': State) {
    exists t: nat :: t < |s.pcs| && NextOf(s, s', t)
  }

  // ---------- the ring as a queue ----------

  function Slot(fetchIdx: nat, i: nat, capacity: nat): int {
    if fetchIdx + i < capacity then fetchIdx + i else fetchIdx + i - capacity
  }

  /** What is queued, oldest first: the pushed sessions that were not fetched. */
  function Queued(s: State): seq<nat> {
    if |s.fetched| <= |s.pushed| then s.pushed[|s.fetched|..] else []
  }

  ghost predicate SlotOk(s: State, i: nat)
    requires s.count <= Capacity(s) && i < Capacity(s) && s.fetchIdx < Capacity(s) &&
             |s.pushed| == |s.fetched| + s.count
  {
    s.slots[Slot(s.fetchIdx, i, Capacity(s))] == if i < s.count then Some(Queued(s)[i]) else None
  }

  /** The window of the ring holds the queued sessions in order; the other slots are empty. */
  ghost predicate RingOk(s: State) {
    && s.count <= Capacity(s) && Indexed(s)
    && s.writeIdx == Slot(s.fetchIdx, s.count, Capacity(s))
    && s.fetched <= s.pushed && |s.pushed| == |s.fetched| + s.count
    && (forall i: nat :: i < Capacity(s) ==> SlotOk(s, i))
  }

  lemma NextIndex(i: nat, capacity: nat)
    requires i < capacity
    ensures (i + 1) % capacity == if i + 1 == capacity then 0 else i + 1
  {
  }

  lemma SlotDistinct(fetchIdx: nat, i: nat, j: nat, capacity: nat)
    requires fetchIdx < capacity && i < capacity && j < capacity && i != j
    ensures 0 <= Slot(fetchIdx, i, capacity) < capacity && Slot(fetchIdx, i, capacity) != Slot(fetchIdx, j, capacity)
  {
  }

  // ---------- wake-ups ----------

  /** Threads that are on their way to take a session (or, for producers, to fill a slot), or about to wake one that
      will. */
  predicate Ready(pc: Pc, producers: bool) {
    if producers then pc.PushWoken? || pc.PushTest? || pc.PushPut? || pc.FetchSignal?
    else pc.FetchWoken? || pc.FetchTest? || pc.FetchTake? || pc.PushSignal?
  }

  predicate WaitsAs(pc: Pc, producers: bool) { if producers then pc.PushWait? else pc.FetchWait? }

  function Readies(pcs: seq<Pc>, producers: bool): nat {
    if pcs == [] then 0
    else (if Ready(pcs[|pcs| - 1], producers) then 1 else 0) + Readies(pcs[..|pcs| - 1], producers)
  }

  /** While a thread waits, no session (or free slot) is left without a thread that is awake for it. */
  ghost predicate NoLostWakeUp(s: State, producers: bool) {
    s.running && (exists t: nat :: t < |s.pcs| && WaitsAs(s.pcs[t], producers)) ==>
      Readies(s.pcs, producers) >= if producers then Capacity(s) - s.count else s.count
  }

  /** Once the queue is closed nobody waits, except until the closing thread has sent its broadcasts. */
  ghost predicate NobodyLeftBehind(s: State) {
    !s.running ==> forall t: nat :: t < |s.pcs| ==>
      && (s.pcs[t].FetchWait? ==> exists u: nat :: u < |s.pcs| && s.pcs[u].CloseConsumers?)
      && (s.pcs[t].PushWait? ==> exists u: nat :: u < |s.pcs| && (s.pcs[u].CloseConsumers? || s.pcs[u].CloseProducers?))
  }

  ghost predicate MutexOk(s: State) {
    && (s.mutex.Some? ==> s.mutex.value < |s.pcs|)
    && forall t: nat :: t < |s.pcs| ==> (s.mutex == Some(t) <==> InMonitor(s.pcs[t]))
  }

  function Carries(pc: Pc): Option<nat> {
    match pc
    case PushEnter(x) => Some(x)
    case PushTest(x) => Some(x)
    case PushWait(x) => Some(x)
    case PushWoken(x) => Some(x)
    case PushPut(x) => Some(x)
    case _ => None
  }

  /** A session that is being pushed is in nobody else's hands. */
  ghost predicate SessionsOk(s: State) {
    && (forall i, j :: 0 <= i < j < |s.pushed| ==> s.pushed[i] != s.pushed[j])
    && (forall x :: x in s.pushed ==> x < s.issued)
    && (forall t: nat :: t < |s.pcs| && Carries(s.pcs[t]).Some? ==>
        Carries(s.pcs[t]).value < s.issued && Carries(s.pcs[t]).value !in s.pushed)
    && (forall t: nat, u: nat :: t < |s.pcs| && u < |s.pcs| && t != u && Carries(s.pcs[t]).Some? ==>
        Carries(s.pcs[t]) != Carries(s.pcs[u]))
  }

  ghost predicate PcOk(s: State, pc: Pc) {
    && (pc.PushPut? ==> s.running && s.count < Capacity(s))
    && (pc.FetchTake? ==> s.running && s.count > 0)
    && (pc.CloseConsumers? || pc.CloseProducers? || pc.CloseLeave? ==> !s.running)
    && (pc.PushSignal? ==> pc.session in s.pushed)
    && (pc.PushLeave? ==> (pc.accepted <==> pc.session in s.pushed) && (!pc.accepted ==> !s.running))
    && (pc.FetchLeave? && pc.result.None? ==> !s.running)
  }

  ghost predicate Inv(s: State) {
    && RingOk(s) && MutexOk(s) && SessionsOk(s)
    && NoLostWakeUp(s, false) && NoLostWakeUp(s, true) && NobodyLeftBehind(s)
    && forall t: nat :: t < |s.pcs| ==> PcOk(s, s.pcs[t])
  }

  // ---------- counting ----------

  lemma {:induction false} ReadiesMoved(pcs: seq<Pc>, t: nat, pc: Pc, producers: bool)
    requires t < |pcs|
    ensures Readies(pcs[t := pc], producers)
            == Readies(pcs, producers) - (if Ready(pcs[t], producers) then 1 else 0) +
              (if Ready(pc, producers) then 1 else 0)
  {
    var n := |pcs| - 1;
    if t == n {
      assert pcs[t := pc][..n] == pcs[..n];
    } else {
      ReadiesMoved(pcs[..n], t, pc, producers);
      assert pcs[t := pc][..n] == pcs[..n][t := pc];
    }
  }

  lemma {:induction false} ReadiesGrow(pcs: seq<Pc>, pcs': seq<Pc>, producers: bool)
    requires |pcs'| == |pcs| && forall t :: 0 <= t < |pcs| && Ready(pcs[t], producers) ==> Ready(pcs'[t], producers)
    ensures Readies(pcs', producers) >= Readies(pcs, producers)
  {
    if pcs != [] {
      ReadiesGrow(pcs[..|pcs| - 1], pcs'[..|pcs| - 1], producers);
    }
  }

  /** Waking a thread makes one more ready. */
  lemma WokenReady(pcs: seq<Pc>, chosen: set<nat>, producers: bool)
    requires forall t :: t in chosen ==> t < |pcs| && Waits(pcs[t])
    ensures Readies(Wake(pcs, chosen), producers) >= Readies(pcs, producers)
    ensures (exists t :: t in chosen && WaitsAs(pcs[t], producers)) ==>
              Readies(Wake(pcs, chosen), producers) > Readies(pcs, producers)
  {
    ReadiesGrow(pcs, Wake(pcs, chosen), producers);
    if t :| t in chosen && WaitsAs(pcs[t], producers) {
      ReadiesMoved(pcs, t, Woken(pcs[t]), producers);
      ReadiesGrow(pcs[t := Woken(pcs[t])], Wake(pcs, chosen), producers);
    }
  }

  // ---------- the ring ----------

  lemma PutKeepsRing(s: State, s': State, x: nat)
    requires RingOk(s) && s.count < Capacity(s)
    requires s'.slots == s.slots[s.writeIdx := Some(x)] && s'.writeIdx == (s.writeIdx + 1) % Capacity(s)
    requires s'.count == s.count + 1 && s'.pushed == s.pushed + [x] && s'.fetched == s.fetched &&
             s'.fetchIdx == s.fetchIdx
    ensures RingOk(s')
  {
    NextIndex(s.writeIdx, Capacity(s));
    forall i: nat | i < Capacity(s)
      ensures SlotOk(s', i)
    {
      assert SlotOk(s, i);
      if i != s.count {
        SlotDistinct(s.fetchIdx, i, s.count, Capacity(s));
      }
    }
  }

  lemma QueuedAfterTake(s: State, s': State)
    requires s.fetched <= s.pushed && |s.fetched| < |s.pushed| && s'.pushed == s.pushed
    requires |s'.fetched| == |s.fetched| + 1
    ensures |Queued(s)| == |Queued(s')| + 1 && forall i :: 0 <= i < |Queued(s')| ==> Queued(s')[i] == Queued(s)[i + 1]
  {
  }

  /** Where the window of the ring stands after its first slot was emptied. */
  lemma SlotShifts(fetchIdx: nat, i: nat, capacity: nat)
    requires fetchIdx < capacity && i < capacity
    ensures var next := if fetchIdx + 1 == capacity then 0 else fetchIdx + 1;
            if i + 1 < capacity
            then Slot(next, i, capacity) == Slot(fetchIdx, i + 1, capacity) != fetchIdx &&
                 0 <= Slot(next, i, capacity) < capacity
            else Slot(next, i, capacity) == fetchIdx
  {
  }

  lemma TakeKeepsRing(s: State, s': State)
    requires RingOk(s) && s.count > 0
    requires s'.slots == s.slots[s.fetchIdx := None] && s'.fetchIdx == (s.fetchIdx + 1) % Capacity(s)
    requires s'.count == s.count - 1 && s'.pushed == s.pushed && s'.writeIdx == s.writeIdx
    requires s.slots[s.fetchIdx].Some? && s'.fetched == s.fetched + [s.slots[s.fetchIdx].value]
    ensures s.slots[s.fetchIdx] == Some(Queued(s)[0])
    ensures RingOk(s')
  {
    assert SlotOk(s, 0);
    NextIndex(s.fetchIdx, Capacity(s));
    QueuedAfterTake(s, s');
    forall i: nat | i < Capacity(s)
      ensures SlotOk(s', i)
    {
      SlotShifts(s.fetchIdx, i, Capacity(s));
      if i + 1 < Capacity(s) {
        assert SlotOk(s, i + 1);
      }
    }
  }

  // ---------- steps ----------

  function Supply(s: State, producers: bool): int {
    if producers then Capacity(s) - s.count else s.count
  }

  /** The step gives up no more ready threads than the sessions (or slots) it takes away. */
  ghost predicate Balance(s: State, s': State, t: nat, pc: Pc, producers: bool)
    requires t < |s.pcs|
  {
    && (WaitsAs(pc, producers) || !s'.running
        || Supply(s', producers) - Supply(s, producers)
           <= (if Ready(pc, producers) then 1 else 0) - (if Ready(s.pcs[t], producers) then 1 else 0))
  }

  lemma OthersPcOk(s: State, s': State, t: nat, pc: Pc)
    requires Inv(s) && t < |s.pcs| && s'.pcs == s.pcs[t := pc] && PcOk(s', pc)
    requires InMonitor(s.pcs[t]) ||
             (s'.count == s.count && s'.running == s.running && Capacity(s') == Capacity(s) && s'.pushed == s.pushed)
    ensures forall u: nat :: u < |s'.pcs| ==> PcOk(s', s'.pcs[u])
  {
    forall u: nat | u < |s'.pcs|
      ensures PcOk(s', s'.pcs[u])
    {
      if u != t {
        assert PcOk(s, s.pcs[u]);
        assert InMonitor(s.pcs[u]) ==> s.mutex == Some(u);
      }
    }
  }

  lemma WaitersServed(s: State, s': State, t: nat, pc: Pc, producers: bool)
    requires NoLostWakeUp(s, producers) && t < |s.pcs| && s'.pcs == s.pcs[t := pc]
    requires Balance(s, s', t, pc, producers) && (s'.running ==> s.running)
    requires WaitsAs(pc, producers) ==> Supply(s', producers) == 0
    requires Readies(s'.pcs, producers)
             == Readies(s.pcs, producers) - (if Ready(s.pcs[t], producers) then 1 else 0) +
               (if Ready(pc, producers) then 1 else 0)
    ensures NoLostWakeUp(s', producers)
  {
    if s'.running && !WaitsAs(pc, producers) {
      if u: nat :| u < |s'.pcs| && WaitsAs(s'.pcs[u], producers) {
        assert WaitsAs(s.pcs[u], producers);
      }
    }
  }

  lemma StillNotBehind(s: State, s': State, t: nat, pc: Pc)
    requires NobodyLeftBehind(s) && t < |s.pcs| && s'.pcs == s.pcs[t := pc] && (Waits(pc) ==> s'.running)
    requires (s'.running ==> s.running) && (s.running && !s'.running ==> pc.CloseConsumers?)
    requires s.pcs[t].CloseConsumers? || s.pcs[t].CloseProducers? ==> pc == s.pcs[t]
    ensures NobodyLeftBehind(s')
  {
    if !s'.running {
      forall u: nat | u < |s'.pcs| && Waits(s'.pcs[u])
        ensures s'.pcs[u].FetchWait? ==> exists v: nat :: v < |s'.pcs| && s'.pcs[v].CloseConsumers?
        ensures s'.pcs[u].PushWait? ==>
                  exists v: nat :: v < |s'.pcs| && (s'.pcs[v].CloseConsumers? || s'.pcs[v].CloseProducers?)
      {
        if s.running {
          assert s'.pcs[t].CloseConsumers?;
        } else if s.pcs[u].FetchWait? {
          var v: nat :| v < |s.pcs| && s.pcs[v].CloseConsumers?;
          assert s'.pcs[v] == s.pcs[v];
        } else {
          var v: nat :| v < |s.pcs| && (s.pcs[v].CloseConsumers? || s.pcs[v].CloseProducers?);
          assert s'.pcs[v] == s.pcs[v];
        }
      }
    }
  }

  /** Apart from the ring, what the parts of the invariant need when one thread moves and nobody is woken. */
  lemma OneMoves(s: State, s': State, t: nat, pc: Pc)
    requires Inv(s) && t < |s.pcs| && s'.pcs == s.pcs[t := pc]
    requires MutexOk(s') && RingOk(s') && SessionsOk(s') && PcOk(s', pc)
    requires InMonitor(s.pcs[t]) ||
             (s'.count == s.count && s'.running == s.running && Capacity(s') == Capacity(s) && s'.pushed == s.pushed)
    requires Waits(pc) ==> s'.running
    requires pc.PushWait? ==> s'.count == Capacity(s')
    requires pc.FetchWait? ==> s'.count == 0
    requires s'.running ==> s.running
    requires s.running && !s'.running ==> pc.CloseConsumers?
    requires s.pcs[t].CloseConsumers? || s.pcs[t].CloseProducers? ==> pc == s.pcs[t]
    requires Balance(s, s', t, pc, false) && Balance(s, s', t, pc, true)
    ensures Inv(s')
  {
    ReadiesMoved(s.pcs, t, pc, false);
    ReadiesMoved(s.pcs, t, pc, true);
    OthersPcOk(s, s', t, pc);
    WaitersServed(s, s', t, pc, false);
    WaitersServed(s, s', t, pc, true);
    StillNotBehind(s, s', t, pc);
  }

  lemma MovesMutex(s: State, s': State, t: nat, pc: Pc)
    requires MutexOk(s) && t < |s.pcs| && s'.pcs == s.pcs[t := pc]
    requires || (s'.mutex == s.mutex && (InMonitor(pc) <==> InMonitor(s.pcs[t])))
             || (s.mutex.None? && s'.mutex == Some(t) && InMonitor(pc))
             || (s'.mutex.None? && InMonitor(s.pcs[t]) && !InMonitor(pc))
    ensures MutexOk(s')
  {
  }

  lemma SameSessions(s: State, s': State, t: nat, pc: Pc)
    requires SessionsOk(s) && t < |s.pcs| && s'.pcs == s.pcs[t := pc] && s'.pushed == s.pushed && s'.issued == s.issued
    requires Carries(pc).Some? ==> Carries(pc) == Carries(s.pcs[t])
    ensures SessionsOk(s')
  {
  }

  lemma SameRing(s: State, s': State)
    requires RingOk(s) && s'.slots == s.slots && s'.count == s.count && s'.fetchIdx == s.fetchIdx &&
             s'.writeIdx == s.writeIdx
    requires s'.pushed == s.pushed && s'.fetched == s.fetched
    ensures RingOk(s')
  {
    forall i: nat | i < Capacity(s)
      ensures SlotOk(s', i)
    {
      assert SlotOk(s, i);
    }
  }

  lemma EnterStep(s: State, t: nat, chosen: set<nat>)
    requires Inv(s) && t < |s.pcs| && CanStep(s, t) && WantsMutex(s.pcs[t])
    ensures Inv(Step(s, t, chosen))
  {
    hide RingOk, NoLostWakeUp, NobodyLeftBehind, Readies, SessionsOk, MutexOk;
    var s' := Step(s, t, chosen);
    SameRing(s, s');
    MovesMutex(s, s', t, s'.pcs[t]);
    SameSessions(s, s', t, s'.pcs[t]);
    OneMoves(s, s', t, s'.pcs[t]);
  }

  lemma LeaveStep(s: State, t: nat, chosen: set<nat>)
    requires Inv(s) && t < |s.pcs| && CanStep(s, t) &&
             (s.pcs[t].PushLeave? || s.pcs[t].FetchLeave? || s.pcs[t].CloseLeave?)
    ensures Inv(Step(s, t, chosen))
  {
    hide RingOk, NoLostWakeUp, NobodyLeftBehind, Readies, SessionsOk, MutexOk;
    var s' := Step(s, t, chosen);
    SameRing(s, s');
    MovesMutex(s, s', t, s'.pcs[t]);
    SameSessions(s, s', t, s'.pcs[t]);
    OneMoves(s, s', t, s'.pcs[t]);
  }

  lemma PushTestStep(s: State, t: nat, chosen: set<nat>)
    requires Inv(s) && t < |s.pcs| && CanStep(s, t) && s.pcs[t].PushTest?
    ensures Inv(Step(s, t, chosen))
  {
    assert s.count <= Capacity(s) && Carries(s.pcs[t]) == Some(s.pcs[t].session);
    assert s.pcs[t].session !in s.pushed;
    hide RingOk, NoLostWakeUp, NobodyLeftBehind, Readies, SessionsOk, MutexOk;
    var s' := Step(s, t, chosen);
    SameRing(s, s');
    MovesMutex(s, s', t, s'.pcs[t]);
    SameSessions(s, s', t, s'.pcs[t]);
    OneMoves(s, s', t, s'.pcs[t]);
  }

  lemma FetchTestStep(s: State, t: nat, chosen: set<nat>)
    requires Inv(s) && t < |s.pcs| && CanStep(s, t) && s.pcs[t].FetchTest?
    ensures Inv(Step(s, t, chosen))
  {
    hide RingOk, NoLostWakeUp, NobodyLeftBehind, Readies, SessionsOk, MutexOk;
    var s' := Step(s, t, chosen);
    SameRing(s, s');
    MovesMutex(s, s', t, s'.pcs[t]);
    SameSessions(s, s', t, s'.pcs[t]);
    OneMoves(s, s', t, s'.pcs[t]);
  }

  lemma CloseTestStep(s: State, t: nat, chosen: set<nat>)
    requires Inv(s) && t < |s.pcs| && CanStep(s, t) && s.pcs[t].CloseTest?
    ensures Inv(Step(s, t, chosen))
  {
    hide RingOk, NoLostWakeUp, NobodyLeftBehind, Readies, SessionsOk, MutexOk;
    var s' := Step(s, t, chosen);
    SameRing(s, s');
    MovesMutex(s, s', t, s'.pcs[t]);
    SameSessions(s, s', t, s'.pcs[t]);
    OneMoves(s, s', t, s'.pcs[t]);
  }

  lemma PutStep(s: State, t: nat, chosen: set<nat>)
    requires Inv(s) && t < |s.pcs| && CanStep(s, t) && s.pcs[t].PushPut?
    ensures Inv(Step(s, t, chosen))
  {
    var s' := Step(s, t, chosen);
    assert PcOk(s, s.pcs[t]);
    PutKeepsRing(s, s', s.pcs[t].session);
    OneMoves(s, s', t, s'.pcs[t]);
  }

  lemma TakeStep(s: State, t: nat, chosen: set<nat>)
    requires Inv(s) && t < |s.pcs| && CanStep(s, t) && s.pcs[t].FetchTake?
    ensures Inv(Step(s, t, chosen))
  {
    var s' := Step(s, t, chosen);
    TakeKeepsRing(s, s');
    OneMoves(s, s', t, s'.pcs[t]);
  }

  /** Waking changes neither who is in the monitor nor who carries which session. */
  lemma WakeMutex(s: State, s': State, t: nat, chosen: set<nat>)
    requires MutexOk(s) && SessionsOk(s) && t < |s.pcs| && s'.pushed == s.pushed && s'.issued == s.issued &&
             s'.mutex == s.mutex
    requires |s'.pcs| == |s.pcs| && InMonitor(s.pcs[t]) && InMonitor(s'.pcs[t]) && Carries(s'.pcs[t]).None?
    requires forall u: nat :: u < |s.pcs| && u != t ==>
               s'.pcs[u] == s.pcs[u] || (Waits(s.pcs[u]) && s'.pcs[u] == Woken(s.pcs[u]))
    ensures MutexOk(s') && SessionsOk(s')
  {
    assert forall u: nat :: u < |s.pcs| && u != t ==>
             Carries(s'.pcs[u]) == Carries(s.pcs[u]) && (InMonitor(s'.pcs[u]) <==> InMonitor(s.pcs[u]));
  }

  lemma WakeServes(s: State, s': State, t: nat, chosen: set<nat>, producers: bool)
    requires Inv(s) && t < |s.pcs| && CanStep(s, t) && RightChoice(s, t, chosen) && s' == Step(s, t, chosen)
    requires s.pcs[t].PushSignal? || s.pcs[t].FetchSignal? || s.pcs[t].CloseConsumers? || s.pcs[t].CloseProducers?
    ensures NoLostWakeUp(s', producers)
  {
    assert PcOk(s, s.pcs[t]);
    if s'.running {
      if u: nat :| u < |s'.pcs| && WaitsAs(s'.pcs[u], producers) {
        assert u != t && WaitsAs(s.pcs[u], producers);
        WokenReady(s.pcs, chosen, producers);
        ReadiesMoved(Wake(s.pcs, chosen), t, s'.pcs[t], producers);
        assert Wake(s.pcs, chosen)[t] == s.pcs[t];
      }
    }
  }

  /** A thread that waits after the close is one that the closing thread is about to wake. */
  lemma StillClosing(s: State, t: nat, u: nat)
    requires NobodyLeftBehind(s) && MutexOk(s) && !s.running && t < |s.pcs| && u < |s.pcs| && InMonitor(s.pcs[t]) &&
             Waits(s.pcs[u])
    ensures s.pcs[u].FetchWait? ==> s.pcs[t].CloseConsumers?
    ensures s.pcs[u].PushWait? ==> s.pcs[t].CloseConsumers? || s.pcs[t].CloseProducers?
  {
    assert s.mutex == Some(t);
    assert forall v: nat :: v < |s.pcs| && InMonitor(s.pcs[v]) ==> v == t;
  }

  lemma WakeLeavesNobody(s: State, s': State, t: nat, chosen: set<nat>)
    requires Inv(s) && t < |s.pcs| && CanStep(s, t) && RightChoice(s, t, chosen) && s' == Step(s, t, chosen)
    requires s.pcs[t].PushSignal? || s.pcs[t].FetchSignal? || s.pcs[t].CloseConsumers? || s.pcs[t].CloseProducers?
    ensures NobodyLeftBehind(s')
  {
    hide RingOk, NoLostWakeUp, Readies, SessionsOk;
    if !s'.running {
      forall u: nat | u < |s'.pcs| && Waits(s'.pcs[u])
        ensures s'.pcs[u].PushWait? && s'.pcs[t].CloseProducers?
      {
        assert u != t && s.pcs[u] == s'.pcs[u];
        StillClosing(s, t, u);
      }
    }
  }

  /** A signal or a broadcast followed by its sender's move. */
  lemma WakePcOk(s: State, t: nat, chosen: set<nat>)
    requires t < |s.pcs| && CanStep(s, t) && forall u: nat :: u < |s.pcs| ==> PcOk(s, s.pcs[u])
    requires s.pcs[t].PushSignal? || s.pcs[t].FetchSignal? || s.pcs[t].CloseConsumers? || s.pcs[t].CloseProducers?
    ensures var s' := Step(s, t, chosen);
            forall u: nat :: u < |s'.pcs| ==> PcOk(s', s'.pcs[u])
  {
    var s' := Step(s, t, chosen);
    assert s'.pushed == s.pushed && s'.running == s.running && s'.count == s.count && s'.slots == s.slots;
    forall u: nat | u < |s'.pcs|
      ensures PcOk(s', s'.pcs[u])
    {
      assert PcOk(s, s.pcs[u]);
    }
  }

  lemma WakeStep(s: State, t: nat, chosen: set<nat>)
    requires Inv(s) && t < |s.pcs| && CanStep(s, t) && RightChoice(s, t, chosen)
    requires s.pcs[t].PushSignal? || s.pcs[t].FetchSignal? || s.pcs[t].CloseConsumers? || s.pcs[t].CloseProducers?
    ensures Inv(Step(s, t, chosen))
  {
    hide RingOk, NoLostWakeUp, NobodyLeftBehind, Readies, SessionsOk, MutexOk;
    var s' := Step(s, t, chosen);
    SameRing(s, s');
    WakeServes(s, s', t, chosen, false);
    WakeServes(s, s', t, chosen, true);
    WakeMutex(s, s', t, chosen);
    WakeLeavesNobody(s, s', t, chosen);
    WakePcOk(s, t, chosen);
  }

  lemma CallSessions(s: State, t: nat, call: Call)
    requires SessionsOk(s) && t < |s.pcs| && s.pcs[t].Idle?
    ensures SessionsOk(Calls(s, t, call))
  {
  }

  lemma CallKeeps(s: State, t: nat, call: Call)
    requires Inv(s) && t < |s.pcs| && s.pcs[t].Idle?
    ensures Inv(Calls(s, t, call))
  {
    hide RingOk, NoLostWakeUp, NobodyLeftBehind, Readies, SessionsOk, MutexOk;
    var s' := Calls(s, t, call);
    SameRing(s, s');
    CallSessions(s, t, call);
    MovesMutex(s, s', t, s'.pcs[t]);
    OneMoves(s, s', t, s'.pcs[t]);
  }

  lemma SpuriousKeeps(s: State, t: nat)
    requires Inv(s) && t < |s.pcs| && Waits(s.pcs[t])
    ensures Inv(Set(s, t, Woken(s.pcs[t])))
  {
    hide RingOk, NoLostWakeUp, NobodyLeftBehind, Readies, SessionsOk, MutexOk;
    var s' := Set(s, t, Woken(s.pcs[t]));
    SameRing(s, s');
    MovesMutex(s, s', t, s'.pcs[t]);
    SameSessions(s, s', t, s'.pcs[t]);
    OneMoves(s, s', t, s'.pcs[t]);
  }

  lemma NextKeeps(s: State, s': State)
    requires Inv(s) && Next(s, s')
    ensures Inv(s')
  {
    hide Inv;
    var t: nat :| t < |s.pcs| && NextOf(s, s', t);
    if s.pcs[t].Idle? {
      var call :| s' == Calls(s, t, call);
      CallKeeps(s, t, call);
    } else if Waits(s.pcs[t]) {
      SpuriousKeeps(s, t);
    } else {
      var chosen :| RightChoice(s, t, chosen) && s' == Step(s, t, chosen);
      if s.pcs[t].PushPut? {
        PutStep(s, t, chosen);
      } else if s.pcs[t].FetchTake? {
        TakeStep(s, t, chosen);
      } else if s.pcs[t].PushSignal? || s.pcs[t].FetchSignal? || s.pcs[t].CloseConsumers? || s.pcs[t].CloseProducers? {
        WakeStep(s, t, chosen);
      } else if WantsMutex(s.pcs[t]) {
        EnterStep(s, t, chosen);
      } else if s.pcs[t].PushTest? {
        PushTestStep(s, t, chosen);
      } else if s.pcs[t].FetchTest? {
        FetchTestStep(s, t, chosen);
      } else if s.pcs[t].CloseTest? {
        CloseTestStep(s, t, chosen);
      } else {
        LeaveStep(s, t, chosen);
      }
    }
  }

  // ---------- what calls return ----------

  /** The session that the thread has taken and not yet returned. */
  function InHand(pc: Pc): seq<nat> {
    match pc
    case FetchSignal(x) => [x]
    case FetchLeave(Some(x)) => [x]
    case _ => []
  }

  /** All sessions taken so far have been returned, but for the one in the hands of the thread that holds the mutex. */
  ghost predicate ReturnsOk(s: State) {
    s.fetched == s.returned + if s.mutex.Some? && s.mutex.value < |s.pcs| then InHand(s.pcs[s.mutex.value]) else []
  }

  lemma TakeReturns(s: State, t: nat, chosen: set<nat>)
    requires MutexOk(s) && ReturnsOk(s) && t < |s.pcs| && CanStep(s, t) && s.pcs[t].FetchTake?
    ensures ReturnsOk(Step(s, t, chosen))
  {
    assert InMonitor(s.pcs[t]);
    hide MutexOk;
  }

  lemma SignalReturns(s: State, t: nat, chosen: set<nat>)
    requires MutexOk(s) && ReturnsOk(s) && t < |s.pcs| && CanStep(s, t) && s.pcs[t].FetchSignal?
    ensures ReturnsOk(Step(s, t, chosen))
  {
    assert InMonitor(s.pcs[t]);
    hide MutexOk;
  }

  lemma LeaveReturns(s: State, t: nat, chosen: set<nat>)
    requires MutexOk(s) && ReturnsOk(s) && t < |s.pcs| && CanStep(s, t) && s.pcs[t].FetchLeave?
    ensures ReturnsOk(Step(s, t, chosen))
  {
    assert InMonitor(s.pcs[t]);
    hide MutexOk;
  }

  lemma WakeHistory(s: State, t: nat, chosen: set<nat>)
    requires t < |s.pcs| && CanStep(s, t) &&
             (s.pcs[t].PushSignal? || s.pcs[t].CloseConsumers? || s.pcs[t].CloseProducers?)
    ensures Step(s, t, chosen).fetched == s.fetched && Step(s, t, chosen).returned == s.returned
    ensures |Step(s, t, chosen).pcs| == |s.pcs| && InHand(Step(s, t, chosen).pcs[t]) == []
  {
  }

  lemma CloseHistory(s: State, t: nat, chosen: set<nat>)
    requires t < |s.pcs| && CanStep(s, t) && (s.pcs[t].CloseEnter? || s.pcs[t].CloseTest? || s.pcs[t].CloseLeave?)
    ensures Step(s, t, chosen).fetched == s.fetched && Step(s, t, chosen).returned == s.returned
    ensures |Step(s, t, chosen).pcs| == |s.pcs| && InHand(Step(s, t, chosen).pcs[t]) == []
  {
  }

  lemma PushHistory(s: State, t: nat, chosen: set<nat>)
    requires t < |s.pcs| && CanStep(s, t) && !s.pcs[t].PushSignal? && !s.pcs[t].PushWait?
    requires Carries(s.pcs[t]).Some? || s.pcs[t].PushLeave?
    ensures Step(s, t, chosen).fetched == s.fetched && Step(s, t, chosen).returned == s.returned
    ensures |Step(s, t, chosen).pcs| == |s.pcs| && InHand(Step(s, t, chosen).pcs[t]) == []
  {
  }

  lemma EnterHistory(s: State, t: nat, chosen: set<nat>)
    requires t < |s.pcs| && CanStep(s, t) && (s.pcs[t].FetchEnter? || s.pcs[t].FetchWoken? || s.pcs[t].FetchTest?)
    ensures Step(s, t, chosen).fetched == s.fetched && Step(s, t, chosen).returned == s.returned
    ensures |Step(s, t, chosen).pcs| == |s.pcs| && InHand(Step(s, t, chosen).pcs[t]) == []
  {
  }

  /** The other steps neither take nor return a session. */
  lemma OtherHistory(s: State, t: nat, chosen: set<nat>)
    requires t < |s.pcs| && CanStep(s, t) && !s.pcs[t].FetchTake? && !s.pcs[t].FetchSignal? && !s.pcs[t].FetchLeave?
    ensures Step(s, t, chosen).fetched == s.fetched && Step(s, t, chosen).returned == s.returned
    ensures |Step(s, t, chosen).pcs| == |s.pcs| && InHand(Step(s, t, chosen).pcs[t]) == []
  {
    hide Step;
    if s.pcs[t].PushSignal? || s.pcs[t].CloseConsumers? || s.pcs[t].CloseProducers? {
      WakeHistory(s, t, chosen);
    } else if s.pcs[t].CloseEnter? || s.pcs[t].CloseTest? || s.pcs[t].CloseLeave? {
      CloseHistory(s, t, chosen);
    } else if s.pcs[t].FetchEnter? || s.pcs[t].FetchWoken? || s.pcs[t].FetchTest? {
      EnterHistory(s, t, chosen);
    } else {
      PushHistory(s, t, chosen);
    }
  }

  lemma OtherMutex(s: State, t: nat, chosen: set<nat>)
    requires t < |s.pcs| && CanStep(s, t)
    ensures Step(s, t, chosen).mutex in {s.mutex, None, Some(t)}
  {
  }

  lemma OtherReturns(s: State, t: nat, chosen: set<nat>)
    requires MutexOk(s) && ReturnsOk(s) && t < |s.pcs| && CanStep(s, t)
    requires !s.pcs[t].FetchTake? && !s.pcs[t].FetchSignal? && !s.pcs[t].FetchLeave?
    ensures ReturnsOk(Step(s, t, chosen))
  {
    OtherHistory(s, t, chosen);
    OtherMutex(s, t, chosen);
    hide Step;
    assert s.mutex == Some(t) || s.mutex == None by {
      assert InMonitor(s.pcs[t]) ==> s.mutex == Some(t);
    }
  }

  lemma ReturnsStep(s: State, t: nat, chosen: set<nat>)
    requires MutexOk(s) && ReturnsOk(s) && t < |s.pcs| && CanStep(s, t)
    ensures ReturnsOk(Step(s, t, chosen))
  {
    hide Step, MutexOk, ReturnsOk, CanStep;
    if s.pcs[t].FetchTake? {
      TakeReturns(s, t, chosen);
    } else if s.pcs[t].FetchSignal? {
      SignalReturns(s, t, chosen);
    } else if s.pcs[t].FetchLeave? {
      LeaveReturns(s, t, chosen);
    } else {
      OtherReturns(s, t, chosen);
    }
  }

  lemma ReturnsStay(s: State, s': State, t: nat)
    requires MutexOk(s) && ReturnsOk(s) && t < |s.pcs| && !InMonitor(s.pcs[t]) && |s'.pcs| == |s.pcs|
    requires s'.pcs == s.pcs[t := s'.pcs[t]] && s'.mutex == s.mutex && s'.fetched == s.fetched &&
             s'.returned == s.returned
    ensures ReturnsOk(s')
  {
  }

  lemma ReturnsKeep(s: State, s': State)
    requires Inv(s) && ReturnsOk(s) && Next(s, s')
    ensures ReturnsOk(s')
  {
    var t: nat :| t < |s.pcs| && NextOf(s, s', t);
    assert MutexOk(s);
    hide Inv, MutexOk, ReturnsOk, RightChoice;
    if s.pcs[t].Idle? {
      var call :| s' == Calls(s, t, call);
      ReturnsStay(s, s', t);
    } else if Waits(s.pcs[t]) {
      ReturnsStay(s, s', t);
    } else {
      var chosen :| RightChoice(s, t, chosen) && s' == Step(s, t, chosen);
      hide Step;
      ReturnsStep(s, t, chosen);
    }
  }

  // ---------- closing once ----------

  /** The close under way is the one that closed the queue. */
  predicate Closing(pc: Pc) { pc.CloseConsumers? || pc.CloseProducers? || (pc.CloseLeave? && !pc.failed) }

  predicate ClosingNow(s: State) {
    s.mutex.Some? && s.mutex.value < |s.pcs| && Closing(s.pcs[s.mutex.value])
  }

  /** Exactly one close succeeds, the one that found the queue running. */
  predicate ClosesOk(s: State) {
    s.closes + (if ClosingNow(s) then 1 else 0) == if s.running then 0 else 1
  }

  lemma CloseSteps(s: State, t: nat, chosen: set<nat>)
    requires MutexOk(s) && ClosesOk(s) && t < |s.pcs| && CanStep(s, t)
    requires s.pcs[t].CloseTest? || s.pcs[t].CloseLeave?
    ensures ClosesOk(Step(s, t, chosen))
  {
    assert InMonitor(s.pcs[t]) && s.mutex == Some(t);
    hide MutexOk;
  }

  lemma CloseWakes(s: State, t: nat, chosen: set<nat>)
    requires MutexOk(s) && ClosesOk(s) && t < |s.pcs| && CanStep(s, t)
    requires s.pcs[t].CloseConsumers? || s.pcs[t].CloseProducers?
    ensures ClosesOk(Step(s, t, chosen))
  {
    assert InMonitor(s.pcs[t]) && s.mutex == Some(t);
    hide MutexOk;
  }

  ghost predicate NoClose(s: State, s': State, t: nat)
    requires t < |s.pcs|
  {
    && s'.running == s.running && s'.closes == s.closes && |s'.pcs| == |s.pcs| && !Closing(s'.pcs[t])
    && s'.mutex in {s.mutex, None, Some(t)}
  }

  lemma SignalNoClose(s: State, t: nat, chosen: set<nat>)
    requires t < |s.pcs| && CanStep(s, t) && (s.pcs[t].PushSignal? || s.pcs[t].FetchSignal?)
    ensures NoClose(s, Step(s, t, chosen), t)
  {
  }

  lemma PushNoClose(s: State, t: nat, chosen: set<nat>)
    requires t < |s.pcs| && CanStep(s, t) && (Carries(s.pcs[t]).Some? || s.pcs[t].PushLeave?)
    ensures NoClose(s, Step(s, t, chosen), t)
  {
  }

  lemma FetchNoClose(s: State, t: nat, chosen: set<nat>)
    requires t < |s.pcs| && CanStep(s, t)
    requires s.pcs[t].FetchTake? || s.pcs[t].FetchLeave? || s.pcs[t].CloseEnter?
    ensures NoClose(s, Step(s, t, chosen), t)
  {
  }

  lemma EnterNoClose(s: State, t: nat, chosen: set<nat>)
    requires t < |s.pcs| && CanStep(s, t)
    requires s.pcs[t].FetchEnter? || s.pcs[t].FetchWoken? || s.pcs[t].FetchTest?
    ensures NoClose(s, Step(s, t, chosen), t)
  {
  }

  lemma NoCloseHistory(s: State, t: nat, chosen: set<nat>)
    requires t < |s.pcs| && CanStep(s, t) && !Closing(s.pcs[t]) && !s.pcs[t].CloseTest? && !s.pcs[t].CloseLeave?
    ensures NoClose(s, Step(s, t, chosen), t)
  {
    hide Step, NoClose;
    if s.pcs[t].PushSignal? || s.pcs[t].FetchSignal? {
      SignalNoClose(s, t, chosen);
    } else if s.pcs[t].FetchTake? || s.pcs[t].FetchLeave? || s.pcs[t].CloseEnter? {
      FetchNoClose(s, t, chosen);
    } else if s.pcs[t].FetchEnter? || s.pcs[t].FetchWoken? || s.pcs[t].FetchTest? {
      EnterNoClose(s, t, chosen);
    } else {
      PushNoClose(s, t, chosen);
    }
  }

  lemma OtherCloses(s: State, t: nat, chosen: set<nat>)
    requires MutexOk(s) && ClosesOk(s) && t < |s.pcs| && CanStep(s, t)
    requires !Closing(s.pcs[t]) && !s.pcs[t].CloseTest? && !s.pcs[t].CloseLeave?
    ensures ClosesOk(Step(s, t, chosen))
  {
    NoCloseHistory(s, t, chosen);
    assert InMonitor(s.pcs[t]) || s.mutex.None?;
    assert s.mutex.None? || s.mutex == Some(t);
    hide Step, MutexOk;
  }

  lemma ClosesStay(s: State, s': State, t: nat)
    requires MutexOk(s) && ClosesOk(s) && t < |s.pcs| && !InMonitor(s.pcs[t])
    requires |s'.pcs| == |s.pcs| && s'.pcs == s.pcs[t := s'.pcs[t]]
    requires s'.mutex == s.mutex && s'.running == s.running && s'.closes == s.closes
    ensures ClosesOk(s')
  {
  }

  lemma ClosesKeep(s: State, s': State)
    requires Inv(s) && ClosesOk(s) && Next(s, s')
    ensures ClosesOk(s')
  {
    var t: nat :| t < |s.pcs| && NextOf(s, s', t);
    assert MutexOk(s);
    hide Inv, MutexOk, ClosesOk, RightChoice;
    if s.pcs[t].Idle? {
      var call :| s' == Calls(s, t, call);
      ClosesStay(s, s', t);
    } else if Waits(s.pcs[t]) {
      ClosesStay(s, s', t);
    } else {
      var chosen :| RightChoice(s, t, chosen) && s' == Step(s, t, chosen);
      hide Step, CanStep;
      if s.pcs[t].CloseTest? || s.pcs[t].CloseLeave? {
        CloseSteps(s, t, chosen);
      } else if s.pcs[t].CloseConsumers? || s.pcs[t].CloseProducers? {
        CloseWakes(s, t, chosen);
      } else {
        OtherCloses(s, t, chosen);
      }
    }
  }

  // ---------- runs ----------

  lemma InitOk(capacity: nat, threads: nat)
    requires capacity > 0
    ensures Inv(Init(capacity, threads))
  {
    var s := Init(capacity, threads);
    forall i: nat | i < capacity
      ensures SlotOk(s, i)
    {
    }
  }

  ghost predicate Link(run: seq<State>, i: nat)
    requires i + 1 < |run|
  {
    Next(run[i], run[i + 1])
  }

  ghost predicate IsRun(capacity: nat, threads: nat, run: seq<State>) {
    run != [] && run[0] == Init(capacity, threads) && forall i: nat :: i + 1 < |run| ==> Link(run, i)
  }

  lemma {:induction false} RunKeeps(capacity: nat, threads: nat, run: seq<State>, i: nat)
    requires capacity > 0 && IsRun(capacity, threads, run) && i < |run|
    ensures Inv(run[i]) && ReturnsOk(run[i]) && ClosesOk(run[i])
  {
    if i == 0 {
      InitOk(capacity, threads);
    } else {
      hide Inv, ReturnsOk, ClosesOk, Next, Init;
      RunKeeps(capacity, threads, run, i - 1);
      assert Link(run, i - 1);
      NextKeeps(run[i - 1], run[i]);
      ReturnsKeep(run[i - 1], run[i]);
      ClosesKeep(run[i - 1], run[i]);
    }
  }

  /** A fetch returns the session that it took itself, before any other thread can take one. */
  lemma ReturnsItsOwn(capacity: nat, threads: nat, run: seq<State>, i: nat, t: nat)
    requires capacity > 0 && IsRun(capacity, threads, run) && i < |run| && t < |run[i].pcs| && run[i].pcs[t].FetchLeave?
    ensures run[i].fetched == run[i].returned + if run[i].pcs[t].result.Some? then [run[i].pcs[t].result.value] else []
  {
    RunKeeps(capacity, threads, run, i);
    assert MutexOk(run[i]);
  }

  /** A push answers that it was accepted exactly if its session entered the queue; a push is refused, a fetch
      answers with nothing and a close answers only once the queue is closed. */
  lemma AnswersTrue(capacity: nat, threads: nat, run: seq<State>, i: nat, t: nat)
    requires capacity > 0 && IsRun(capacity, threads, run) && i < |run| && t < |run[i].pcs|
    ensures var s, pc := run[i], run[i].pcs[t];
            && (pc.PushLeave? ==> (pc.accepted <==> pc.session in s.pushed) && (!pc.accepted ==> !s.running))
            && (pc.FetchLeave? && pc.result.None? ==> !s.running)
            && (pc.CloseLeave? ==> !s.running)
  {
    RunKeeps(capacity, threads, run, i);
    assert PcOk(run[i], run[i].pcs[t]);
  }

  /** Of all closes exactly one succeeds, the one that closed the queue. It has answered once nobody is inside, and
      while a close is about to answer with success none has. */
  lemma ClosedOnce(capacity: nat, threads: nat, run: seq<State>, i: nat)
    requires capacity > 0 && IsRun(capacity, threads, run) && i < |run|
    ensures run[i].closes <= 1 && (run[i].running ==> run[i].closes == 0)
    ensures run[i].mutex.None? ==> run[i].closes == if run[i].running then 0 else 1
    ensures forall t: nat :: t < |run[i].pcs| && run[i].pcs[t].CloseLeave? ==>
              run[i].closes == if run[i].pcs[t].failed then 1 else 0
  {
    RunKeeps(capacity, threads, run, i);
    forall t: nat | t < |run[i].pcs| && run[i].pcs[t].CloseLeave?
      ensures run[i].closes == if run[i].pcs[t].failed then 1 else 0
    {
      assert PcOk(run[i], run[i].pcs[t]) && InMonitor(run[i].pcs[t]) && run[i].mutex == Some(t);
    }
  }

  /** While a thread waits in a running queue, a thread that is awake serves each session or free slot; once the
      queue is closed nobody waits but for the broadcasts still due. */
  lemma WakeUpsKept(capacity: nat, threads: nat, run: seq<State>, i: nat)
    requires capacity > 0 && IsRun(capacity, threads, run) && i < |run|
    ensures NoLostWakeUp(run[i], false) && NoLostWakeUp(run[i], true) && NobodyLeftBehind(run[i])
  {
    RunKeeps(capacity, threads, run, i);
  }

  /** Sessions leave in the order they entered, none twice. */
  lemma FirstInFirstOut(capacity: nat, threads: nat, run: seq<State>, i: nat)
    requires capacity > 0 && IsRun(capacity, threads, run) && i < |run|
    ensures run[i].fetched <= run[i].pushed && |run[i].pushed| - |run[i].fetched| == run[i].count <= |run[i].slots|
    ensures forall a, b :: 0 <= a < b < |run[i].pushed| ==> run[i].pushed[a] != run[i].pushed[b]
  {
    RunKeeps(capacity, threads, run, i);
  }

  lemma NobodyInside(s: State)
    requires Inv(s) && forall t: nat :: t < |s.pcs| ==> !CanStep(s, t)
    ensures forall t: nat :: t < |s.pcs| ==> s.pcs[t].Idle? || Waits(s.pcs[t])
  {
    forall t: nat | t < |s.pcs|
      ensures !InMonitor(s.pcs[t])
    {
      assert PcOk(s, s.pcs[t]) && !CanStep(s, t);
      if s.count > 0 {
        assert SlotOk(s, 0);
      }
    }
    assert s.mutex.None?;
    forall t: nat | t < |s.pcs|
      ensures !WantsMutex(s.pcs[t])
    {
      assert !CanStep(s, t);
    }
  }

  lemma {:induction false} NothingReady(pcs: seq<Pc>, producers: bool)
    requires forall t :: 0 <= t < |pcs| ==> pcs[t].Idle? || Waits(pcs[t])
    ensures Readies(pcs, producers) == 0
  {
    if pcs != [] {
      NothingReady(pcs[..|pcs| - 1], producers);
    }
  }

  /** If no thread can go on by itself, then the queue is running, consumers wait only because it is empty
      and producers only because it is full: no wake-up was lost. */
  lemma StuckOnlyWhenDue(capacity: nat, threads: nat, run: seq<State>, i: nat)
    requires capacity > 0 && IsRun(capacity, threads, run) && i < |run|
    requires forall t: nat :: t < |run[i].pcs| ==> !CanStep(run[i], t)
    ensures forall t: nat :: t < |run[i].pcs| ==> run[i].pcs[t].Idle? || (Waits(run[i].pcs[t]) && run[i].running)
    ensures forall t: nat :: t < |run[i].pcs| && run[i].pcs[t].FetchWait? ==> run[i].count == 0
    ensures forall t: nat :: t < |run[i].pcs| && run[i].pcs[t].PushWait? ==> run[i].count == |run[i].slots|
  {
    var s := run[i];
    RunKeeps(capacity, threads, run, i);
    NobodyInside(s);
    NothingReady(s.pcs, false);
    NothingReady(s.pcs, true);
  }

  // ---------- freeing ----------

  /** The sessions freed with the queue, in the order of the slots. */
  function Freed(slots: seq<Option<nat>>): seq<nat> {
    if slots == [] then []
    else (if slots[0].Some? then [slots[0].value] else []) + Freed(slots[1..])
  }

  lemma {:induction false} FreedParts(a: seq<Option<nat>>, b: seq<Option<nat>>)
    ensures Freed(a + b) == Freed(a) + Freed(b)
  {
    if a == [] {
      assert a + b == b;
    } else {
      FreedParts(a[1..], b);
      var head := if a[0].Some? then [a[0].value] else [];
      assert (a + b)[0] == a[0] && (a + b)[1..] == a[1..] + b;
      assert Freed(a + b) == head + Freed(a[1..] + b);
      assert head + (Freed(a[1..]) + Freed(b)) == head + Freed(a[1..]) + Freed(b);
    }
  }

  lemma {:induction false} FreedAll(slots: seq<Option<nat>>, sessions: seq<nat>)
    requires |slots| == |sessions| && forall i :: 0 <= i < |slots| ==> slots[i] == Some(sessions[i])
    ensures Freed(slots) == sessions
  {
    if slots != [] {
      FreedAll(slots[1..], sessions[1..]);
    }
  }

  lemma {:induction false} FreedNone(slots: seq<Option<nat>>)
    requires forall i :: 0 <= i < |slots| ==> slots[i].None?
    ensures Freed(slots) == []
  {
    if slots != [] {
      FreedNone(slots[1..]);
    }
  }

  lemma QueuedLength(s: State)
    requires RingOk(s)
    ensures |Queued(s)| == s.count <= Capacity(s) && s.fetchIdx < Capacity(s)
  {
  }

  lemma SlotAt(s: State, i: nat, j: nat)
    requires RingOk(s) && i < Capacity(s) && j < Capacity(s)
    requires j == s.fetchIdx + i || j == s.fetchIdx + i - Capacity(s)
    ensures s.slots[j] == if i < s.count then Some(Queued(s)[i]) else None
  {
    assert SlotOk(s, i);
  }

  lemma FreedStraight(s: State)
    requires RingOk(s) && s.fetchIdx + s.count <= Capacity(s)
    ensures Freed(s.slots) == Queued(s)
  {
    QueuedLength(s);
    hide SlotOk, Freed, Queued, RingOk;
    var f, n, c := s.fetchIdx, s.count, Capacity(s);
    var front, window, back := s.slots[..f], s.slots[f..f + n], s.slots[f + n..];
    assert s.slots == front + (window + back);
    FreedParts(front, window + back);
    FreedParts(window, back);
    forall j: nat | j < f
      ensures front[j].None?
    {
      SlotAt(s, j + c - f, j);
    }
    forall j: nat | j < |back|
      ensures back[j].None?
    {
      SlotAt(s, n + j, f + n + j);
    }
    forall i: nat | i < n
      ensures window[i] == Some(Queued(s)[i])
    {
      SlotAt(s, i, f + i);
    }
    FreedNone(front);
    FreedNone(back);
    FreedAll(window, Queued(s));
  }

  lemma FreedTurned(slots: seq<Option<nat>>, queued: seq<nat>, f: nat, k: nat)
    requires k <= |queued| && |queued| - k <= f && |slots| == f + k
    requires forall j :: 0 <= j < |queued| - k ==> slots[j] == Some(queued[k + j])
    requires forall j :: |queued| - k <= j < f ==> slots[j].None?
    requires forall i :: 0 <= i < k ==> slots[f + i] == Some(queued[i])
    ensures Freed(slots) == queued[k..] + queued[..k]
  {
    hide Freed;
    var rest := |queued| - k;
    var front, gap, back := slots[..rest], slots[rest..f], slots[f..];
    assert slots == front + (gap + back);
    FreedParts(front, gap + back);
    FreedParts(gap, back);
    FreedAll(front, queued[k..]);
    FreedNone(gap);
    FreedAll(back, queued[..k]);
  }

  lemma FreedWrapped(s: State)
    requires RingOk(s) && s.fetchIdx + s.count > Capacity(s)
    ensures Freed(s.slots) == Queued(s)[Capacity(s) - s.fetchIdx..] + Queued(s)[..Capacity(s) - s.fetchIdx]
  {
    QueuedLength(s);
    hide SlotOk, Freed, Queued, RingOk;
    var f, n, k := s.fetchIdx, s.count, Capacity(s) - s.fetchIdx;
    forall j: nat | j < n - k
      ensures s.slots[j] == Some(Queued(s)[k + j])
    {
      SlotAt(s, k + j, j);
    }
    forall j: nat | n - k <= j < f
      ensures s.slots[j].None?
    {
      SlotAt(s, k + j, j);
    }
    forall i: nat | i < k
      ensures s.slots[f + i] == Some(Queued(s)[i])
    {
      SlotAt(s, i, f + i);
    }
    FreedTurned(s.slots, Queued(s), f, k);
  }

  /** The ring, read from its first slot, whether the queue wraps around its end or not. */
  lemma FreedIsQueued(s: State)
    requires RingOk(s)
    ensures multiset(Freed(s.slots)) == multiset(Queued(s))
  {
    if s.fetchIdx + s.count <= Capacity(s) {
      FreedStraight(s);
    } else {
      var k := Capacity(s) - s.fetchIdx;
      FreedWrapped(s);
      assert Queued(s) == Queued(s)[..k] + Queued(s)[k..];
    }
  }

  /** When nobody is inside any more and the queue is freed, each session that entered it was returned by exactly one
      fetch, in order, or is freed, exactly once. */
  lemma FetchedOrFreed(capacity: nat, threads: nat, run: seq<State>, i: nat)
    requires capacity > 0 && IsRun(capacity, threads, run) && i < |run|
    ensures multiset(run[i].pushed) == multiset(run[i].fetched) + multiset(Freed(run[i].slots))
    ensures run[i].returned <= run[i].fetched <= run[i].pushed
    ensures run[i].mutex.None? ==> run[i].returned == run[i].fetched
  {
    var s := run[i];
    RunKeeps(capacity, threads, run, i);
    FreedIsQueued(s);
    assert s.pushed == s.fetched + Queued(s);
  }
}
