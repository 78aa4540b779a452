/**
  The pools of threads that execute one file of commands, as steps over shared state. A BARRIER ends the pool
  that reads it; once its threads are joined a new pool goes on reading. The end of the file ends the last pool.
 */
module Pools {
  import opened Wrappers

  /** Every command but BARRIER is executed by the thread that read it. */
  datatype Command = Ordinary | Barrier

  datatype Status = Continue | EocFound | BarrierFound

  /** A command is named by its position in the file. */
  datatype Pc =
    | Absent             // not created yet
    | Starting           // in the wrapper
    | AtInput            // wants the input lock
    | Deciding           // holds it, has to look at the exit status
    | Reading            // holds it, about to read
    | Parsing(k: nat)    // holds it, reads the arguments
    | Executing(k: nat)  // has released it
    | Marking            // holds it, has read BARRIER
    | Reopening          // holds it, has set the status
    | Ending             // holds it, has met the end of the file
    | Leaving            // holds it, about to release it and return
    | Exited

  datatype Main = Creating(next: nat) | Joining(next: nat) | Finished

  datatype Event = Read(k: nat, pool: nat) | Done(k: nat) | EndRead

  /** `pool` counts the pools before this one; `log` is a history variable. The main thread holds the pool's lock
      while it creates threads. */
  datatype State = State(status: Status, input: Option<nat>, pcs: seq<Pc>, main: Main, position: nat, pool: nat,
                         log: seq<Event>)

  function Init(threads: nat): State {
    State(Continue, None, seq(threads, t => Absent), Creating(0), 0, 0, [])
  }

  predicate HoldsInput(pc: Pc) {
    pc.Deciding? || pc.Reading? || pc.Parsing? || pc.Marking? || pc.Reopening? || pc.Ending? || pc.Leaving?
  }

  predicate LooksAtStatus(pc: Pc) { pc.Starting? || pc.Deciding? || pc.Marking? || pc.Ending? }

  predicate CanStep(s: State, t: nat)
    requires t < |s.pcs|
  {
    && !s.pcs[t].Absent? && !s.pcs[t].Exited?
    && (LooksAtStatus(s.pcs[t]) ==> !s.main.Creating?)
    && (s.pcs[t].AtInput? ==> s.input.None?)
  }

  function Set(s: State, t: nat, pc: Pc): State
    requires t < |s.pcs|
  {
    s.(pcs := s.pcs[t := pc])
  }

  /** get_next. */
  function ReadNext(file: seq<Command>, s: State, t: nat): State
    requires t < |s.pcs|
  {
    if s.position >= |file| then Set(s.(log := s.log + [EndRead]), t, Ending)
    else
      var pc := if file[s.position].Barrier? then Marking else Parsing(s.position);
      Set(s.(position := s.position + 1, log := s.log + [Read(s.position, s.pool)]), t, pc)
  }

  /** The next step of thread t. */
  function Step(file: seq<Command>, s: State, t: nat): State
    requires t < |s.pcs| && CanStep(s, t)
  {
    match s.pcs[t]
    case Starting => Set(s, t, if s.status.Continue? then AtInput else Exited)
    case AtInput => Set(s.(input := Some(t)), t, Deciding)
    case Deciding => Set(s, t, if s.status.Continue? then Reading else Leaving)
    case Reading => ReadNext(file, s, t)
    case Parsing(k) => Set(s.(input := None), t, Executing(k))
    case Executing(k) => Set(s.(log := s.log + [Done(k)]), t, AtInput)
    case Marking => Set(s.(status := BarrierFound), t, Reopening)
    case Reopening => Set(s.(input := None), t, AtInput)
    case Ending => Set(s.(status := EocFound), t, Leaving)
    case Leaving => Set(s.(input := None), t, Exited)
  }

  predicate MainCan(s: State) {
    match s.main
    case Creating(i) => true
    case Joining(i) => i < |s.pcs| ==> s.pcs[i].Exited?
    case Finished => false
  }

  function MainStep(s: State): State
    requires MainCan(s)
  {
    match s.main
    case Creating(i) => if i < |s.pcs| then Set(s, i, Starting).(main := Creating(i + 1)) else s.(main := Joining(0))
    case Joining(i) =>
      if i < |s.pcs| then s.(main := Joining(i + 1))
      else if s.status.BarrierFound? then
        s.(status := Continue, pcs := seq(|s.pcs|, t => Absent), main := Creating(0), pool := s.pool + 1)
      else s.(main := Finished)
  }

  ghost predicate NextOf(file: seq<Command>, s: State, s': State, t: nat)
    requires t < |s.pcs|
  {
    CanStep(s, t) && s' == Step(file, s, t)
  }

  ghost predicate Next(file: seq<Command>, s: State, s': State) {
    || (MainCan(s) && s' == MainStep(s))
    || exists t: nat :: t < |s.pcs| && NextOf(file, s, s', t)
  }

  // ---------- what a log may hold ----------

  /** The barriers among the first n commands. */
  function Barriers(file: seq<Command>, n: nat): nat
    requires n <= |file|
  {
    if n == 0 then 0 else Barriers(file, n - 1) + if file[n - 1].Barrier? then 1 else 0
  }

  lemma {:induction false} MoreBarriers(file: seq<Command>, k: nat, m: nat)
    requires k <= m <= |file|
    ensures Barriers(file, k) <= Barriers(file, m)
    ensures (exists b :: k <= b < m && file[b].Barrier?) ==> Barriers(file, k) < Barriers(file, m)
  {
    if k < m {
      MoreBarriers(file, k, m - 1);
    }
  }

  /** The event is among the first n. */
  ghost predicate Happened(log: seq<Event>, n: nat, e: Event)
    requires n <= |log|
  {
    exists i: nat :: i < n && log[i] == e
  }

  function ReadOf(file: seq<Command>, k: nat): Event
    requires k <= |file|
  {
    Read(k, Barriers(file, k))
  }

  /** Every ordinary command that a barrier separates from command k has been executed. */
  ghost predicate BarrierKept(file: seq<Command>, log: seq<Event>, n: nat, k: nat)
    requires n <= |log| && k <= |file|
  {
    forall m: nat :: m < k && file[m].Ordinary? && Barriers(file, m) < Barriers(file, k) ==> Happened(log, n, Done(m))
  }

  /** The first n events read the first k commands and nothing else. */
  ghost predicate HaveRead(file: seq<Command>, log: seq<Event>, n: nat, k: nat)
    requires n <= |log|
  {
    forall m: nat :: m < |file| ==> (m < k <==> Happened(log, n, ReadOf(file, m)))
  }

  ghost predicate EventOk(file: seq<Command>, log: seq<Event>, j: nat)
    requires j < |log|
  {
    match log[j]
    case Read(k, pool) =>
      && k < |file| && pool == Barriers(file, k) && HaveRead(file, log, j, k) && BarrierKept(file, log, j, k)
      && !Happened(log, j, EndRead)
    case Done(k) =>
      k < |file| && file[k].Ordinary? && Happened(log, j, ReadOf(file, k)) && !Happened(log, j, Done(k))
    case EndRead => HaveRead(file, log, j, |file|) && !Happened(log, j, EndRead)
  }

  ghost predicate LogOk(file: seq<Command>, log: seq<Event>) {
    forall j: nat :: j < |log| ==> EventOk(file, log, j)
  }

  // ---------- what the steps keep ----------

  ghost predicate LockOk(s: State) {
    && (s.input.Some? ==> s.input.value < |s.pcs|)
    && forall t: nat :: t < |s.pcs| ==> (HoldsInput(s.pcs[t]) <==> s.input == Some(t))
  }

  predicate Held(pc: Pc, k: nat) { (pc.Parsing? || pc.Executing?) && pc.k == k }

  ghost predicate SomeoneHas(pcs: seq<Pc>, k: nat) {
    exists t: nat :: t < |pcs| && Held(pcs[t], k)
  }

  ghost predicate OneHas(pcs: seq<Pc>) {
    forall t: nat, u: nat, k: nat :: t < |pcs| && u < |pcs| && Held(pcs[t], k) && Held(pcs[u], k) ==> t == u
  }

  /** Who holds the input lock. */
  function Holder(s: State): Pc {
    if s.input.Some? && s.input.value < |s.pcs| then s.pcs[s.input.value] else Exited
  }

  predicate BarrierSeen(s: State) { s.status.BarrierFound? || Holder(s).Marking? }

  predicate EndSeen(s: State) { s.status.EocFound? || Holder(s).Ending? }

  ghost predicate PcOk(file: seq<Command>, s: State, pc: Pc)
    requires s.position <= |file|
  {
    match pc
    case Reading => s.status.Continue?
    case Marking => s.status.Continue?
    case Ending => s.status.Continue?
    case Reopening => s.status.BarrierFound?
    case Leaving => !s.status.Continue?
    case Exited => !s.status.Continue?
    case Parsing(k) => k < s.position && file[k].Ordinary? && Barriers(file, k) == s.pool
    case Executing(k) => k < s.position && file[k].Ordinary? && Barriers(file, k) == s.pool
    case _ => true
  }

  ghost predicate MainOk(s: State) {
    match s.main
    case Creating(i) =>
      && i <= |s.pcs| && s.status.Continue?
      && forall t: nat :: t < |s.pcs| ==> s.pcs[t] == if t < i then Starting else Absent
    case Joining(i) =>
      i <= |s.pcs| && forall t: nat :: t < |s.pcs| ==> !s.pcs[t].Absent? && (t < i ==> s.pcs[t].Exited?)
    case Finished => !s.status.BarrierFound? && forall t: nat :: t < |s.pcs| ==> s.pcs[t].Exited?
  }

  /** What has been read of the file. */
  ghost predicate InputOk(file: seq<Command>, s: State)
    requires s.position <= |file|
  {
    && s.pool + (if BarrierSeen(s) then 1 else 0) == Barriers(file, s.position)
    && (EndSeen(s) ==> s.position == |file|)
    && (EndSeen(s) <==> Happened(s.log, |s.log|, EndRead))
    && HaveRead(file, s.log, |s.log|, s.position)
  }

  /** A command that has been read is in the hands of a thread until it is done. */
  ghost predicate WorkOk(file: seq<Command>, s: State)
    requires s.position <= |file|
  {
    && OneHas(s.pcs)
    && forall k: nat :: k < s.position && file[k].Ordinary? ==>
         (SomeoneHas(s.pcs, k) <==> !Happened(s.log, |s.log|, Done(k)))
  }

  ghost predicate Inv(file: seq<Command>, s: State) {
    && s.position <= |file| && LogOk(file, s.log) && LockOk(s) && MainOk(s) && InputOk(file, s) && WorkOk(file, s)
    && forall t: nat :: t < |s.pcs| ==> PcOk(file, s, s.pcs[t])
  }

  // ---------- the log ----------

  lemma Appended(log: seq<Event>, e: Event, n: nat, x: Event)
    requires n <= |log|
    ensures Happened(log + [e], n, x) <==> Happened(log, n, x)
    ensures Happened(log + [e], |log| + 1, x) <==> Happened(log, |log|, x) || x == e
  {
    var longer := log + [e];
    if Happened(log, n, x) {
      var i: nat :| i < n && log[i] == x;
      assert longer[i] == x;
    }
    if Happened(log, |log|, x) {
      var i: nat :| i < |log| && log[i] == x;
      assert longer[i] == x;
    }
    assert longer[|log|] == e;
  }

  lemma EventStays(file: seq<Command>, log: seq<Event>, e: Event, j: nat)
    requires j < |log| && EventOk(file, log, j)
    ensures EventOk(file, log + [e], j)
  {
    forall x
      ensures Happened(log + [e], j, x) <==> Happened(log, j, x)
    {
      Appended(log, e, j, x);
    }
    hide Happened;
    assert (log + [e])[j] == log[j];
  }

  lemma LogGrows(file: seq<Command>, log: seq<Event>, e: Event)
    requires LogOk(file, log) && EventOk(file, log + [e], |log|)
    ensures LogOk(file, log + [e])
  {
    forall j: nat | j < |log + [e]|
      ensures EventOk(file, log + [e], j)
    {
      if j < |log| {
        EventStays(file, log, e, j);
      }
    }
  }

  // ---------- one thread moves ----------

  predicate OnlyMoves(s: State, s': State, t: nat) {
    t < |s.pcs| == |s'.pcs| && s'.pcs == s.pcs[t := s'.pcs[t]]
  }

  /** The thread that moves takes the input lock, gives it back or does neither. */
  lemma LockMoves(s: State, s': State, t: nat)
    requires LockOk(s) && OnlyMoves(s, s', t)
    requires if HoldsInput(s.pcs[t]) then s'.input == (if HoldsInput(s'.pcs[t]) then s.input else None)
             else if HoldsInput(s'.pcs[t]) then s.input.None? && s'.input == Some(t)
             else s'.input == s.input
    ensures LockOk(s')
  {
  }

  lemma MainStays(s: State, s': State, t: nat)
    requires MainOk(s) && OnlyMoves(s, s', t) && CanStep(s, t) && s'.main == s.main
    requires !s'.pcs[t].Absent?
    ensures MainOk(s') && s.main.Joining?
  {
  }

  lemma HandsStay(file: seq<Command>, s: State, s': State, t: nat)
    requires s.position <= |file| && WorkOk(file, s) && OnlyMoves(s, s', t)
    requires forall k: nat :: Held(s'.pcs[t], k) <==> Held(s.pcs[t], k)
    requires s'.position == s.position && s'.log == s.log
    ensures WorkOk(file, s')
  {
    forall k: nat
      ensures SomeoneHas(s'.pcs, k) <==> SomeoneHas(s.pcs, k)
    {
      if u: nat :| u < |s.pcs| && Held(s.pcs[u], k) {
        assert Held(s'.pcs[u], k);
      }
      if u: nat :| u < |s.pcs| && Held(s'.pcs[u], k) {
        assert Held(s.pcs[u], k);
      }
    }
  }

  /** A step that neither reads nor finishes a command. */
  lemma QuietStep(file: seq<Command>, s: State, t: nat)
    requires Inv(file, s) && t < |s.pcs| && CanStep(s, t) && !s.pcs[t].Reading? && !s.pcs[t].Executing?
    ensures Inv(file, Step(file, s, t))
  {
    hide LogOk, MainOk, WorkOk, HaveRead, Happened;
    var s' := Step(file, s, t);
    assert PcOk(file, s, s.pcs[t]);
    MainStays(s, s', t);
    LockMoves(s, s', t);
    HandsStay(file, s, s', t);
    forall u: nat | u < |s'.pcs|
      ensures PcOk(file, s', s'.pcs[u])
    {
      assert PcOk(file, s, s.pcs[u]);
    }
  }

  // ---------- reading and finishing ----------

  /** What has been done was read before. */
  lemma DoneWasRead(file: seq<Command>, s: State, k: nat)
    requires s.position <= |file| && LogOk(file, s.log) && InputOk(file, s) && Happened(s.log, |s.log|, Done(k))
    ensures k < s.position
  {
    var j: nat :| j < |s.log| && s.log[j] == Done(k);
    assert EventOk(file, s.log, j);
    var i: nat :| i < j && s.log[i] == ReadOf(file, k);
    assert Happened(s.log, |s.log|, ReadOf(file, k));
  }

  /** When a thread is about to read, the pool has passed all the barriers so far and the end has not been met. */
  lemma AboutToRead(file: seq<Command>, s: State, t: nat)
    requires Inv(file, s) && t < |s.pcs| && s.pcs[t].Reading?
    ensures s.pool == Barriers(file, s.position) && !Happened(s.log, |s.log|, EndRead)
    ensures BarrierKept(file, s.log, |s.log|, s.position)
  {
    hide LogOk, MainOk, HaveRead, Happened, OneHas;
    assert PcOk(file, s, s.pcs[t]);
    forall m: nat | m < s.position && file[m].Ordinary? && Barriers(file, m) < Barriers(file, s.position)
      ensures Happened(s.log, |s.log|, Done(m))
    {
      forall u: nat | u < |s.pcs|
        ensures !Held(s.pcs[u], m)
      {
        assert PcOk(file, s, s.pcs[u]);
      }
      assert !SomeoneHas(s.pcs, m);
    }
  }

  lemma HaveReadSame(file: seq<Command>, log: seq<Event>, e: Event, k: nat)
    requires HaveRead(file, log, |log|, k)
    ensures HaveRead(file, log + [e], |log|, k)
    ensures !e.Read? ==> HaveRead(file, log + [e], |log| + 1, k)
    ensures k < |file| && e == ReadOf(file, k) ==> HaveRead(file, log + [e], |log| + 1, k + 1)
  {
    forall m: nat | m < |file|
      ensures Happened(log + [e], |log|, ReadOf(file, m)) <==> Happened(log, |log|, ReadOf(file, m))
      ensures Happened(log + [e], |log| + 1, ReadOf(file, m)) <==>
              Happened(log, |log|, ReadOf(file, m)) || e == ReadOf(file, m)
    {
      Appended(log, e, |log|, ReadOf(file, m));
    }
  }

  lemma BarrierKeptSame(file: seq<Command>, log: seq<Event>, e: Event, k: nat)
    requires k <= |file| && BarrierKept(file, log, |log|, k)
    ensures BarrierKept(file, log + [e], |log|, k)
  {
    forall m: nat | m < k && file[m].Ordinary? && Barriers(file, m) < Barriers(file, k)
      ensures Happened(log + [e], |log|, Done(m))
    {
      Appended(log, e, |log|, Done(m));
    }
  }

  lemma EndStep(file: seq<Command>, s: State, t: nat)
    requires Inv(file, s) && t < |s.pcs| && CanStep(s, t) && s.pcs[t].Reading? && s.position == |file|
    ensures Inv(file, Step(file, s, t))
  {
    AboutToRead(file, s, t);
    hide LogOk, MainOk, HaveRead, Happened, OneHas, SomeoneHas;
    var s' := Step(file, s, t);
    assert PcOk(file, s, s.pcs[t]);
    Appended(s.log, EndRead, |s.log|, EndRead);
    HaveReadSame(file, s.log, EndRead, s.position);
    LogGrows(file, s.log, EndRead);
    MainStays(s, s', t);
    LockMoves(s, s', t);
    HandsStay(file, s, s'.(log := s.log), t);
    forall k: nat
      ensures Happened(s'.log, |s'.log|, Done(k)) <==> Happened(s.log, |s.log|, Done(k))
    {
      Appended(s.log, EndRead, |s.log|, Done(k));
    }
    forall u: nat | u < |s'.pcs|
      ensures PcOk(file, s', s'.pcs[u])
    {
      assert PcOk(file, s, s.pcs[u]);
    }
  }

  lemma ReadWork(file: seq<Command>, s: State, s': State, t: nat)
    requires Inv(file, s) && t < |s.pcs| && CanStep(s, t) && s.pcs[t].Reading? && s.position < |file| &&
             s' == Step(file, s, t)
    ensures WorkOk(file, s')
  {
    var e := Read(s.position, s.pool);
    forall u: nat | u < |s.pcs|
      ensures !Held(s.pcs[u], s.position)
    {
      assert PcOk(file, s, s.pcs[u]);
    }
    forall k: nat
      ensures Happened(s'.log, |s'.log|, Done(k)) <==> Happened(s.log, |s.log|, Done(k))
    {
      Appended(s.log, e, |s.log|, Done(k));
    }
    if Happened(s.log, |s.log|, Done(s.position)) {
      DoneWasRead(file, s, s.position);
    }
    forall k: nat | k < s.position
      ensures SomeoneHas(s'.pcs, k) <==> SomeoneHas(s.pcs, k)
    {
      if u: nat :| u < |s.pcs| && Held(s.pcs[u], k) {
        assert Held(s'.pcs[u], k);
      }
      if u: nat :| u < |s.pcs| && Held(s'.pcs[u], k) {
        assert Held(s.pcs[u], k);
      }
    }
    if file[s.position].Ordinary? {
      assert Held(s'.pcs[t], s.position);
    }
  }

  lemma ReadLogged(file: seq<Command>, s: State, t: nat)
    requires Inv(file, s) && t < |s.pcs| && s.pcs[t].Reading? && s.position < |file|
    ensures LogOk(file, s.log + [Read(s.position, s.pool)])
    ensures !Happened(s.log + [Read(s.position, s.pool)], |s.log| + 1, EndRead)
    ensures HaveRead(file, s.log + [Read(s.position, s.pool)], |s.log| + 1, s.position + 1)
  {
    var e := Read(s.position, s.pool);
    AboutToRead(file, s, t);
    hide LogOk, MainOk, LockOk, HaveRead, Happened, WorkOk, BarrierKept;
    Appended(s.log, e, |s.log|, EndRead);
    HaveReadSame(file, s.log, e, s.position);
    BarrierKeptSame(file, s.log, e, s.position);
    LogGrows(file, s.log, e);
  }

  lemma ReadStep(file: seq<Command>, s: State, t: nat)
    requires Inv(file, s) && t < |s.pcs| && CanStep(s, t) && s.pcs[t].Reading? && s.position < |file|
    ensures Inv(file, Step(file, s, t))
  {
    var s' := Step(file, s, t);
    ReadLogged(file, s, t);
    ReadWork(file, s, s', t);
    assert PcOk(file, s, s.pcs[t]);
    hide LogOk, MainOk, HaveRead, Happened, WorkOk;
    MainStays(s, s', t);
    LockMoves(s, s', t);
    forall u: nat | u < |s'.pcs|
      ensures PcOk(file, s', s'.pcs[u])
    {
      assert PcOk(file, s, s.pcs[u]);
    }
  }

  lemma DoneWork(file: seq<Command>, s: State, s': State, t: nat)
    requires Inv(file, s) && t < |s.pcs| && CanStep(s, t) && s.pcs[t].Executing? && s' == Step(file, s, t)
    ensures WorkOk(file, s')
  {
    var e := Done(s.pcs[t].k);
    forall k: nat
      ensures Happened(s'.log, |s'.log|, Done(k)) <==> Happened(s.log, |s.log|, Done(k)) || k == e.k
    {
      Appended(s.log, e, |s.log|, Done(k));
    }
    assert Held(s.pcs[t], e.k);
    forall k: nat
      ensures SomeoneHas(s'.pcs, k) <==> SomeoneHas(s.pcs, k) && k != e.k
    {
      if u: nat :| u < |s.pcs| && Held(s.pcs[u], k) {
        if k == e.k {
          assert u == t;
        } else {
          assert Held(s'.pcs[u], k);
        }
      }
      if u: nat :| u < |s.pcs| && Held(s'.pcs[u], k) {
        assert Held(s.pcs[u], k);
      }
    }
  }

  lemma DoneStep(file: seq<Command>, s: State, t: nat)
    requires Inv(file, s) && t < |s.pcs| && CanStep(s, t) && s.pcs[t].Executing?
    ensures Inv(file, Step(file, s, t))
  {
    var s' := Step(file, s, t);
    var k := s.pcs[t].k;
    DoneWork(file, s, s', t);
    assert PcOk(file, s, s.pcs[t]);
    assert Happened(s.log, |s.log|, ReadOf(file, k));
    assert Held(s.pcs[t], k) && SomeoneHas(s.pcs, k);
    hide LogOk, MainOk, HaveRead, Happened, OneHas, SomeoneHas;
    Appended(s.log, Done(k), |s.log|, EndRead);
    Appended(s.log, Done(k), |s.log|, ReadOf(file, k));
    Appended(s.log, Done(k), |s.log|, Done(k));
    HaveReadSame(file, s.log, Done(k), s.position);
    LogGrows(file, s.log, Done(k));
    MainStays(s, s', t);
    LockMoves(s, s', t);
    forall u: nat | u < |s'.pcs|
      ensures PcOk(file, s', s'.pcs[u])
    {
      assert PcOk(file, s, s.pcs[u]);
    }
  }

  // ---------- the main thread ----------

  lemma NobodyInside(file: seq<Command>, s: State)
    requires Inv(file, s) && (s.main.Creating? || forall t: nat :: t < |s.pcs| ==> s.pcs[t].Exited?)
    ensures s.input.None? && forall k: nat :: !SomeoneHas(s.pcs, k)
  {
  }

  lemma MainKeeps(file: seq<Command>, s: State)
    requires Inv(file, s) && MainCan(s)
    ensures Inv(file, MainStep(s))
  {
    var s' := MainStep(s);
    if s.main.Creating? || s.main.next >= |s.pcs| {
      NobodyInside(file, s);
      assert forall k: nat :: !SomeoneHas(s'.pcs, k);
    }
    hide LogOk, HaveRead, Happened;
    forall u: nat | u < |s'.pcs|
      ensures PcOk(file, s', s'.pcs[u])
    {
      assert PcOk(file, s, s.pcs[u]);
    }
  }

  lemma NextKeeps(file: seq<Command>, s: State, s': State)
    requires Inv(file, s) && Next(file, s, s')
    ensures Inv(file, s')
  {
    if MainCan(s) && s' == MainStep(s) {
      MainKeeps(file, s);
    } else {
      var t: nat :| t < |s.pcs| && NextOf(file, s, s', t);
      assert s.position <= |file|;
      hide Inv;
      if s.pcs[t].Executing? {
        DoneStep(file, s, t);
      } else if !s.pcs[t].Reading? {
        QuietStep(file, s, t);
      } else if s.position < |file| {
        ReadStep(file, s, t);
      } else {
        EndStep(file, s, t);
      }
    }
  }

  // ---------- runs ----------

  lemma InitOk(file: seq<Command>, threads: nat)
    ensures Inv(file, Init(threads))
  {
  }

  ghost predicate Link(file: seq<Command>, run: seq<State>, i: nat)
    requires i + 1 < |run|
  {
    Next(file, run[i], run[i + 1])
  }

  ghost predicate IsRun(file: seq<Command>, threads: nat, run: seq<State>) {
    run != [] && run[0] == Init(threads) && forall i: nat :: i + 1 < |run| ==> Link(file, run, i)
  }

  lemma {:induction false} RunKeeps(file: seq<Command>, threads: nat, run: seq<State>, i: nat)
    requires IsRun(file, threads, run) && i < |run|
    ensures Inv(file, run[i])
  {
    if i == 0 {
      InitOk(file, threads);
    } else {
      hide Inv, Next, Init;
      RunKeeps(file, threads, run, i - 1);
      assert Link(file, run, i - 1);
      NextKeeps(file, run[i - 1], run[i]);
    }
  }

  /** When a command is read, exactly the commands before it in the file have been read; the pool is the one
      that its barriers call for. */
  lemma ReadInOrder(file: seq<Command>, threads: nat, run: seq<State>, i: nat, j: nat)
    requires IsRun(file, threads, run) && i < |run| && j < |run[i].log| && run[i].log[j].Read?
    ensures run[i].log[j].k < |file| && run[i].log[j].pool == Barriers(file, run[i].log[j].k)
    ensures forall m: nat :: m < |file| ==>
      (m < run[i].log[j].k <==> exists a: nat :: a < j && run[i].log[a] == Read(m, Barriers(file, m)))
  {
    RunKeeps(file, threads, run, i);
    var log := run[i].log;
    assert EventOk(file, log, j);
    forall m: nat | m < |file|
      ensures m < log[j].k <==> exists a: nat :: a < j && log[a] == Read(m, Barriers(file, m))
    {
      assert Happened(log, j, ReadOf(file, m)) <==> m < log[j].k;
    }
  }

  /** A command is executed once at most, after it was read. */
  lemma DoneOnce(file: seq<Command>, threads: nat, run: seq<State>, i: nat, b: nat)
    requires IsRun(file, threads, run) && i < |run| && b < |run[i].log| && run[i].log[b].Done?
    ensures run[i].log[b].k < |file| && exists a: nat :: a < b && run[i].log[a] == ReadOf(file, run[i].log[b].k)
    ensures forall a: nat :: a < b ==> run[i].log[a] != run[i].log[b]
  {
    RunKeeps(file, threads, run, i);
    assert EventOk(file, run[i].log, b);
  }

  /** Every command before a barrier has been executed before any command after it is read. */
  lemma BarrierSeparates(file: seq<Command>, threads: nat, run: seq<State>, i: nat, j: nat, k: nat, b: nat)
    requires IsRun(file, threads, run) && i < |run| && j < |run[i].log| && run[i].log[j].Read?
    requires k < b < run[i].log[j].k && b < |file| && file[b].Barrier? && file[k].Ordinary?
    ensures exists a: nat :: a < j && run[i].log[a] == Done(k)
  {
    RunKeeps(file, threads, run, i);
    assert EventOk(file, run[i].log, j);
    MoreBarriers(file, k, run[i].log[j].k);
    assert Happened(run[i].log, j, Done(k));
  }

  /** Nothing is read after the end of the file, which is met once, after every command was read. */
  lemma NothingAfterEnd(file: seq<Command>, threads: nat, run: seq<State>, i: nat, a: nat, b: nat)
    requires IsRun(file, threads, run) && i < |run| && a < |run[i].log| && b < |run[i].log| && run[i].log[a].EndRead? &&
             a != b
    ensures a < b ==> run[i].log[b].Done?
    ensures b < a ==> !run[i].log[b].EndRead?
    ensures forall k: nat :: k < |file| ==> exists c: nat :: c < a && run[i].log[c] == ReadOf(file, k)
  {
    RunKeeps(file, threads, run, i);
    var log := run[i].log;
    assert EventOk(file, log, a) && EventOk(file, log, b);
    assert a < b ==> Happened(log, b, EndRead);
    assert !Happened(log, a, EndRead);
    forall k: nat | k < |file|
      ensures exists c: nat :: c < a && log[c] == ReadOf(file, k)
    {
      assert Happened(log, a, ReadOf(file, k));
    }
  }

  // ---------- progress ----------

  /** No reachable state is stuck before the main thread has finished. */
  lemma SomeoneMoves(file: seq<Command>, s: State)
    requires Inv(file, s) && !s.main.Finished?
    ensures MainCan(s) || exists t: nat :: t < |s.pcs| && CanStep(s, t)
  {
    if s.main.Joining? && !MainCan(s) {
      var t := s.main.next;
      if !CanStep(s, t) {
        assert s.pcs[t].AtInput?;
        assert CanStep(s, s.input.value);
      }
    }
  }

  /** A bound on the steps a thread has left if it reads nothing more; `restart` is the price of a new pool. */
  function Weight(pc: Pc, restart: nat): nat {
    match pc
    case Exited => 0
    case Leaving => 1
    case Ending => 2
    case Reading => 3
    case Deciding => 4
    case AtInput => 5
    case Executing(_) => 6
    case Reopening => 6
    case Starting => 6
    case Parsing(_) => 7
    case Absent => 7
    case Marking => 7 + restart
  }

  function Weights(pcs: seq<Pc>, restart: nat): nat {
    if pcs == [] then 0 else Weights(pcs[..|pcs| - 1], restart) + Weight(pcs[|pcs| - 1], restart)
  }

  function Restart(threads: nat): nat { 8 * threads + 2 }

  /** What the commands not yet read may cost. */
  function Unread(file: seq<Command>, s: State): int
    requires s.position <= |file|
  {
    (|file| - s.position) * (Restart(|s.pcs|) + 5)
  }

  /** A bound on the steps left. */
  function StepsLeft(file: seq<Command>, s: State): int
    requires s.position <= |file|
  {
    var restart := Restart(|s.pcs|);
    Unread(file, s)
      + (if s.status.BarrierFound? then restart else 0)
      + Weights(s.pcs, restart)
      + (match s.main
         case Creating(_) => |s.pcs| + 2
         case Joining(i) => |s.pcs| + 1 - i
         case Finished => 0)
  }

  lemma {:induction false} WeightsMove(pcs: seq<Pc>, t: nat, pc: Pc, restart: nat)
    requires t < |pcs|
    ensures Weights(pcs[t := pc], restart) == Weights(pcs, restart) - Weight(pcs[t], restart) + Weight(pc, restart)
  {
    var front, last := pcs[..|pcs| - 1], |pcs| - 1;
    if t == last {
      assert pcs[t := pc][..last] == front;
    } else {
      assert pcs[t := pc][..last] == front[t := pc];
      WeightsMove(front, t, pc, restart);
    }
  }

  lemma {:induction false} WeightsEven(pcs: seq<Pc>, pc: Pc, restart: nat)
    requires forall t: nat :: t < |pcs| ==> pcs[t] == pc
    ensures Weights(pcs, restart) == |pcs| * Weight(pc, restart)
  {
    if pcs != [] {
      WeightsEven(pcs[..|pcs| - 1], pc, restart);
    }
  }

  lemma ReadingRunsOut(file: seq<Command>, s: State, t: nat)
    requires s.position <= |file| && t < |s.pcs| && CanStep(s, t) && s.pcs[t].Reading?
    ensures Step(file, s, t).position <= |file| && StepsLeft(file, Step(file, s, t)) < StepsLeft(file, s)
  {
    hide Weights, Restart;
    var s' := Step(file, s, t);
    var restart := Restart(|s.pcs|);
    WeightsMove(s.pcs, t, s'.pcs[t], restart);
    if s.position < |file| {
      assert Unread(file, s) == Unread(file, s') + (restart + 5);
    }
  }

  lemma ThreadRunsOut(file: seq<Command>, s: State, t: nat)
    requires s.position <= |file| && t < |s.pcs| && CanStep(s, t) && PcOk(file, s, s.pcs[t])
    ensures Step(file, s, t).position <= |file| && StepsLeft(file, Step(file, s, t)) < StepsLeft(file, s)
  {
    if s.pcs[t].Reading? {
      ReadingRunsOut(file, s, t);
    } else {
      hide Weights, Restart;
      var s' := Step(file, s, t);
      WeightsMove(s.pcs, t, s'.pcs[t], Restart(|s.pcs|));
      assert Unread(file, s') == Unread(file, s);
    }
  }

  lemma MainRunsOut(file: seq<Command>, s: State)
    requires Inv(file, s) && MainCan(s)
    ensures StepsLeft(file, MainStep(s)) < StepsLeft(file, s)
  {
    hide LogOk, LockOk, InputOk, WorkOk;
    var s' := MainStep(s);
    var restart := Restart(|s.pcs|);
    if s.main.Creating? && s.main.next < |s.pcs| {
      WeightsMove(s.pcs, s.main.next, Starting, restart);
    } else if s.main.Joining? && s.main.next >= |s.pcs| && s.status.BarrierFound? {
      WeightsEven(s'.pcs, Absent, restart);
    }
  }

  lemma StepsLeftBounded(file: seq<Command>, s: State)
    requires Inv(file, s)
    ensures 0 <= StepsLeft(file, s)
  {
    hide LogOk, LockOk, InputOk, WorkOk, PcOk, Weights;
    assert 0 <= Unread(file, s);
  }

  lemma SamePool(file: seq<Command>, s: State, s': State)
    requires s.position <= |file| && Next(file, s, s') && MainOk(s)
    ensures |s'.pcs| == |s.pcs|
  {
  }

  lemma NextRunsOut(file: seq<Command>, s: State, s': State)
    requires Inv(file, s) && Next(file, s, s')
    ensures Inv(file, s') && |s'.pcs| == |s.pcs| && 0 <= StepsLeft(file, s') < StepsLeft(file, s)
  {
    NextKeeps(file, s, s');
    SamePool(file, s, s');
    assert s.position <= |file| && s'.position <= |file| && forall t: nat :: t < |s.pcs| ==> PcOk(file, s, s.pcs[t]);
    hide Inv, PcOk, StepsLeft, Step, MainStep;
    StepsLeftBounded(file, s');
    if MainCan(s) && s' == MainStep(s) {
      MainRunsOut(file, s);
    } else {
      var t: nat :| t < |s.pcs| && NextOf(file, s, s', t);
      ThreadRunsOut(file, s, t);
    }
  }

  lemma {:induction false} StepsTaken(file: seq<Command>, threads: nat, run: seq<State>, i: nat)
    requires IsRun(file, threads, run) && i < |run|
    ensures Inv(file, run[i]) && |run[i].pcs| == threads
    ensures i + StepsLeft(file, run[i]) <= |file| * (8 * threads + 7) + 8 * threads + 2
  {
    if i == 0 {
      InitOk(file, threads);
      WeightsEven(run[0].pcs, Absent, Restart(threads));
    } else {
      hide Inv, Next, Init, StepsLeft;
      StepsTaken(file, threads, run, i - 1);
      assert Link(file, run, i - 1);
      NextRunsOut(file, run[i - 1], run[i]);
    }
  }

  /** No run goes on for ever, whatever the scheduler does. */
  lemma RunsEnd(file: seq<Command>, threads: nat, run: seq<State>)
    requires IsRun(file, threads, run)
    ensures |run| <= |file| * (8 * threads + 7) + 8 * threads + 3
  {
    var last := |run| - 1;
    if last == 0 {
      assert 0 <= |file| * (8 * threads + 7);
    } else {
      StepsTaken(file, threads, run, last - 1);
      assert Link(file, run, last - 1);
      NextRunsOut(file, run[last - 1], run[last]);
      StepsTaken(file, threads, run, last);
    }
  }

  /** Once nobody can move the whole file has been read and executed, by one pool more than it has barriers. */
  lemma JobDone(file: seq<Command>, threads: nat, run: seq<State>, i: nat)
    requires threads > 0 && IsRun(file, threads, run) && i < |run|
    requires !MainCan(run[i]) && forall t: nat :: t < |run[i].pcs| ==> !CanStep(run[i], t)
    ensures run[i].main.Finished? && run[i].position == |file| && run[i].pool == Barriers(file, |file|)
    ensures forall k: nat :: k < |file| && file[k].Ordinary? ==>
              exists a: nat :: a < |run[i].log| && run[i].log[a] == Done(k)
    ensures exists a: nat :: a < |run[i].log| && run[i].log[a] == EndRead
  {
    var s := run[i];
    StepsTaken(file, threads, run, i);
    if !s.main.Finished? {
      SomeoneMoves(file, s);
    }
    assert PcOk(file, s, s.pcs[0]);
    NobodyInside(file, s);
    forall k: nat | k < |file| && file[k].Ordinary?
      ensures exists a: nat :: a < |s.log| && s.log[a] == Done(k)
    {
      assert Happened(s.log, |s.log|, Done(k));
    }
    assert Happened(s.log, |s.log|, EndRead);
  }
}
