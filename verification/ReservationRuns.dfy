/** What holds over whole runs: one-at-a-time outcomes, seats that stay reserved, and progress. */
module ReservationRuns {
  import opened Wrappers
  import opened Locks
  import opened Seats
  import opened Reservation
  import opened ReservationInvariant

  ghost predicate Link(hall: Hall, run: seq<State>, i: nat)
    requires i + 1 < |run|
  {
    Next(hall, run[i], run[i + 1])
  }

  ghost predicate IsRun(hall: Hall, threads: nat, run: seq<State>) {
    && run != [] && run[0] == Init(hall, threads)
    && forall i: nat :: i + 1 < |run| ==> Link(hall, run, i)
  }

  /** Every state of every run keeps the invariant. */
  lemma {:induction false} RunKeeps(hall: Hall, threads: nat, run: seq<State>, i: nat)
    requires IsRun(hall, threads, run) && i < |run|
    ensures Inv(hall, run[i])
  {
    hide Inv, Next, Init;
    if i == 0 {
      InitOk(hall, threads);
    } else {
      RunKeeps(hall, threads, run, i - 1);
      assert Link(hall, run, i - 1);
      NextKeeps(hall, run[i - 1], run[i]);
    }
  }

  // ---------- outcomes ----------

  lemma LogGrows(hall: Hall, s: State, s': State)
    requires Next(hall, s, s')
    ensures s.log <= s'.log && |s'.log| <= |s.log| + 1 && |s'.pcs| == |s.pcs|
  {
    var t: nat :| t < |s.pcs| && NextOf(hall, s, s', t);
    if !IsActive(s.pcs[t]) {
      var req :| s' == Call(s, t, req);
    }
  }

  lemma OnlyActiveInFlight(hall: Hall, s: State, k: nat)
    requires Bounded(hall, s) && k < hall.Size() && forall t: nat :: t < |s.pcs| ==> !IsActive(s.pcs[t])
    ensures !InFlight(hall, s, k)
  {
  }

  /** Any interleaving of reserves and shows answers as if the recorded operations had run one at a time;
      with no operation under way the seats are what that history leaves. */
  lemma Linearizable(hall: Hall, threads: nat, run: seq<State>, i: nat)
    requires IsRun(hall, threads, run) && i < |run|
    ensures Sequential(hall, run[i].log)
    ensures (forall t: nat :: t < |run[i].pcs| ==> !IsActive(run[i].pcs[t])) ==> run[i].data == After(hall, run[i].log)
  {
    var s := run[i];
    RunKeeps(hall, threads, run, i);
    if forall t: nat :: t < |s.pcs| ==> !IsActive(s.pcs[t]) {
      forall k: nat | k < hall.Size()
        ensures s.data[k] == After(hall, s.log)[k]
      {
        assert SeatOk(hall, s, k);
        OnlyActiveInFlight(hall, s, k);
      }
      assert s.data == After(hall, s.log);
    }
  }

  /** A finished call stands in the history exactly once, at a point between its start and its end. */
  lemma RecordedOnce(hall: Hall, threads: nat, run: seq<State>, i: nat, t: nat)
    requires IsRun(hall, threads, run) && i < |run| && t < |run[i].pcs| && run[i].pcs[t].Done?
    ensures var pc, log := run[i].pcs[t], run[i].log;
            && pc.born <= pc.point < |log| && log[pc.point].thread == t && log[pc.point].req == pc.req
            && forall n :: pc.born <= n < |log| && log[n].thread == t ==> n == pc.point
  {
    RunKeeps(hall, threads, run, i);
    assert CallOk(run[i].log, t, run[i].pcs[t]);
  }

  lemma {:induction false} Owner(hall: Hall, log: seq<Entry>, k: nat) returns (m: nat)
    requires k < hall.Size() && After(hall, log)[k] != 0
    ensures m < |log| && log[m].outcome.Reserved? && log[m].req.Reserve? && Indices(hall, log[m].req.seats).Some?
    ensures k in Sort(Indices(hall, log[m].req.seats).value)
  {
    var e := log[|log| - 1];
    if e.outcome.Reserved? && e.req.Reserve? && Indices(hall, e.req.seats).Some? &&
      k in Sort(Indices(hall, e.req.seats).value) {
      m := |log| - 1;
    } else {
      m := Owner(hall, log[..|log| - 1], k);
    }
  }

  /** A reserve is refused only for a seat that an earlier successful reserve asked for. */
  lemma RefusedByOwner(hall: Hall, threads: nat, run: seq<State>, i: nat, n: nat) returns (m: nat)
    requires IsRun(hall, threads, run) && i < |run| && n < |run[i].log| && run[i].log[n].outcome.Refused?
    ensures m < n && run[i].log[m].outcome.Reserved? && run[i].log[m].req.Reserve?
    ensures Indices(hall, run[i].log[m].req.seats).Some? &&
            run[i].log[n].outcome.taken in Indices(hall, run[i].log[m].req.seats).value
  {
    var log, k := run[i].log, run[i].log[n].outcome.taken;
    RunKeeps(hall, threads, run, i);
    assert Answers(hall, After(hall, log[..n]), log[n].req, log[n].outcome);
    m := Owner(hall, log[..n], k);
    SortKeeps(Indices(hall, log[m].req.seats).value);
  }

  lemma HistoryStays(hall: Hall, log: seq<Entry>, log': seq<Entry>, k: nat)
    requires Sequential(hall, log') && log <= log' && |log'| <= |log| + 1 && k < hall.Size() && After(hall, log)[k] != 0
    ensures After(hall, log')[k] == After(hall, log)[k]
  {
    if log' != log {
      var e := log'[|log|];
      assert log' == log + [e] && log'[..|log|] == log;
      assert Answers(hall, After(hall, log), e.req, e.outcome);
      if e.outcome.Reserved? {
        SortKeeps(Indices(hall, e.req.seats).value);
      }
    }
  }

  lemma ReservedShows(hall: Hall, s: State, k: nat)
    requires Inv(hall, s) && k < hall.Size() && After(hall, s.log)[k] != 0
    ensures s.data[k] == After(hall, s.log)[k]
  {
    assert SeatOk(hall, s, k);
  }

  /** A seat once reserved is never written again, not even for a moment. */
  lemma ReservedStays(hall: Hall, s: State, s': State, k: nat)
    requires Inv(hall, s) && Next(hall, s, s') && k < hall.Size() && After(hall, s.log)[k] != 0
    ensures k < |s.data| && k < |s'.data| && After(hall, s'.log)[k] == After(hall, s.log)[k] == s.data[k] == s'.data[k]
  {
    NextKeeps(hall, s, s');
    LogGrows(hall, s, s');
    hide Next, LocksOk, SeatsOk;
    HistoryStays(hall, s.log, s'.log, k);
    ReservedShows(hall, s, k);
    ReservedShows(hall, s', k);
  }

  /** No show sees part of a reservation: its view is the history's, at a moment between its start and its end. */
  lemma ShownWhole(hall: Hall, threads: nat, run: seq<State>, i: nat, t: nat)
    requires IsRun(hall, threads, run) && i < |run| && t < |run[i].pcs| && run[i].pcs[t].Done? &&
             run[i].pcs[t].req.Show?
    ensures var pc := run[i].pcs[t];
            pc.born <= pc.point < |run[i].log| &&
              run[i].log[pc.point].outcome == Shown(After(hall, run[i].log[..pc.point]))
  {
    RunKeeps(hall, threads, run, i);
    var pc := run[i].pcs[t];
    assert CallOk(run[i].log, t, pc);
    assert Answers(hall, After(hall, run[i].log[..pc.point]), run[i].log[pc.point].req, run[i].log[pc.point].outcome);
  }

  /** The entry is a successful reserve that asked for the seat. */
  ghost predicate Got(e: Entry, seat: Seat) {
    e.outcome.Reserved? && e.req.Reserve? && seat in e.req.seats
  }

  lemma AsksIndex(hall: Hall, seats: seq<Seat>, seat: Seat)
    requires Indices(hall, seats).Some? && hall.Has(seat)
    ensures 0 <= hall.SeatIndex(seat) < hall.Size()
    ensures seat in seats <==> hall.SeatIndex(seat) in Indices(hall, seats).value
  {
    var idxs, k := Indices(hall, seats).value, hall.SeatIndex(seat);
    SeatIndexRange(hall, seat);
    if seat in seats {
      var i :| 0 <= i < |seats| && seats[i] == seat;
      assert idxs[i] == k;
    }
    if k in idxs {
      var i :| 0 <= i < |idxs| && idxs[i] == k;
      assert hall.Has(seats[i]);
      SeatIndexInjective(hall, seats[i], seat);
    }
  }

  /** What one more entry does to a seat of a sequential history. */
  lemma OneMore(hall: Hall, log: seq<Entry>, seat: Seat)
    requires log != [] && Sequential(hall, log) && hall.Has(seat)
    ensures 0 <= hall.SeatIndex(seat) < hall.Size()
    ensures var k, e := hall.SeatIndex(seat), log[|log| - 1];
            var was := After(hall, log[..|log| - 1])[k];
            if Got(e, seat) then was == 0 && After(hall, log)[k] == e.outcome.id > 0 else After(hall, log)[k] == was
  {
    var e, abs := log[|log| - 1], After(hall, log[..|log| - 1]);
    SeatIndexRange(hall, seat);
    assert Answers(hall, abs, e.req, e.outcome);
    if e.outcome.Reserved? && e.req.Reserve? {
      AsksIndex(hall, e.req.seats, seat);
      SortKeeps(Indices(hall, e.req.seats).value);
    }
  }

  lemma SequentialPrefix(hall: Hall, log: seq<Entry>, n: nat)
    requires Sequential(hall, log) && n <= |log|
    ensures Sequential(hall, log[..n])
  {
    forall m | 0 <= m < n
      ensures Answers(hall, After(hall, log[..n][..m]), log[..n][m].req, log[..n][m].outcome)
    {
      assert log[..n][..m] == log[..m];
    }
  }

  /** The id v is that of the reserve that got the seat, 0 if none did. */
  ghost predicate OwnedAs(log: seq<Entry>, seat: Seat, v: int) {
    && (forall m :: 0 <= m < |log| && Got(log[m], seat) ==> v == log[m].outcome.id > 0)
    && (v != 0 ==> exists m :: 0 <= m < |log| && Got(log[m], seat))
  }

  lemma OwnedMore(log: seq<Entry>, seat: Seat, was: int, v: int)
    requires log != [] && OwnedAs(log[..|log| - 1], seat, was)
    requires if Got(log[|log| - 1], seat) then was == 0 && v == log[|log| - 1].outcome.id > 0 else v == was
    ensures OwnedAs(log, seat, v)
  {
    var before := log[..|log| - 1];
    hide Got;
    forall m | 0 <= m < |log| && Got(log[m], seat)
      ensures v == log[m].outcome.id > 0
    {
      assert m < |before| ==> Got(before[m], seat);
    }
    if m :| 0 <= m < |before| && Got(before[m], seat) {
      assert Got(log[m], seat);
    }
  }

  /** After a sequential history a seat carries the id of the reserve that got it, 0 if none did. */
  lemma {:induction false} SeatOwner(hall: Hall, log: seq<Entry>, seat: Seat)
    requires Sequential(hall, log) && hall.Has(seat)
    ensures 0 <= hall.SeatIndex(seat) < hall.Size()
    ensures OwnedAs(log, seat, After(hall, log)[hall.SeatIndex(seat)])
  {
    SeatIndexRange(hall, seat);
    if log != [] {
      var before := log[..|log| - 1];
      SequentialPrefix(hall, log, |log| - 1);
      SeatOwner(hall, before, seat);
      OneMore(hall, log, seat);
      OwnedMore(log, seat, After(hall, before)[hall.SeatIndex(seat)], After(hall, log)[hall.SeatIndex(seat)]);
    }
  }

  /** The view, printed, has one line for each row, and in the place of each seat the id of the reserve that got
      exactly that seat in the history. */
  ghost predicate PrintsSeats(hall: Hall, log: seq<Entry>, view: seq<int>)
    requires hall.Valid()
  {
    var lines := Lines(hall.cols, view);
    && |lines| == hall.rows + 1
    && forall seat :: hall.Has(seat) ==>
         seat.col <= |lines[seat.row - 1]| && OwnedAs(log, seat, lines[seat.row - 1][seat.col - 1])
  }

  lemma PrintedAfter(hall: Hall, log: seq<Entry>)
    requires hall.Valid() && Sequential(hall, log)
    ensures PrintsSeats(hall, log, After(hall, log))
  {
    var view := After(hall, log);
    LinesShowSeats(hall, view);
    hide Sequential, OwnedAs, After;
    forall seat | hall.Has(seat)
      ensures SeatShown(hall, view, seat) && OwnedAs(log, seat, Lines(hall.cols, view)[seat.row - 1][seat.col - 1])
    {
      SeatOwner(hall, log, seat);
      assert SeatShown(hall, view, seat);
    }
  }

  /** A finished show prints the seats of the history at a moment between its start and its end. */
  lemma ShownSeats(hall: Hall, threads: nat, run: seq<State>, i: nat, t: nat)
    requires IsRun(hall, threads, run) && i < |run| && t < |run[i].pcs| && run[i].pcs[t].Done? &&
             run[i].pcs[t].req.Show?
    requires hall.Valid()
    ensures var log, pc := run[i].log, run[i].pcs[t];
            && pc.born <= pc.point < |log| && log[pc.point].outcome.Shown?
            && PrintsSeats(hall, log[..pc.point], log[pc.point].outcome.view)
  {
    ShownWhole(hall, threads, run, i, t);
    Linearizable(hall, threads, run, i);
    hide *;
    SequentialPrefix(hall, run[i].log, run[i].pcs[t].point);
    PrintedAfter(hall, run[i].log[..run[i].pcs[t].point]);
  }

  lemma {:induction false} NobodyCounted(pcs: seq<Pc>)
    requires forall t: nat :: t < |pcs| ==> !IsActive(pcs[t])
    ensures Attempts(pcs) == 0
  {
    if pcs != [] {
      NobodyCounted(pcs[..|pcs| - 1]);
    }
  }

  /** The reservation counter counts the successful reserves and those under way that have counted themselves. */
  lemma CounterExact(hall: Hall, threads: nat, run: seq<State>, i: nat)
    requires IsRun(hall, threads, run) && i < |run|
    ensures run[i].counter == Committed(run[i].log) + Attempts(run[i].pcs)
    ensures (forall t: nat :: t < |run[i].pcs| ==> !IsActive(run[i].pcs[t])) ==> run[i].counter == Committed(run[i].log)
  {
    RunKeeps(hall, threads, run, i);
    if forall t: nat :: t < |run[i].pcs| ==> !IsActive(run[i].pcs[t]) {
      NobodyCounted(run[i].pcs);
    }
  }

  // ---------- progress ----------

  /** A thread waits only for a seat above all those it holds. */
  lemma WaitsAbove(hall: Hall, pc: Pc, k: nat)
    requires PcOk(hall, pc) && Wants(hall, pc).Some?
    requires k in WriteHeld(hall, pc) || Reads(hall, pc, k)
    ensures k < Wants(hall, pc).value
  {
    if pc.Taking? {
      ElemsSeen(pc.idxs, pc.i);
      var j :| 0 <= j < pc.i && pc.idxs[..pc.i][j] == k;
      assert k != pc.idxs[pc.i];
    }
  }

  /** Some thread is waiting to write the seat. */
  ghost predicate WriterWaits(hall: Hall, s: State, k: nat) {
    exists t: nat :: t < |s.pcs| && s.pcs[t].Taking? && Wants(hall, s.pcs[t]) == Some(k)
  }

  /** The thread can move even if readers queue up behind waiting writers, as POSIX lets an implementation do. */
  ghost predicate CanMove(hall: Hall, s: State, t: nat)
    requires Bounded(hall, s) && t < |s.pcs|
  {
    && IsActive(s.pcs[t]) && MayTake(hall, s, t)
    && (s.pcs[t].Locking? && Wants(hall, s.pcs[t]).Some? ==> !WriterWaits(hall, s, Wants(hall, s.pcs[t]).value))
  }

  /** The thread in the way of one that cannot move: it holds, or waits to write, the wanted seat. */
  lemma InTheWay(hall: Hall, s: State, t: nat) returns (u: nat)
    requires Inv(hall, s) && t < |s.pcs| && Wants(hall, s.pcs[t]).Some? && !MayTake(hall, s, t)
    ensures u < |s.pcs| &&
            (Wants(hall, s.pcs[t]).value in WriteHeld(hall, s.pcs[u]) ||
             Reads(hall, s.pcs[u], Wants(hall, s.pcs[t]).value))
  {
    var k := Wants(hall, s.pcs[t]).value;
    assert k < hall.Size();
    assert LockOk(hall, s, k);
    if s.locks[k].writer.Some? {
      u := s.locks[k].writer.value;
    } else {
      var r :| r in s.locks[k].readers;
      u := r;
    }
  }

  /** No reachable state is stuck: while an operation is under way, some thread can move. */
  lemma {:induction false} SomeoneMoves(hall: Hall, s: State, t: nat) returns (u: nat)
    requires Inv(hall, s) && t < |s.pcs| && IsActive(s.pcs[t])
    ensures u < |s.pcs| && CanMove(hall, s, u)
    decreases if Wants(hall, s.pcs[t]).Some? then hall.Size() - Wants(hall, s.pcs[t]).value else 0,
              if s.pcs[t].Locking? then 1 else 0
  {
    if CanMove(hall, s, t) {
      u := t;
    } else if !MayTake(hall, s, t) {
      var w := InTheWay(hall, s, t);
      if Wants(hall, s.pcs[w]).Some? {
        WaitsAbove(hall, s.pcs[w], Wants(hall, s.pcs[t]).value);
        u := SomeoneMoves(hall, s, w);
      } else {
        u := w;
      }
    } else {
      var w: nat :| w < |s.pcs| && s.pcs[w].Taking? && Wants(hall, s.pcs[w]) == Wants(hall, s.pcs[t]);
      u := SomeoneMoves(hall, s, w);
    }
  }

  lemma DeadlockFree(hall: Hall, threads: nat, run: seq<State>, i: nat)
    requires IsRun(hall, threads, run) && i < |run|
    requires exists t: nat :: t < |run[i].pcs| && IsActive(run[i].pcs[t])
    ensures Bounded(hall, run[i]) && exists u: nat :: u < |run[i].pcs| && CanMove(hall, run[i], u)
  {
    RunKeeps(hall, threads, run, i);
    var t: nat :| t < |run[i].pcs| && IsActive(run[i].pcs[t]);
    var u := SomeoneMoves(hall, run[i], t);
  }

  /** An upper bound on the steps a thread has left in its operation. */
  function StepsLeft(hall: Hall, pc: Pc): int {
    match pc
    case Idle => 0
    case Done(_, _, _) => 0
    case Called(req, _) => 5 + if req.Show? then 3 * hall.Size() else 8 * |req.seats|
    case Converting(req, _, _) => 4 + if req.Show? then 0 else 8 * |req.seats|
    case Taking(_, _, _, idxs, i) => 3 + 2 * i + 5 * (|idxs| - i)
    case Testing(_, _, _, idxs, i) => 3 + 2 * i + 5 * (|idxs| - i) - 1
    case Writing(_, _, _, idxs, i) => 3 + 2 * i + 5 * (|idxs| - i) - 2
    case Giving(_, _, _, _, i, j, _, _) => 2 + 2 * (i - j)
    case Wiped(_, _, _, _, i, j, _) => 2 + 2 * (i - j) - 1
    case Undoing(_, _, _, _) => 1
    case Locking(_, _, view) => 2 + hall.Size() + 2 * (hall.Size() - |view|)
    case Reading(_, _, view) => 1 + hall.Size() + 2 * (hall.Size() - |view|)
    case Unlocking(_, _, _, j, _) => 1 + hall.Size() - j
  }

  /** A step moves one thread only. */
  lemma OthersStand(hall: Hall, s: State, t: nat)
    requires Bounded(hall, s) && t < |s.pcs| && IsActive(s.pcs[t]) && MayTake(hall, s, t)
    ensures Step(hall, s, t).pcs == s.pcs[t := Step(hall, s, t).pcs[t]]
  {
  }

  lemma ConversionRunsOut(hall: Hall, s: State, t: nat)
    requires Bounded(hall, s) && t < |s.pcs| && s.pcs[t].Converting? && Indices(hall, s.pcs[t].req.seats).Some?
    requires MayTake(hall, s, t)
    ensures 0 <= StepsLeft(hall, Step(hall, s, t).pcs[t]) < StepsLeft(hall, s.pcs[t])
  {
    SortKeeps(Indices(hall, s.pcs[t].req.seats).value);
  }

  /** Every operation ends after finitely many of its own steps. */
  lemma StepsRunOut(hall: Hall, s: State, t: nat)
    requires Bounded(hall, s) && t < |s.pcs| && IsActive(s.pcs[t]) && MayTake(hall, s, t)
    ensures t < |Step(hall, s, t).pcs| && 0 <= StepsLeft(hall, Step(hall, s, t).pcs[t]) < StepsLeft(hall, s.pcs[t])
  {
    if s.pcs[t].Converting? && Indices(hall, s.pcs[t].req.seats).Some? {
      ConversionRunsOut(hall, s, t);
    }
  }

  /** An upper bound on the steps that all threads together have left. */
  function TotalLeft(hall: Hall, pcs: seq<Pc>): int {
    if pcs == [] then 0 else TotalLeft(hall, pcs[..|pcs| - 1]) + StepsLeft(hall, pcs[|pcs| - 1])
  }

  lemma {:induction false} TotalMoved(hall: Hall, pcs: seq<Pc>, t: nat, pc: Pc)
    requires t < |pcs|
    ensures TotalLeft(hall, pcs[t := pc]) == TotalLeft(hall, pcs) - StepsLeft(hall, pcs[t]) + StepsLeft(hall, pc)
  {
    hide StepsLeft;
    var last := |pcs| - 1;
    if t == last {
      assert pcs[t := pc][..last] == pcs[..last];
    } else {
      TotalMoved(hall, pcs[..last], t, pc);
      assert pcs[t := pc][..last] == pcs[..last][t := pc];
    }
  }

  lemma {:induction false} TotalPositive(hall: Hall, pcs: seq<Pc>)
    requires forall t: nat :: t < |pcs| ==> PcBounded(hall, pcs[t])
    ensures TotalLeft(hall, pcs) >= 0
  {
    if pcs != [] {
      TotalPositive(hall, pcs[..|pcs| - 1]);
      assert PcBounded(hall, pcs[|pcs| - 1]);
    }
  }

  ghost predicate WorksOf(hall: Hall, s: State, s': State, t: nat) {
    Bounded(hall, s) && t < |s.pcs| && IsActive(s.pcs[t]) && MayTake(hall, s, t) && s' == Step(hall, s, t)
  }

  /** An operation under way goes on; nobody calls a new one. */
  ghost predicate SomeoneWorks(hall: Hall, s: State, s': State) {
    exists t: nat :: WorksOf(hall, s, s', t)
  }

  ghost predicate Works(hall: Hall, run: seq<State>, k: nat)
    requires k + 1 < |run|
  {
    SomeoneWorks(hall, run[k], run[k + 1])
  }

  lemma WorkRunsOut(hall: Hall, s: State, s': State, t: nat)
    requires WorksOf(hall, s, s', t)
    ensures TotalLeft(hall, s'.pcs) < TotalLeft(hall, s.pcs)
  {
    OthersStand(hall, s, t);
    StepsRunOut(hall, s, t);
    hide Step, StepsLeft, Bounded, MayTake, TotalLeft;
    TotalMoved(hall, s.pcs, t, s'.pcs[t]);
  }

  lemma SomeWorkRunsOut(hall: Hall, s: State, s': State)
    requires SomeoneWorks(hall, s, s')
    ensures TotalLeft(hall, s'.pcs) < TotalLeft(hall, s.pcs)
  {
    hide WorksOf, TotalLeft;
    var t: nat :| WorksOf(hall, s, s', t);
    WorkRunsOut(hall, s, s', t);
  }

  lemma {:induction false} StepsTaken(hall: Hall, run: seq<State>, i: nat, j: nat)
    requires i <= j < |run| && forall k: nat :: i <= k < j ==> Works(hall, run, k)
    ensures j - i <= TotalLeft(hall, run[i].pcs) - TotalLeft(hall, run[j].pcs)
    decreases j
  {
    if i < j {
      hide SomeoneWorks, TotalLeft;
      StepsTaken(hall, run, i, j - 1);
      assert Works(hall, run, j - 1);
      SomeWorkRunsOut(hall, run[j - 1], run[j]);
    }
  }

  /** Without new calls a run ends within the steps left, and when nobody can move any more no operation is
      under way. */
  lemma RunsEnd(hall: Hall, threads: nat, run: seq<State>, i: nat, j: nat)
    requires IsRun(hall, threads, run) && i <= j < |run| && forall k: nat :: i <= k < j ==> Works(hall, run, k)
    ensures j - i <= TotalLeft(hall, run[i].pcs)
    ensures Bounded(hall, run[j])
    ensures (forall t: nat :: t < |run[j].pcs| ==> !CanMove(hall, run[j], t)) ==>
              forall t: nat :: t < |run[j].pcs| ==> !IsActive(run[j].pcs[t])
  {
    StepsTaken(hall, run, i, j);
    RunKeeps(hall, threads, run, j);
    TotalPositive(hall, run[j].pcs);
    if exists t: nat :: t < |run[j].pcs| && IsActive(run[j].pcs[t]) {
      DeadlockFree(hall, threads, run, j);
    }
  }
}
