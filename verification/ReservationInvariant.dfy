/** What every step of the reserving and showing threads keeps. */
module ReservationInvariant {
  import opened Wrappers
  import opened Locks
  import opened Seats
  import opened Reservation

  // ---------- the history, one operation at a time ----------

  /** The seats after a reservation alone: its seats carry the id. */
  function Seated(abs: seq<int>, idxs: seq<nat>, id: int): (r: seq<int>)
    ensures |r| == |abs| && forall k :: 0 <= k < |abs| ==> r[k] == if k in idxs then id else abs[k]
  {
    seq(|abs|, k requires 0 <= k < |abs| => if k in idxs then id else abs[k])
  }

  /** The seats after the recorded operations, run one at a time. */
  function After(hall: Hall, log: seq<Entry>): (abs: seq<int>)
    ensures |abs| == hall.Size()
  {
    if log == [] then Zeros(hall.Size()) else
      var e, abs := log[|log| - 1], After(hall, log[..|log| - 1]);
      if e.outcome.Reserved? && e.req.Reserve? && Indices(hall, e.req.seats).Some?
      then Seated(abs, Sort(Indices(hall, e.req.seats).value), e.outcome.id) else abs
  }

  /** What the operation answers when it runs alone on the given seats. */
  ghost predicate Answers(hall: Hall, abs: seq<int>, req: Request, outcome: Outcome)
    requires |abs| == hall.Size()
  {
    match req
    case Show => outcome == Shown(abs)
    case Reserve(seats) =>
      var idxs := Indices(hall, seats);
      match outcome
      case Shown(_) => false
      case BadSeat => idxs.None?
      case Refused(k) => idxs.Some? && k in idxs.value && abs[k] != 0
      case Reserved(id) => idxs.Some? && id > 0 && forall k :: k in idxs.value ==> abs[k] == 0
  }

  /** Every recorded outcome is the one its operation gives when the history is run one operation at a time. */
  ghost predicate Sequential(hall: Hall, log: seq<Entry>) {
    forall n :: 0 <= n < |log| ==> Answers(hall, After(hall, log[..n]), log[n].req, log[n].outcome)
  }

  lemma Recorded(hall: Hall, log: seq<Entry>, e: Entry)
    requires Sequential(hall, log) && Answers(hall, After(hall, log), e.req, e.outcome)
    ensures Sequential(hall, log + [e])
    ensures After(hall, log + [e]) ==
              if e.outcome.Reserved?
              then Seated(After(hall, log), Sort(Indices(hall, e.req.seats).value), e.outcome.id)
              else After(hall, log)
  {
    var log' := log + [e];
    assert log'[..|log|] == log;
    forall n | 0 <= n < |log'|
      ensures Answers(hall, After(hall, log'[..n]), log'[n].req, log'[n].outcome)
    {
      if n < |log| {
        assert log'[..n] == log[..n];
      }
    }
  }

  // ---------- what a thread holds and has written ----------

  function Elems(idxs: seq<nat>, n: nat): set<nat>
    requires n <= |idxs|
  {
    set k | k in idxs[..n]
  }

  function WriteHeld(hall: Hall, pc: Pc): set<nat>
    requires PcBounded(hall, pc)
  {
    match pc
    case Taking(_, _, _, idxs, i) => Elems(idxs, i)
    case Testing(_, _, _, idxs, i) => Elems(idxs, i + 1)
    case Writing(_, _, _, idxs, i) => Elems(idxs, i + 1)
    case Giving(_, _, _, idxs, i, j, _, _) => Elems(idxs, i) - Elems(idxs, j)
    case Wiped(_, _, _, idxs, i, j, _) => Elems(idxs, i) - Elems(idxs, j)
    case _ => {}
  }

  function Written(hall: Hall, pc: Pc): set<nat>
    requires PcBounded(hall, pc)
  {
    match pc
    case Taking(_, _, _, idxs, i) => Elems(idxs, i)
    case Testing(_, _, _, idxs, i) => Elems(idxs, i)
    case Writing(_, _, _, idxs, i) => Elems(idxs, i)
    case Giving(_, _, _, idxs, i, j, failed, _) => if failed then Elems(idxs, i) - Elems(idxs, j) else {}
    case Wiped(_, _, _, idxs, i, j, _) => Elems(idxs, i) - Elems(idxs, j + 1)
    case _ => {}
  }

  predicate Reads(hall: Hall, pc: Pc, k: nat) {
    match pc
    case Locking(_, _, view) => k < |view|
    case Reading(_, _, view) => k <= |view|
    case Unlocking(_, _, _, j, _) => j <= k < hall.Size()
    case _ => false
  }

  ghost predicate SameReads(hall: Hall, pc: Pc, pc': Pc) {
    forall k: nat :: k < hall.Size() ==> (Reads(hall, pc', k) <==> Reads(hall, pc, k))
  }

  ghost predicate SortedOf(hall: Hall, req: Request, idxs: seq<nat>) {
    && req.Reserve? && IsSorted(idxs) && Indices(hall, req.seats).Some?
    && idxs == Sort(Indices(hall, req.seats).value)
  }

  ghost predicate PcOk(hall: Hall, pc: Pc) {
    && PcBounded(hall, pc)
    && match pc
       case Converting(req, _, id) => id > 0
       case Taking(req, _, id, idxs, _) => id > 0 && SortedOf(hall, req, idxs)
       case Testing(req, _, id, idxs, i) => id > 0 && SortedOf(hall, req, idxs) && !Duplicate(idxs, i)
       case Writing(req, _, id, idxs, i) => id > 0 && SortedOf(hall, req, idxs) && !Duplicate(idxs, i)
       case Giving(req, _, id, idxs, _, _, _, _) => id > 0 && SortedOf(hall, req, idxs)
       case Wiped(req, _, id, idxs, _, j, _) => id > 0 && SortedOf(hall, req, idxs) && !Duplicate(idxs, j)
       case Locking(req, _, _) => req.Show?
       case Reading(req, _, _) => req.Show?
       case _ => true
  }

  // ---------- locks ----------

  ghost predicate LockOk(hall: Hall, s: State, k: nat)
    requires Bounded(hall, s) && k < hall.Size()
  {
    var lock := s.locks[k];
    && (forall t: nat :: t < |s.pcs| ==> (lock.writer == Some(t) <==> k in WriteHeld(hall, s.pcs[t])))
    && (forall t: nat :: t < |s.pcs| ==> (t in lock.readers <==> Reads(hall, s.pcs[t], k)))
    && (lock.writer.Some? ==> lock.readers == {} && lock.writer.value < |s.pcs|)
    && (forall t :: t in lock.readers ==> t < |s.pcs|)
  }

  /** The locks say exactly which threads hold which seats, and a writer excludes everyone else. */
  ghost predicate LocksOk(hall: Hall, s: State)
    requires Bounded(hall, s)
  {
    forall k: nat :: k < hall.Size() ==> LockOk(hall, s, k)
  }

  // ---------- seats ----------

  ghost predicate InFlight(hall: Hall, s: State, k: nat)
    requires Bounded(hall, s) && k < hall.Size()
  {
    var w := s.locks[k].writer;
    w.Some? && w.value < |s.pcs| && k in Written(hall, s.pcs[w.value])
  }

  function IdOf(pc: Pc): int {
    if pc.Converting? || pc.Taking? || pc.Testing? || pc.Writing? || pc.Giving? || pc.Wiped? || pc.Undoing? then pc.id
    else 0
  }

  /** A seat holds what the history says, or, while free there, the id of the one reservation under way on it. */
  ghost predicate SeatOk(hall: Hall, s: State, k: nat)
    requires Bounded(hall, s) && k < hall.Size()
  {
    if InFlight(hall, s, k) then s.data[k] == IdOf(s.pcs[s.locks[k].writer.value]) && After(hall, s.log)[k] == 0
    else s.data[k] == After(hall, s.log)[k]
  }

  ghost predicate SeatsOk(hall: Hall, s: State)
    requires Bounded(hall, s)
  {
    forall k: nat :: k < hall.Size() ==> SeatOk(hall, s, k)
  }

  ghost predicate ViewOk(s: State, pc: Pc) {
    match pc
    case Locking(_, _, view) => |view| <= |s.data| && forall k :: 0 <= k < |view| ==> view[k] == s.data[k]
    case Reading(_, _, view) => |view| <= |s.data| && forall k :: 0 <= k < |view| ==> view[k] == s.data[k]
    case Writing(_, _, _, idxs, i) => i < |idxs| && idxs[i] < |s.data| && s.data[idxs[i]] == 0
    case _ => true
  }

  // ---------- each call and its entry in the history ----------

  ghost predicate AnsweredAt(log: seq<Entry>, t: nat, req: Request, born: nat, point: nat) {
    && born <= point < |log| && log[point].thread == t && log[point].req == req
    && forall n :: born <= n < |log| && log[n].thread == t ==> n == point
  }

  ghost predicate NotYet(log: seq<Entry>, t: nat, born: nat) {
    born <= |log| && forall n :: born <= n < |log| ==> log[n].thread != t
  }

  /** Each call is recorded once, between its start and its end, with the outcome the thread acts on. */
  ghost predicate CallOk(log: seq<Entry>, t: nat, pc: Pc) {
    match pc
    case Idle => true
    case Giving(req, born, id, _, _, _, failed, point) =>
      && AnsweredAt(log, t, req, born, point)
      && (if failed then log[point].outcome.Refused? else log[point].outcome == Reserved(id))
    case Wiped(req, born, _, _, _, _, point) => AnsweredAt(log, t, req, born, point) && log[point].outcome.Refused?
    case Undoing(req, born, _, point) =>
      AnsweredAt(log, t, req, born, point) && (log[point].outcome.Refused? || log[point].outcome.BadSeat?)
    case Unlocking(req, born, view, _, point) =>
      AnsweredAt(log, t, req, born, point) && log[point].outcome == Shown(view)
    case Done(req, born, point) => AnsweredAt(log, t, req, born, point)
    case _ => NotYet(log, t, pc.born)
  }

  // ---------- the counter ----------

  /** The thread has counted itself, and is neither recorded as successful nor has it taken itself off again. */
  predicate Attempting(pc: Pc) {
    pc.Converting? || pc.Taking? || pc.Testing? || pc.Writing? || (pc.Giving? && pc.failed) || pc.Wiped? || pc.Undoing?
  }

  function Attempts(pcs: seq<Pc>): nat {
    if pcs == [] then 0 else (if Attempting(pcs[|pcs| - 1]) then 1 else 0) + Attempts(pcs[..|pcs| - 1])
  }

  function Committed(log: seq<Entry>): nat {
    if log == [] then 0 else (if log[|log| - 1].outcome.Reserved? then 1 else 0) + Committed(log[..|log| - 1])
  }

  ghost predicate Inv(hall: Hall, s: State) {
    && Bounded(hall, s)
    && (forall t: nat :: t < |s.pcs| ==> PcOk(hall, s.pcs[t]) && ViewOk(s, s.pcs[t]) && CallOk(s.log, t, s.pcs[t]))
    && LocksOk(hall, s) && SeatsOk(hall, s)
    && Sequential(hall, s.log)
    && s.counter == Committed(s.log) + Attempts(s.pcs)
  }

  // ---------- changing one thread ----------

  ghost predicate Moves(hall: Hall, s: State, s': State, t: nat, pc: Pc) {
    && Bounded(hall, s) && t < |s.pcs| && PcBounded(hall, pc)
    && s'.pcs == s.pcs[t := pc] && |s'.data| == |s.data| && |s'.locks| == |s.locks|
  }

  lemma KeepLocks(hall: Hall, s: State, s': State, t: nat, pc: Pc)
    requires Moves(hall, s, s', t, pc) && LocksOk(hall, s) && s'.locks == s.locks
    requires WriteHeld(hall, pc) == WriteHeld(hall, s.pcs[t]) && SameReads(hall, s.pcs[t], pc)
    ensures Bounded(hall, s') && LocksOk(hall, s')
  {
    forall k: nat | k < hall.Size()
      ensures LockOk(hall, s', k)
    {
      assert LockOk(hall, s, k);
    }
  }

  lemma TakeLock(hall: Hall, s: State, s': State, t: nat, pc: Pc, x: nat)
    requires Moves(hall, s, s', t, pc) && LocksOk(hall, s) && x < hall.Size()
    requires FreeToWrite(s.locks[x]) && s'.locks == s.locks[x := WriteLock(s.locks[x], t)]
    requires WriteHeld(hall, pc) == WriteHeld(hall, s.pcs[t]) + {x} && SameReads(hall, s.pcs[t], pc)
    ensures Bounded(hall, s') && LocksOk(hall, s')
  {
    forall k: nat | k < hall.Size()
      ensures LockOk(hall, s', k)
    {
      assert LockOk(hall, s, k);
    }
  }

  lemma GiveLock(hall: Hall, s: State, s': State, t: nat, pc: Pc, x: nat)
    requires Moves(hall, s, s', t, pc) && LocksOk(hall, s) && x < hall.Size() && x in WriteHeld(hall, s.pcs[t])
    requires s'.locks == s.locks[x := WriteUnlock(s.locks[x])]
    requires WriteHeld(hall, pc) == WriteHeld(hall, s.pcs[t]) - {x} && SameReads(hall, s.pcs[t], pc)
    ensures Bounded(hall, s') && LocksOk(hall, s')
  {
    forall k: nat | k < hall.Size()
      ensures LockOk(hall, s', k)
    {
      assert LockOk(hall, s, k);
    }
  }

  lemma TakeShared(hall: Hall, s: State, s': State, t: nat, pc: Pc, x: nat)
    requires Moves(hall, s, s', t, pc) && LocksOk(hall, s) && x < hall.Size()
    requires s.locks[x].writer.None? && s'.locks == s.locks[x := ReadLock(s.locks[x], t)]
    requires (forall k: nat :: k < hall.Size() ==> (Reads(hall, pc, k) <==> Reads(hall, s.pcs[t], k) || k == x)) &&
             WriteHeld(hall, pc) == WriteHeld(hall, s.pcs[t])
    ensures Bounded(hall, s') && LocksOk(hall, s')
  {
    forall k: nat | k < hall.Size()
      ensures LockOk(hall, s', k)
    {
      assert LockOk(hall, s, k);
    }
  }

  lemma GiveShared(hall: Hall, s: State, s': State, t: nat, pc: Pc, x: nat)
    requires Moves(hall, s, s', t, pc) && LocksOk(hall, s) && x < hall.Size()
    requires s'.locks == s.locks[x := ReadUnlock(s.locks[x], t)]
    requires (forall k: nat :: k < hall.Size() ==> (Reads(hall, pc, k) <==> Reads(hall, s.pcs[t], k) && k != x)) &&
             WriteHeld(hall, pc) == WriteHeld(hall, s.pcs[t])
    ensures Bounded(hall, s') && LocksOk(hall, s')
  {
    forall k: nat | k < hall.Size()
      ensures LockOk(hall, s', k)
    {
      assert LockOk(hall, s, k);
    }
  }

  // ---------- seats ----------

  /** What a thread has written it still holds. */
  lemma WrittenHeld(hall: Hall, pc: Pc)
    requires PcBounded(hall, pc)
    ensures Written(hall, pc) <= WriteHeld(hall, pc)
  {
  }

  lemma WriterInFlight(hall: Hall, s: State, k: nat, u: nat)
    requires Bounded(hall, s) && LocksOk(hall, s) && k < hall.Size() && u < |s.pcs|
    ensures k in Written(hall, s.pcs[u]) <==> InFlight(hall, s, k) && s.locks[k].writer == Some(u)
  {
    WrittenHeld(hall, s.pcs[u]);
    assert LockOk(hall, s, k);
  }

  /** A step that writes no seat and records nothing that seats anyone. */
  lemma KeepSeats(hall: Hall, s: State, s': State, t: nat, pc: Pc)
    requires Moves(hall, s, s', t, pc) && LocksOk(hall, s) && SeatsOk(hall, s)
    requires Bounded(hall, s') && LocksOk(hall, s') && s'.data == s.data && After(hall, s'.log) == After(hall, s.log)
    requires Written(hall, pc) == Written(hall, s.pcs[t]) && (Written(hall, pc) == {} || IdOf(pc) == IdOf(s.pcs[t]))
    ensures SeatsOk(hall, s')
  {
    forall k: nat | k < hall.Size()
      ensures SeatOk(hall, s', k)
    {
      assert SeatOk(hall, s, k);
      if InFlight(hall, s, k) {
        WriterInFlight(hall, s, k, s.locks[k].writer.value);
        WriterInFlight(hall, s', k, s.locks[k].writer.value);
      }
      if InFlight(hall, s', k) {
        WriterInFlight(hall, s', k, s'.locks[k].writer.value);
        WriterInFlight(hall, s, k, s'.locks[k].writer.value);
      }
    }
  }

  /** The thread that holds a free seat writes its id there, or the one that wrote it clears it again. */
  lemma WriteSeat(hall: Hall, s: State, s': State, t: nat, pc: Pc, x: nat, v: int)
    requires Moves(hall, s, s', t, pc) && LocksOk(hall, s) && SeatsOk(hall, s) && x < hall.Size()
    requires Bounded(hall, s') && LocksOk(hall, s') && s'.data == s.data[x := v] &&
             After(hall, s'.log) == After(hall, s.log)
    requires x in WriteHeld(hall, s.pcs[t]) && IdOf(pc) == IdOf(s.pcs[t]) && After(hall, s.log)[x] == 0
    requires s'.locks == s.locks
    requires || (v == IdOf(pc) && Written(hall, pc) == Written(hall, s.pcs[t]) + {x})
             || (v == 0 && Written(hall, pc) == Written(hall, s.pcs[t]) - {x})
    ensures SeatsOk(hall, s')
  {
    forall k: nat | k < hall.Size()
      ensures SeatOk(hall, s', k)
    {
      assert SeatOk(hall, s, k) && LockOk(hall, s, k);
    }
  }

  /** The reservation under way on some seats becomes part of the history. */
  lemma CommitSeats(hall: Hall, s: State, s': State, t: nat, pc: Pc, idxs: seq<nat>)
    requires Moves(hall, s, s', t, pc) && LocksOk(hall, s) && SeatsOk(hall, s)
    requires Bounded(hall, s') && s'.locks == s.locks && s'.data == s.data
    requires After(hall, s'.log) == Seated(After(hall, s.log), idxs, IdOf(s.pcs[t]))
    requires Written(hall, pc) == {} && (forall k :: k in Written(hall, s.pcs[t]) <==> k in idxs)
    ensures SeatsOk(hall, s')
  {
    forall k: nat | k < hall.Size()
      ensures SeatOk(hall, s', k)
    {
      assert SeatOk(hall, s, k);
      WriterInFlight(hall, s, k, t);
    }
  }

  // ---------- the other threads ----------

  lemma ElemsNext(idxs: seq<nat>, i: nat)
    requires i < |idxs|
    ensures Elems(idxs, i + 1) == Elems(idxs, i) + {idxs[i]}
  {
    assert idxs[..i + 1] == idxs[..i] + [idxs[i]];
  }

  /** What another thread has seen cannot be overwritten under it. */
  lemma OtherView(hall: Hall, s: State, s': State, t: nat, u: nat, x: nat)
    requires Bounded(hall, s) && LocksOk(hall, s) && t < |s.pcs| && u < |s.pcs| && u != t && x < hall.Size()
    requires x in WriteHeld(hall, s.pcs[t]) && PcOk(hall, s.pcs[u]) && ViewOk(s, s.pcs[u])
    requires |s'.data| == |s.data| && forall k :: 0 <= k < |s.data| && k != x ==> s'.data[k] == s.data[k]
    ensures ViewOk(s', s.pcs[u])
  {
    assert LockOk(hall, s, x);
    assert !Reads(hall, s.pcs[u], x) && x !in WriteHeld(hall, s.pcs[u]);
    if s.pcs[u].Writing? {
      ElemsNext(s.pcs[u].idxs, s.pcs[u].i);
    }
  }

  lemma OtherCall(log: seq<Entry>, e: Entry, u: nat, pc: Pc)
    requires CallOk(log, u, pc) && e.thread != u
    ensures CallOk(log + [e], u, pc)
  {
  }

  // ---------- the counter ----------

  lemma {:induction false} AttemptsMoved(pcs: seq<Pc>, t: nat, pc: Pc)
    requires t < |pcs|
    ensures Attempts(pcs[t := pc]) ==
              Attempts(pcs) - (if Attempting(pcs[t]) then 1 else 0) + (if Attempting(pc) then 1 else 0)
  {
    var n := |pcs| - 1;
    if t == n {
      assert pcs[t := pc][..n] == pcs[..n];
    } else {
      AttemptsMoved(pcs[..n], t, pc);
      assert pcs[t := pc][..n] == pcs[..n][t := pc];
    }
  }

  lemma CommittedNext(log: seq<Entry>, e: Entry)
    ensures Committed(log + [e]) == Committed(log) + if e.outcome.Reserved? then 1 else 0
  {
    assert (log + [e])[..|log|] == log;
  }

  // ---------- the seats of a request, in order ----------

  lemma ElemsSeen(idxs: seq<nat>, i: nat)
    requires i < |idxs| && IsSorted(idxs)
    ensures Duplicate(idxs, i) <==> idxs[i] in Elems(idxs, i)
  {
    if Duplicate(idxs, i) {
      assert idxs[..i][i - 1] == idxs[i];
    }
  }

  lemma ElemsWithin(idxs: seq<nat>, i: nat, j: nat)
    requires j <= i <= |idxs|
    ensures Elems(idxs, j) <= Elems(idxs, i)
  {
    forall x | x in idxs[..j]
      ensures x in idxs[..i]
    {
      var k :| 0 <= k < j && idxs[..j][k] == x;
      assert idxs[..i][k] == x;
    }
  }

  lemma ElemsNone(idxs: seq<nat>)
    ensures Elems(idxs, 0) == {}
  {
  }

  lemma SeatAt(hall: Hall, s: State, k: nat)
    requires Bounded(hall, s) && SeatsOk(hall, s) && k < hall.Size()
    ensures SeatOk(hall, s, k)
  {
  }

  lemma ElemsAll(idxs: seq<nat>)
    ensures forall k :: k in Elems(idxs, |idxs|) <==> k in idxs
  {
    assert idxs[..|idxs|] == idxs;
  }

  // ---------- each step keeps the invariant ----------

  ghost predicate Mine(hall: Hall, s: State, t: nat, pc: Pc) {
    && Bounded(hall, s) && t < |s.pcs| && s.pcs[t] == pc
    && PcOk(hall, pc) && ViewOk(s, pc) && CallOk(s.log, t, pc)
  }

  ghost predicate Appends(log: seq<Entry>, log': seq<Entry>, t: nat) {
    log' == log || exists e: Entry :: e.thread == t && log' == log + [e]
  }

  ghost predicate OnlyAt(data: seq<int>, data': seq<int>, x: nat) {
    |data'| == |data| && forall k :: 0 <= k < |data| && k != x ==> data'[k] == data[k]
  }

  ghost predicate DataKept(hall: Hall, s: State, s': State, t: nat)
    requires Bounded(hall, s) && t < |s.pcs|
  {
    s'.data == s.data ||
      exists x: nat :: x in WriteHeld(hall, s.pcs[t]) && x < hall.Size() && OnlyAt(s.data, s'.data, x)
  }

  /** The other threads do not notice a step that writes at most a seat it holds and records at most itself. */
  lemma Together(hall: Hall, s: State, s': State, t: nat, pc: Pc)
    requires Inv(hall, s) && Moves(hall, s, s', t, pc) && Mine(hall, s', t, pc)
    requires LocksOk(hall, s') && SeatsOk(hall, s') && Sequential(hall, s'.log)
    requires s'.counter == Committed(s'.log) + Attempts(s'.pcs)
    requires Appends(s.log, s'.log, t) && DataKept(hall, s, s', t)
    ensures Inv(hall, s')
  {
    forall u: nat | u < |s'.pcs|
      ensures PcOk(hall, s'.pcs[u]) && ViewOk(s', s'.pcs[u]) && CallOk(s'.log, u, s'.pcs[u])
    {
      if u != t {
        if s'.data != s.data {
          var x: nat :| x in WriteHeld(hall, s.pcs[t]) && x < hall.Size() && OnlyAt(s.data, s'.data, x);
          OtherView(hall, s, s', t, u, x);
        }
        if s'.log != s.log {
          var e: Entry :| e.thread == t && s'.log == s.log + [e];
          OtherCall(s.log, e, u, s.pcs[u]);
        }
      }
    }
  }

  /** A step that touches neither locks nor seats nor history. */
  lemma Quiet(hall: Hall, s: State, s': State, t: nat, pc: Pc)
    requires Inv(hall, s) && t < |s.pcs| && PcOk(hall, pc) && ViewOk(s, pc) && CallOk(s.log, t, pc)
    requires s' == Set(s, t, pc).(counter := s'.counter)
    requires WriteHeld(hall, pc) == WriteHeld(hall, s.pcs[t]) && SameReads(hall, s.pcs[t], pc)
    requires Written(hall, pc) == Written(hall, s.pcs[t]) && (Written(hall, pc) == {} || IdOf(pc) == IdOf(s.pcs[t]))
    requires s'.counter == s.counter - (if Attempting(s.pcs[t]) then 1 else 0) + (if Attempting(pc) then 1 else 0)
    ensures Inv(hall, s')
  {
    KeepLocks(hall, s, s', t, pc);
    KeepSeats(hall, s, s', t, pc);
    AttemptsMoved(s.pcs, t, pc);
    Together(hall, s, s', t, pc);
  }

  lemma CallKeeps(hall: Hall, s: State, t: nat, req: Request)
    requires Inv(hall, s) && t < |s.pcs| && !IsActive(s.pcs[t])
    ensures Inv(hall, Call(s, t, req))
  {
    Quiet(hall, s, Call(s, t, req), t, Called(req, |s.log|));
  }

  lemma CountsPositive(s: State)
    requires s.counter == Committed(s.log) + Attempts(s.pcs)
    ensures s.counter >= 0
  {
  }

  lemma StepCalled(hall: Hall, s: State, t: nat)
    requires Inv(hall, s) && t < |s.pcs| && s.pcs[t].Called? && MayTake(hall, s, t)
    ensures Inv(hall, Step(hall, s, t))
  {
    CountsPositive(s);
    Quiet(hall, s, Step(hall, s, t), t, Step(hall, s, t).pcs[t]);
  }

  lemma SortedInHall(hall: Hall, idxs: seq<nat>)
    requires InHall(hall, idxs)
    ensures InHall(hall, Sort(idxs))
  {
    SortKeeps(idxs);
    forall k | 0 <= k < |Sort(idxs)|
      ensures Sort(idxs)[k] < hall.Size()
    {
      assert Sort(idxs)[k] in idxs;
    }
  }

  lemma StepSort(hall: Hall, s: State, t: nat, idxs: seq<nat>)
    requires Inv(hall, s) && t < |s.pcs| && s.pcs[t].Converting? && InHall(hall, idxs) &&
             SortedOf(hall, s.pcs[t].req, idxs)
    ensures Inv(hall, Set(s, t, Taking(s.pcs[t].req, s.pcs[t].born, s.pcs[t].id, idxs, 0)))
  {
    hide LocksOk, SeatsOk, Sequential, Committed, Attempts, After, Seated, SortedOf;
    var pc := Taking(s.pcs[t].req, s.pcs[t].born, s.pcs[t].id, idxs, 0);
    ElemsNone(idxs);
    Quiet(hall, s, Set(s, t, pc), t, pc);
  }

  lemma StepConverting(hall: Hall, s: State, t: nat)
    requires Inv(hall, s) && t < |s.pcs| && s.pcs[t].Converting? && MayTake(hall, s, t)
    ensures Inv(hall, Step(hall, s, t))
  {
    hide LocksOk, SeatsOk, Sequential, Committed, Attempts, After, Seated, IsSorted;
    var pc, s' := s.pcs[t], Step(hall, s, t);
    if Indices(hall, pc.req.seats).Some? {
      var idxs := Indices(hall, pc.req.seats).value;
      SortedInHall(hall, idxs);
      StepSort(hall, s, t, Sort(idxs));
    } else {
      var e := Entry(t, pc.req, BadSeat);
      Recorded(hall, s.log, e);
      CommittedNext(s.log, e);
      KeepLocks(hall, s, s', t, s'.pcs[t]);
      KeepSeats(hall, s, s', t, s'.pcs[t]);
      AttemptsMoved(s.pcs, t, s'.pcs[t]);
      Together(hall, s, s', t, s'.pcs[t]);
    }
  }

  /** All seats are held and free in the history: the reservation takes effect here. */
  lemma StepCommit(hall: Hall, s: State, t: nat)
    requires Inv(hall, s) && t < |s.pcs| && s.pcs[t].Taking? && s.pcs[t].i == |s.pcs[t].idxs| && MayTake(hall, s, t)
    ensures Inv(hall, Step(hall, s, t))
  {
    hide LocksOk, SeatsOk, Sequential, Committed, Attempts, After, Sort, Indices, Seated, IsSorted;
    var pc, s' := s.pcs[t], Step(hall, s, t);
    var e := Entry(t, pc.req, Reserved(pc.id));
    ElemsAll(pc.idxs);
    SortKeeps(Indices(hall, pc.req.seats).value);
    forall k | k in Indices(hall, pc.req.seats).value
      ensures After(hall, s.log)[k] == 0
    {
      WriterInFlight(hall, s, k, t);
      SeatAt(hall, s, k);
    }
    ElemsNone(pc.idxs);
    Recorded(hall, s.log, e);
    CommittedNext(s.log, e);
    KeepLocks(hall, s, s', t, s'.pcs[t]);
    CommitSeats(hall, s, s', t, s'.pcs[t], pc.idxs);
    AttemptsMoved(s.pcs, t, s'.pcs[t]);
    Together(hall, s, s', t, s'.pcs[t]);
  }

  lemma StepAcquire(hall: Hall, s: State, t: nat)
    requires Inv(hall, s) && t < |s.pcs| && s.pcs[t].Taking? && s.pcs[t].i < |s.pcs[t].idxs|
    requires !Duplicate(s.pcs[t].idxs, s.pcs[t].i) && MayTake(hall, s, t)
    ensures Inv(hall, Step(hall, s, t))
  {
    hide LocksOk, SeatsOk, Sequential, Committed, Attempts, After, Sort, Indices, Seated, IsSorted;
    var pc, s' := s.pcs[t], Step(hall, s, t);
    ElemsNext(pc.idxs, pc.i);
    TakeLock(hall, s, s', t, s'.pcs[t], pc.idxs[pc.i]);
    KeepSeats(hall, s, s', t, s'.pcs[t]);
    AttemptsMoved(s.pcs, t, s'.pcs[t]);
    Together(hall, s, s', t, s'.pcs[t]);
  }

  lemma StepTaking(hall: Hall, s: State, t: nat)
    requires Inv(hall, s) && t < |s.pcs| && s.pcs[t].Taking? && MayTake(hall, s, t)
    ensures Inv(hall, Step(hall, s, t))
  {
    hide LocksOk, SeatsOk, Sequential, Committed, Attempts, After, Sort, Indices, Seated, IsSorted;
    var pc := s.pcs[t];
    if pc.i == |pc.idxs| {
      StepCommit(hall, s, t);
    } else if Duplicate(pc.idxs, pc.i) {
      ElemsSeen(pc.idxs, pc.i);
      ElemsNext(pc.idxs, pc.i);
      Quiet(hall, s, Step(hall, s, t), t, Step(hall, s, t).pcs[t]);
    } else {
      StepAcquire(hall, s, t);
    }
  }

  /** A seat that the thread holds and has not written is as the history says. */
  lemma HeldSeat(hall: Hall, s: State, t: nat, x: nat)
    requires Bounded(hall, s) && LocksOk(hall, s) && SeatsOk(hall, s) && t < |s.pcs| && x < hall.Size()
    requires x in WriteHeld(hall, s.pcs[t]) || Reads(hall, s.pcs[t], x)
    requires x !in Written(hall, s.pcs[t])
    ensures s.data[x] == After(hall, s.log)[x]
  {
    assert LockOk(hall, s, x) && SeatOk(hall, s, x);
  }

  lemma StepTesting(hall: Hall, s: State, t: nat)
    requires Inv(hall, s) && t < |s.pcs| && s.pcs[t].Testing? && MayTake(hall, s, t)
    ensures Inv(hall, Step(hall, s, t))
  {
    hide LocksOk, SeatsOk, Sequential, Committed, Attempts, After, Sort, Indices, Seated, IsSorted;
    var pc, s' := s.pcs[t], Step(hall, s, t);
    var x := pc.idxs[pc.i];
    ElemsNext(pc.idxs, pc.i);
    ElemsSeen(pc.idxs, pc.i);
    ElemsNone(pc.idxs);
    if s.data[x] == 0 {
      Quiet(hall, s, s', t, s'.pcs[t]);
    } else {
      HeldSeat(hall, s, t, x);
      SortKeeps(Indices(hall, pc.req.seats).value);
      var e := Entry(t, pc.req, Refused(x));
      Recorded(hall, s.log, e);
      CommittedNext(s.log, e);
      assert Elems(pc.idxs, pc.i) - Elems(pc.idxs, 0) == Elems(pc.idxs, pc.i + 1) - {x};
      assert WriteHeld(hall, s'.pcs[t]) == Elems(pc.idxs, pc.i) - Elems(pc.idxs, 0);
      GiveLock(hall, s, s', t, s'.pcs[t], x);
      KeepSeats(hall, s, s', t, s'.pcs[t]);
      AttemptsMoved(s.pcs, t, s'.pcs[t]);
      Together(hall, s, s', t, s'.pcs[t]);
    }
  }

  lemma StepWriting(hall: Hall, s: State, t: nat)
    requires Inv(hall, s) && t < |s.pcs| && s.pcs[t].Writing? && MayTake(hall, s, t)
    ensures Inv(hall, Step(hall, s, t))
  {
    hide LocksOk, SeatsOk, Sequential, Committed, Attempts, After, Sort, Indices, Seated, IsSorted;
    var pc, s' := s.pcs[t], Step(hall, s, t);
    var x := pc.idxs[pc.i];
    ElemsNext(pc.idxs, pc.i);
    ElemsSeen(pc.idxs, pc.i);
    HeldSeat(hall, s, t, x);
    KeepLocks(hall, s, s', t, s'.pcs[t]);
    WriteSeat(hall, s, s', t, s'.pcs[t], x, pc.id);
    AttemptsMoved(s.pcs, t, s'.pcs[t]);
    assert OnlyAt(s.data, s'.data, x);
    Together(hall, s, s', t, s'.pcs[t]);
  }

  lemma StepRelease(hall: Hall, s: State, t: nat, x: nat)
    requires Inv(hall, s) && t < |s.pcs| && s.pcs[t].Giving? && !s.pcs[t].failed && s.pcs[t].j < s.pcs[t].i
    requires x == s.pcs[t].idxs[s.pcs[t].j] && !Duplicate(s.pcs[t].idxs, s.pcs[t].j) && MayTake(hall, s, t)
    ensures Inv(hall, Step(hall, s, t))
  {
    hide LocksOk, SeatsOk, Sequential, Committed, Attempts, After, Sort, Indices, Seated, IsSorted;
    var pc, s' := s.pcs[t], Step(hall, s, t);
    ElemsNext(pc.idxs, pc.j);
    ElemsSeen(pc.idxs, pc.j);
    ElemsWithin(pc.idxs, pc.i, pc.j + 1);
    GiveLock(hall, s, s', t, s'.pcs[t], x);
    KeepSeats(hall, s, s', t, s'.pcs[t]);
    AttemptsMoved(s.pcs, t, s'.pcs[t]);
    Together(hall, s, s', t, s'.pcs[t]);
  }

  lemma StepClear(hall: Hall, s: State, t: nat, x: nat)
    requires Inv(hall, s) && t < |s.pcs| && s.pcs[t].Giving? && s.pcs[t].failed && s.pcs[t].j < s.pcs[t].i
    requires x == s.pcs[t].idxs[s.pcs[t].j] && !Duplicate(s.pcs[t].idxs, s.pcs[t].j) && MayTake(hall, s, t)
    ensures Inv(hall, Step(hall, s, t))
  {
    hide LocksOk, SeatsOk, Sequential, Committed, Attempts, After, Sort, Indices, Seated, IsSorted;
    var pc, s' := s.pcs[t], Step(hall, s, t);
    ElemsNext(pc.idxs, pc.j);
    ElemsSeen(pc.idxs, pc.j);
    ElemsWithin(pc.idxs, pc.i, pc.j + 1);
    WriterInFlight(hall, s, x, t);
    SeatAt(hall, s, x);
    KeepLocks(hall, s, s', t, s'.pcs[t]);
    WriteSeat(hall, s, s', t, s'.pcs[t], x, 0);
    AttemptsMoved(s.pcs, t, s'.pcs[t]);
    assert OnlyAt(s.data, s'.data, x);
    Together(hall, s, s', t, s'.pcs[t]);
  }

  lemma StepGiving(hall: Hall, s: State, t: nat)
    requires Inv(hall, s) && t < |s.pcs| && s.pcs[t].Giving? && MayTake(hall, s, t)
    ensures Inv(hall, Step(hall, s, t))
  {
    hide LocksOk, SeatsOk, Sequential, Committed, Attempts, After, Sort, Indices, Seated, IsSorted;
    var pc, s' := s.pcs[t], Step(hall, s, t);
    if pc.j == pc.i {
      assert Elems(pc.idxs, pc.i) - Elems(pc.idxs, pc.j) == {};
      Quiet(hall, s, s', t, s'.pcs[t]);
    } else {
      var x := pc.idxs[pc.j];
      ElemsNext(pc.idxs, pc.j);
      ElemsSeen(pc.idxs, pc.j);
      ElemsWithin(pc.idxs, pc.i, pc.j + 1);
      if Duplicate(pc.idxs, pc.j) {
        Quiet(hall, s, s', t, s'.pcs[t]);
      } else if pc.failed {
        StepClear(hall, s, t, x);
      } else {
        StepRelease(hall, s, t, x);
      }
    }
  }

  lemma StepWiped(hall: Hall, s: State, t: nat)
    requires Inv(hall, s) && t < |s.pcs| && s.pcs[t].Wiped? && MayTake(hall, s, t)
    ensures Inv(hall, Step(hall, s, t))
  {
    hide LocksOk, SeatsOk, Sequential, Committed, Attempts, After, Sort, Indices, Seated, IsSorted;
    var pc, s' := s.pcs[t], Step(hall, s, t);
    var x := pc.idxs[pc.j];
    ElemsNext(pc.idxs, pc.j);
    ElemsSeen(pc.idxs, pc.j);
    ElemsWithin(pc.idxs, pc.i, pc.j + 1);
    GiveLock(hall, s, s', t, s'.pcs[t], x);
    KeepSeats(hall, s, s', t, s'.pcs[t]);
    AttemptsMoved(s.pcs, t, s'.pcs[t]);
    Together(hall, s, s', t, s'.pcs[t]);
  }

  lemma StepUndoing(hall: Hall, s: State, t: nat)
    requires Inv(hall, s) && t < |s.pcs| && s.pcs[t].Undoing? && MayTake(hall, s, t)
    ensures Inv(hall, Step(hall, s, t))
  {
    Quiet(hall, s, Step(hall, s, t), t, Step(hall, s, t).pcs[t]);
  }

  lemma StepLocking(hall: Hall, s: State, t: nat)
    requires Inv(hall, s) && t < |s.pcs| && s.pcs[t].Locking? && MayTake(hall, s, t)
    ensures Inv(hall, Step(hall, s, t))
  {
    hide LocksOk, SeatsOk, Sequential, Committed, Attempts, After, Sort, Indices, Seated, IsSorted;
    var pc, s' := s.pcs[t], Step(hall, s, t);
    if |pc.view| < hall.Size() {
      TakeShared(hall, s, s', t, s'.pcs[t], |pc.view|);
      KeepSeats(hall, s, s', t, s'.pcs[t]);
    } else {
      forall k: nat | k < hall.Size()
        ensures pc.view[k] == After(hall, s.log)[k]
      {
        HeldSeat(hall, s, t, k);
      }
      assert pc.view == After(hall, s.log);
      var e := Entry(t, pc.req, Shown(pc.view));
      Recorded(hall, s.log, e);
      CommittedNext(s.log, e);
      KeepLocks(hall, s, s', t, s'.pcs[t]);
      KeepSeats(hall, s, s', t, s'.pcs[t]);
    }
    AttemptsMoved(s.pcs, t, s'.pcs[t]);
    Together(hall, s, s', t, s'.pcs[t]);
  }

  lemma StepReading(hall: Hall, s: State, t: nat)
    requires Inv(hall, s) && t < |s.pcs| && s.pcs[t].Reading? && MayTake(hall, s, t)
    ensures Inv(hall, Step(hall, s, t))
  {
    Quiet(hall, s, Step(hall, s, t), t, Step(hall, s, t).pcs[t]);
  }

  lemma StepUnlocking(hall: Hall, s: State, t: nat)
    requires Inv(hall, s) && t < |s.pcs| && s.pcs[t].Unlocking? && MayTake(hall, s, t)
    ensures Inv(hall, Step(hall, s, t))
  {
    hide LocksOk, SeatsOk, Sequential, Committed, Attempts, After, Sort, Indices, Seated, IsSorted;
    var pc, s' := s.pcs[t], Step(hall, s, t);
    if pc.j < hall.Size() {
      GiveShared(hall, s, s', t, s'.pcs[t], pc.j);
      KeepSeats(hall, s, s', t, s'.pcs[t]);
      AttemptsMoved(s.pcs, t, s'.pcs[t]);
      Together(hall, s, s', t, s'.pcs[t]);
    } else {
      Quiet(hall, s, s', t, s'.pcs[t]);
    }
  }

  /** Whichever thread moves next, the invariant holds again. */
  lemma NextKeeps(hall: Hall, s: State, s': State)
    requires Inv(hall, s) && Next(hall, s, s')
    ensures Inv(hall, s')
  {
    var t: nat :| t < |s.pcs| && NextOf(hall, s, s', t);
    match s.pcs[t]
    case Idle => var req :| s' == Call(s, t, req); CallKeeps(hall, s, t, req);
    case Done(_, _, _) => var req :| s' == Call(s, t, req); CallKeeps(hall, s, t, req);
    case Called(_, _) => StepCalled(hall, s, t);
    case Converting(_, _, _) => StepConverting(hall, s, t);
    case Taking(_, _, _, _, _) => StepTaking(hall, s, t);
    case Testing(_, _, _, _, _) => StepTesting(hall, s, t);
    case Writing(_, _, _, _, _) => StepWriting(hall, s, t);
    case Giving(_, _, _, _, _, _, _, _) => StepGiving(hall, s, t);
    case Wiped(_, _, _, _, _, _, _) => StepWiped(hall, s, t);
    case Undoing(_, _, _, _) => StepUndoing(hall, s, t);
    case Locking(_, _, _) => StepLocking(hall, s, t);
    case Reading(_, _, _) => StepReading(hall, s, t);
    case Unlocking(_, _, _, _, _) => StepUnlocking(hall, s, t);
  }

  lemma {:induction false} NoAttempts(pcs: seq<Pc>)
    requires forall t :: 0 <= t < |pcs| ==> pcs[t].Idle?
    ensures Attempts(pcs) == 0
  {
    if pcs != [] {
      NoAttempts(pcs[..|pcs| - 1]);
    }
  }

  lemma InitOk(hall: Hall, threads: nat)
    ensures Inv(hall, Init(hall, threads))
  {
    var s := Init(hall, threads);
    forall k: nat | k < hall.Size()
      ensures LockOk(hall, s, k) && SeatOk(hall, s, k)
    {
    }
    NoAttempts(s.pcs);
  }
}
