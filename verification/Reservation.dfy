/**
  Threads that reserve and show the seats of one event, as steps over shared state.
  A step is one access to a lock, a seat or the reservation counter.
 */
module Reservation {
  import opened Wrappers
  import opened Locks
  import opened Seats

  datatype Request = Reserve(seats: seq<Seat>) | Show

  datatype Outcome =
    | Reserved(id: int)        // every requested seat now carries the id
    | Refused(taken: nat)      // this seat was already reserved
    | BadSeat                  // a requested seat does not exist
    | Shown(view: seq<int>)    // the id in each seat

  /** Where a thread stands in ems_reserve or ems_show. `born` is the length of the history when it was called. */
  datatype Pc =
    | Idle
    | Called(req: Request, born: nat)
    // ems_reserve, after the counter was incremented
    | Converting(req: Request, born: nat, id: int)
    | Taking(req: Request, born: nat, id: int, idxs: seq<nat>, i: nat)     // at the head of the locking loop
    | Testing(req: Request, born: nat, id: int, idxs: seq<nat>, i: nat)    // holds the lock of idxs[i]
    | Writing(req: Request, born: nat, id: int, idxs: seq<nat>, i: nat)    // found it free
    // in the unlocking loop
    | Giving(req: Request, born: nat, id: int, idxs: seq<nat>, i: nat, j: nat, failed: bool, point: nat)
    // has cleared idxs[j]
    | Wiped(req: Request, born: nat, id: int, idxs: seq<nat>, i: nat, j: nat, point: nat)
    | Undoing(req: Request, born: nat, id: int, point: nat)                // about to decrement the counter
    // ems_show
    | Locking(req: Request, born: nat, view: seq<int>)
    | Reading(req: Request, born: nat, view: seq<int>)                     // holds the lock of the next seat
    | Unlocking(req: Request, born: nat, view: seq<int>, j: nat, point: nat)
    | Done(req: Request, born: nat, point: nat)

  /** One linearised operation. */
  datatype Entry = Entry(thread: nat, req: Request, outcome: Outcome)

  datatype State = State(data: seq<int>, locks: seq<Lock>, counter: int, pcs: seq<Pc>, log: seq<Entry>)

  function Zeros(n: nat): (s: seq<int>)
    ensures |s| == n && forall k :: 0 <= k < n ==> s[k] == 0
  {
    seq(n, k => 0)
  }

  function Init(hall: Hall, threads: nat): State {
    State(Zeros(hall.Size()), seq(hall.Size(), k => FREE), 0, seq(threads, t => Idle), [])
  }

  // ---------- the steps of a thread ----------

  predicate Duplicate(idxs: seq<nat>, i: nat)
    requires i < |idxs|
  {
    i != 0 && idxs[i] == idxs[i - 1]
  }

  /** The seat whose lock the thread has to take next, if any. */
  function Wants(hall: Hall, pc: Pc): Option<nat> {
    match pc
    case Taking(_, _, _, idxs, i) => if i < |idxs| && !Duplicate(idxs, i) then Some(idxs[i]) else None
    case Locking(_, _, view) => if |view| < hall.Size() then Some(|view|) else None
    case _ => None
  }

  predicate IsActive(pc: Pc) { !pc.Idle? && !pc.Done? }

  predicate InHall(hall: Hall, idxs: seq<nat>) {
    forall k :: 0 <= k < |idxs| ==> idxs[k] < hall.Size()
  }

  predicate PcBounded(hall: Hall, pc: Pc) {
    match pc
    case Converting(req, _, _) => req.Reserve?
    case Taking(_, _, _, idxs, i) => i <= |idxs| && InHall(hall, idxs)
    case Testing(_, _, _, idxs, i) => i < |idxs| && InHall(hall, idxs)
    case Writing(_, _, _, idxs, i) => i < |idxs| && InHall(hall, idxs)
    case Giving(_, _, _, idxs, i, j, _, _) => j <= i <= |idxs| && InHall(hall, idxs)
    case Wiped(_, _, _, idxs, i, j, _) => j < i <= |idxs| && InHall(hall, idxs)
    case Locking(_, _, view) => |view| <= hall.Size()
    case Reading(_, _, view) => |view| < hall.Size()
    case Unlocking(_, _, _, j, _) => j <= hall.Size()
    case _ => true
  }

  predicate Bounded(hall: Hall, s: State) {
    && |s.data| == hall.Size() && |s.locks| == hall.Size()
    && (forall t :: 0 <= t < |s.pcs| ==> PcBounded(hall, s.pcs[t]))
  }

  /** The lock is free for the thread: no writer holds it and, to write, no reader either. */
  predicate MayTake(hall: Hall, s: State, t: nat)
    requires Bounded(hall, s) && t < |s.pcs|
  {
    var want := Wants(hall, s.pcs[t]);
    want.Some? ==>
      && want.value < hall.Size()
      && if s.pcs[t].Taking? then FreeToWrite(s.locks[want.value]) else FreeToRead(s.locks[want.value])
  }

  function Set(s: State, t: nat, pc: Pc): State
    requires t < |s.pcs|
  {
    s.(pcs := s.pcs[t := pc])
  }

  function Record(s: State, t: nat, req: Request, outcome: Outcome): State {
    s.(log := s.log + [Entry(t, req, outcome)])
  }

  /** The next step of thread t. */
  function Step(hall: Hall, s: State, t: nat): State
    requires Bounded(hall, s) && t < |s.pcs| && IsActive(s.pcs[t]) && MayTake(hall, s, t)
  {
    match s.pcs[t]
    case Idle => s
    case Done(_, _, _) => s
    case Called(req, born) =>
      if req.Show? then Set(s, t, Locking(req, born, []))
      else Set(s.(counter := s.counter + 1), t, Converting(req, born, s.counter + 1))
    case Converting(req, born, id) =>
      var idxs := Indices(hall, req.seats);
      if idxs.None? then Record(Set(s, t, Undoing(req, born, id, |s.log|)), t, req, BadSeat)
      else SortKeeps(idxs.value); Set(s, t, Taking(req, born, id, Sort(idxs.value), 0))
    case Taking(req, born, id, idxs, i) =>
      if i == |idxs| then Record(Set(s, t, Giving(req, born, id, idxs, i, 0, false, |s.log|)), t, req, Reserved(id))
      else if Duplicate(idxs, i) then Set(s, t, Taking(req, born, id, idxs, i + 1))
      else Set(s.(locks := s.locks[idxs[i] := WriteLock(s.locks[idxs[i]], t)]), t, Testing(req, born, id, idxs, i))
    case Testing(req, born, id, idxs, i) =>
      if s.data[idxs[i]] != 0 then
        Record(Set(s.(locks := s.locks[idxs[i] := WriteUnlock(s.locks[idxs[i]])]), t,
                   Giving(req, born, id, idxs, i, 0, true, |s.log|)),
               t, req, Refused(idxs[i]))
      else Set(s, t, Writing(req, born, id, idxs, i))
    case Writing(req, born, id, idxs, i) =>
      Set(s.(data := s.data[idxs[i] := id]), t, Taking(req, born, id, idxs, i + 1))
    case Giving(req, born, id, idxs, i, j, failed, point) =>
      if j == i then Set(s, t, if failed then Undoing(req, born, id, point) else Done(req, born, point))
      else if Duplicate(idxs, j) then Set(s, t, Giving(req, born, id, idxs, i, j + 1, failed, point))
      else if failed then Set(s.(data := s.data[idxs[j] := 0]), t, Wiped(req, born, id, idxs, i, j, point))
      else Set(s.(locks := s.locks[idxs[j] := WriteUnlock(s.locks[idxs[j]])]), t,
               Giving(req, born, id, idxs, i, j + 1, failed, point))
    case Wiped(req, born, id, idxs, i, j, point) =>
      Set(s.(locks := s.locks[idxs[j] := WriteUnlock(s.locks[idxs[j]])]), t,
          Giving(req, born, id, idxs, i, j + 1, true, point))
    case Undoing(req, born, id, point) =>
      Set(s.(counter := s.counter - 1), t, Done(req, born, point))
    case Locking(req, born, view) =>
      if |view| < hall.Size() then
        Set(s.(locks := s.locks[|view| := ReadLock(s.locks[|view|], t)]), t, Reading(req, born, view))
      else Record(Set(s, t, Unlocking(req, born, view, 0, |s.log|)), t, req, Shown(view))
    case Reading(req, born, view) =>
      Set(s, t, Locking(req, born, view + [s.data[|view|]]))
    case Unlocking(req, born, view, j, point) =>
      if j < hall.Size() then
        Set(s.(locks := s.locks[j := ReadUnlock(s.locks[j], t)]), t, Unlocking(req, born, view, j + 1, point))
      else Set(s, t, Done(req, born, point))
  }

  /** A thread that is not busy may call either operation. */
  function Call(s: State, t: nat, req: Request): State
    requires t < |s.pcs|
  {
    Set(s, t, Called(req, |s.log|))
  }

  ghost predicate NextOf(hall: Hall, s: State, s': State, t: nat)
    requires Bounded(hall, s) && t < |s.pcs|
  {
    if IsActive(s.pcs[t]) then MayTake(hall, s, t) && s' == Step(hall, s, t)
    else exists req :: s' == Call(s, t, req)
  }

  ghost predicate Next(hall: Hall, s: State, s': State) {
    Bounded(hall, s) && exists t: nat :: t < |s.pcs| && NextOf(hall, s, s', t)
  }
}
