/**
  Threads that create and look up events in one linked list, as steps over shared state. A creator walks
  to the end with write locks and is handed the last lock when its id is not there; append_to_list releases it.
 */
module EventList {
  import opened Wrappers
  import opened Locks

  datatype Node = Node(id: int, next: Option<nat>)

  datatype Result = Created(n: nat) | Exists(n: nat) | Found(n: nat) | Missing

  /** `make` tells a creator from a lookup; `born` is the length of the list when the operation was called. */
  datatype Pc =
    | Idle
    | Entering(make: bool, id: int, born: nat)                       // wants the head lock
    | AtHead(make: bool, id: int, born: nat)                         // holds it
    | LeavingHead(make: bool, id: int, born: nat, next: Option<nat>) // has read the head
    | Checking(make: bool, id: int, born: nat, cur: nat)
    | Waiting(make: bool, id: int, born: nat, cur: nat)              // wants the lock of the node
    | AtNode(make: bool, id: int, born: nat, cur: nat)               // holds it
    | LeavingNode(make: bool, id: int, born: nat, cur: nat, next: Option<nat>)
    // append_to_list
    | Allocating(id: int, born: nat, held: nat)
    | Linking(id: int, born: nat, held: nat, node: nat)
    | Tailing(id: int, born: nat, held: nat, node: nat)
    | Releasing(id: int, born: nat, held: nat, node: nat)
    | Done(make: bool, id: int, born: nat, result: Result)

  /**
    Lock 0 is the head lock, lock n + 1 the one of node n. Nodes are named by the order of their allocation.
    `linked` is a history variable: how many nodes have been linked.
   */
  datatype State = State(nodes: seq<Node>, locks: seq<Lock>, head: Option<nat>, tail: Option<nat>, pcs: seq<Pc>,
                         linked: nat)

  function Init(threads: nat): State {
    State([], [FREE], None, None, seq(threads, t => Idle), 0)
  }

  /** The lock a thread has to take next. */
  function Wants(pc: Pc): Option<nat> {
    match pc
    case Entering(_, _, _) => Some(0)
    case Waiting(_, _, _, cur) => Some(cur + 1)
    case _ => None
  }

  predicate IsActive(pc: Pc) { !pc.Idle? && !pc.Done? }

  function Set(s: State, t: nat, pc: Pc): State
    requires t < |s.pcs|
  {
    s.(pcs := s.pcs[t := pc])
  }

  function Acquire(s: State, t: nat, k: nat, write: bool): State
    requires k < |s.locks|
  {
    s.(locks := s.locks[k := if write then WriteLock(s.locks[k], t) else ReadLock(s.locks[k], t)])
  }

  function Release(s: State, t: nat, k: nat, write: bool): State
    requires k < |s.locks|
  {
    s.(locks := s.locks[k := if write then WriteUnlock(s.locks[k]) else ReadUnlock(s.locks[k], t)])
  }

  /** The next step of the thread follows no null pointer. */
  predicate Safe(s: State, t: nat)
    requires t < |s.pcs|
  {
    |s.locks| == |s.nodes| + 1 &&
    match s.pcs[t]
    case Checking(_, _, _, cur) => cur < |s.nodes|
    case Waiting(_, _, _, cur) => cur < |s.nodes|
    case AtNode(_, _, _, cur) => cur < |s.nodes|
    case LeavingNode(_, _, _, cur, _) => cur < |s.nodes|
    case Linking(_, _, _, _) => s.head.Some? ==> s.tail.Some? && s.tail.value < |s.nodes|
    case Releasing(_, _, held, _) => held < |s.locks|
    case _ => true
  }

  predicate MayTake(s: State, t: nat)
    requires t < |s.pcs| && Safe(s, t)
  {
    Wants(s.pcs[t]).Some? ==>
      var lock := s.locks[Wants(s.pcs[t]).value];
      if s.pcs[t].make then FreeToWrite(lock) else FreeToRead(lock)
  }

  /** The next step of thread t. */
  function Step(s: State, t: nat): State
    requires t < |s.pcs| && IsActive(s.pcs[t]) && Safe(s, t) && MayTake(s, t)
  {
    match s.pcs[t]
    case Entering(make, id, born) => Set(Acquire(s, t, 0, make), t, AtHead(make, id, born))
    case AtHead(make, id, born) =>
      if make && s.head.None? then Set(s, t, Allocating(id, born, 0))
      else Set(s, t, LeavingHead(make, id, born, s.head))
    case LeavingHead(make, id, born, next) =>
      Set(Release(s, t, 0, make), t,
          if next.Some? then Checking(make, id, born, next.value) else Done(make, id, born, Missing))
    case Checking(make, id, born, cur) =>
      Set(s, t, if s.nodes[cur].id == id then Done(make, id, born, if make then Exists(cur) else Found(cur))
                else Waiting(make, id, born, cur))
    case Waiting(make, id, born, cur) => Set(Acquire(s, t, cur + 1, make), t, AtNode(make, id, born, cur))
    case AtNode(make, id, born, cur) =>
      if make && s.nodes[cur].next.None? then Set(s, t, Allocating(id, born, cur + 1))
      else Set(s, t, LeavingNode(make, id, born, cur, s.nodes[cur].next))
    case LeavingNode(make, id, born, cur, next) =>
      Set(Release(s, t, cur + 1, make), t,
          if next.Some? then Checking(make, id, born, next.value) else Done(make, id, born, Missing))
    case Allocating(id, born, held) =>
      Set(s.(nodes := s.nodes + [Node(id, None)], locks := s.locks + [FREE]), t, Linking(id, born, held, |s.nodes|))
    case Linking(id, born, held, node) =>
      if s.head.None? then Set(s.(head := Some(node), linked := s.linked + 1), t, Tailing(id, born, 0, node))
      else Set(s.(nodes := s.nodes[s.tail.value := s.nodes[s.tail.value].(next := Some(node))], linked := s.linked + 1),
               t, Tailing(id, born, s.tail.value + 1, node))
    case Tailing(id, born, held, node) => Set(s.(tail := Some(node)), t, Releasing(id, born, held, node))
    case Releasing(id, born, held, node) => Set(Release(s, t, held, true), t, Done(true, id, born, Created(node)))
  }

  /** A thread that is not busy may create an event or look one up. */
  function Call(s: State, t: nat, make: bool, id: int): State
    requires t < |s.pcs|
  {
    Set(s, t, Entering(make, id, s.linked))
  }

  ghost predicate NextOf(s: State, s': State, t: nat)
    requires t < |s.pcs|
  {
    if IsActive(s.pcs[t]) then Safe(s, t) && MayTake(s, t) && s' == Step(s, t)
    else exists make, id :: s' == Call(s, t, make, id)
  }

  ghost predicate Next(s: State, s': State) {
    exists t: nat :: t < |s.pcs| && NextOf(s, s', t)
  }

  // ---------- what the steps keep ----------

  predicate Appending(pc: Pc) { pc.Allocating? || pc.Linking? || pc.Tailing? || pc.Releasing? }

  predicate Published(pc: Pc) { pc.Tailing? || pc.Releasing? }

  /** The lock a thread holds. */
  function Holds(pc: Pc): Option<nat> {
    match pc
    case AtHead(_, _, _) => Some(0)
    case LeavingHead(_, _, _, _) => Some(0)
    case AtNode(_, _, _, cur) => Some(cur + 1)
    case LeavingNode(_, _, _, cur, _) => Some(cur + 1)
    case Allocating(_, _, held) => Some(held)
    case Linking(_, _, held, _) => Some(held)
    case Tailing(_, _, held, _) => Some(held)
    case Releasing(_, _, held, _) => Some(held)
    case _ => None
  }

  predicate Writes(pc: Pc) { Appending(pc) || (!pc.Idle? && pc.make) }

  ghost predicate LockOk(s: State, k: nat)
    requires k < |s.locks|
  {
    && (forall t: nat :: t < |s.pcs| ==>
        (s.locks[k].writer == Some(t) <==> Holds(s.pcs[t]) == Some(k) && Writes(s.pcs[t])))
    && (forall t: nat :: t < |s.pcs| ==> (t in s.locks[k].readers <==> Holds(s.pcs[t]) == Some(k) && !Writes(s.pcs[t])))
    && (s.locks[k].writer.Some? ==> s.locks[k].readers == {} && s.locks[k].writer.value < |s.pcs|)
    && (forall t :: t in s.locks[k].readers ==> t < |s.pcs|)
  }

  ghost predicate LocksOk(s: State) {
    && (forall k: nat :: k < |s.locks| ==> LockOk(s, k))
    && (forall t: nat :: t < |s.pcs| && Holds(s.pcs[t]).Some? ==> Holds(s.pcs[t]).value < |s.locks|)
  }

  /** From the head the links lead through the nodes in the order they were linked; ids are distinct. */
  ghost predicate ListOk(s: State) {
    && s.linked <= |s.nodes| <= s.linked + 1 && |s.locks| == |s.nodes| + 1
    && s.head == (if s.linked == 0 then None else Some(0))
    && (forall i: nat :: i < |s.nodes| ==> s.nodes[i].next == if i + 1 < s.linked then Some(i + 1) else None)
    && (forall i, j :: 0 <= i < j < |s.nodes| ==> s.nodes[i].id != s.nodes[j].id)
  }

  function LastOf(n: nat): Option<nat> {
    if n == 0 then None else Some(n - 1)
  }

  ghost predicate TailOk(s: State) {
    && (s.tail == LastOf(s.linked) || exists t: nat :: t < |s.pcs| && s.pcs[t].Tailing?)
    && (|s.nodes| == s.linked || exists t: nat :: t < |s.pcs| && s.pcs[t].Linking?)
  }

  /** The last node the thread has seen. */
  function Knows(pc: Pc): int {
    match pc
    case LeavingHead(_, _, _, next) => if next.Some? then next.value else -1
    case Checking(_, _, _, cur) => cur
    case Waiting(_, _, _, cur) => cur
    case AtNode(_, _, _, cur) => cur
    case LeavingNode(_, _, _, cur, next) => if next.Some? then next.value else cur
    case _ => -1
  }

  /** Until a publisher releases its lock nobody else appends or has seen its node. */
  ghost predicate Alone(s: State) {
    forall t: nat, u: nat :: t < |s.pcs| && u < |s.pcs| && t != u && Appending(s.pcs[t]) ==>
      !Appending(s.pcs[u]) && (Published(s.pcs[t]) ==> Knows(s.pcs[u]) < s.linked - 1)
  }

  /** None of the first n nodes has the id. */
  ghost predicate Absent(s: State, n: int, id: int) {
    n <= |s.nodes| && forall i :: 0 <= i < n ==> s.nodes[i].id != id
  }

  ghost predicate PcOk(s: State, pc: Pc) {
    match pc
    case Idle => true
    case Entering(_, _, born) => born <= s.linked
    case AtHead(_, _, born) => born <= s.linked
    case LeavingHead(_, _, born, next) =>
      born <= s.linked && (if next.Some? then next.value == 0 && s.linked > 0 else born == 0 && !pc.make)
    case Checking(_, id, born, cur) => born <= s.linked && cur < s.linked && Absent(s, cur, id)
    case Waiting(_, id, born, cur) => born <= s.linked && cur < s.linked && Absent(s, cur + 1, id)
    case AtNode(_, id, born, cur) => born <= s.linked && cur < s.linked && Absent(s, cur + 1, id)
    case LeavingNode(_, id, born, cur, next) =>
      && born <= s.linked && cur < s.linked && Absent(s, cur + 1, id)
      && (if next.Some? then next.value == cur + 1 < s.linked else born <= cur + 1 && !pc.make)
    case Allocating(id, born, held) => born <= s.linked && held == s.linked == |s.nodes| && Absent(s, s.linked, id)
    case Linking(id, born, held, node) =>
      && born <= s.linked && held == node == s.linked && |s.nodes| == s.linked + 1 && s.nodes[node].id == id
      && Absent(s, s.linked, id) && s.tail == LastOf(s.linked)
    case Tailing(id, born, held, node) =>
      && born < s.linked && held == node == s.linked - 1 && |s.nodes| == s.linked && s.nodes[node].id == id
      && s.tail == LastOf(s.linked - 1)
    case Releasing(id, born, held, node) =>
      && born < s.linked && held == node == s.linked - 1 && |s.nodes| == s.linked && s.nodes[node].id == id
    case Done(make, id, born, Created(n)) => make && born <= n < s.linked <= |s.nodes| && s.nodes[n].id == id
    case Done(make, id, born, Exists(n)) => make && n < s.linked <= |s.nodes| && s.nodes[n].id == id
    case Done(make, id, born, Found(n)) => !make && n < s.linked <= |s.nodes| && s.nodes[n].id == id
    case Done(make, id, born, Missing) => !make && born <= s.linked && Absent(s, born, id)
  }

  ghost predicate Inv(s: State) {
    && ListOk(s) && TailOk(s) && LocksOk(s) && Alone(s)
    && forall t: nat :: t < |s.pcs| ==> PcOk(s, s.pcs[t])
  }

  // ---------- locks ----------

  /** Nobody else holds a lock that is held for writing. */
  lemma Exclusive(s: State, t: nat, u: nat)
    requires LocksOk(s) && t < |s.pcs| && u < |s.pcs| && Holds(s.pcs[t]).Some? && Writes(s.pcs[t])
    requires Holds(s.pcs[u]) == Holds(s.pcs[t])
    ensures u == t
  {
    assert LockOk(s, Holds(s.pcs[t]).value);
  }

  lemma KeepLocks(s: State, s': State, t: nat, pc: Pc)
    requires LocksOk(s) && t < |s.pcs| && s'.pcs == s.pcs[t := pc]
    requires s'.locks == s.locks || s'.locks == s.locks + [FREE]
    requires Holds(pc) == Holds(s.pcs[t]) && (Holds(pc).Some? ==> (Writes(pc) <==> Writes(s.pcs[t])))
    ensures LocksOk(s')
  {
    forall k: nat | k < |s'.locks|
      ensures LockOk(s', k)
    {
      if k < |s.locks| {
        assert LockOk(s, k);
      }
    }
  }

  lemma TakeLock(s: State, s': State, t: nat, pc: Pc, k: nat, write: bool)
    requires LocksOk(s) && t < |s.pcs| && k < |s.locks| && s' == Set(Acquire(s, t, k, write), t, pc)
    requires Holds(s.pcs[t]).None? && Holds(pc) == Some(k) && (Writes(pc) <==> write)
    requires if write then FreeToWrite(s.locks[k]) else FreeToRead(s.locks[k])
    ensures LocksOk(s')
  {
    forall j: nat | j < |s'.locks|
      ensures LockOk(s', j)
    {
      assert LockOk(s, j);
    }
  }

  lemma GiveLock(s: State, s': State, t: nat, pc: Pc, k: nat, write: bool)
    requires LocksOk(s) && t < |s.pcs| && k < |s.locks| && s' == Set(Release(s, t, k, write), t, pc)
    requires Holds(s.pcs[t]) == Some(k) && (Writes(s.pcs[t]) <==> write) && Holds(pc).None?
    ensures LocksOk(s')
  {
    forall j: nat | j < |s'.locks|
      ensures LockOk(s', j)
    {
      assert LockOk(s, j);
    }
  }

  // ---------- the other threads ----------

  /** The list as others see it: it only grows, at its end. */
  ghost predicate Grows(s: State, s': State) {
    && s.linked <= s'.linked && |s.nodes| <= |s'.nodes|
    && forall i :: 0 <= i < |s.nodes| ==> s'.nodes[i].id == s.nodes[i].id
  }

  lemma OthersOk(s: State, s': State, u: nat)
    requires u < |s.pcs| && PcOk(s, s.pcs[u]) && Grows(s, s') && s'.linked <= |s'.nodes|
    requires Appending(s.pcs[u]) ==> s'.linked == s.linked && |s'.nodes| == |s.nodes| && s'.tail == s.tail
    ensures PcOk(s', s.pcs[u])
  {
  }

  /** A step that leaves the nodes, the head and the tail as they are. */
  lemma Together(s: State, s': State, t: nat, pc: Pc)
    requires Inv(s) && t < |s.pcs| && LocksOk(s') && PcOk(s', pc)
    requires s' == s.(pcs := s.pcs[t := pc], locks := s'.locks) && |s'.locks| == |s.locks|
    requires !s.pcs[t].Linking? && !s.pcs[t].Tailing? && !pc.Linking? && !pc.Tailing?
    requires Alone(s')
    ensures Inv(s')
  {
    forall u: nat | u < |s'.pcs|
      ensures PcOk(s', s'.pcs[u])
    {
      if u != t {
        OthersOk(s, s', u);
      }
    }
    if s.tail != LastOf(s.linked) {
      var u: nat :| u < |s.pcs| && s.pcs[u].Tailing?;
      assert s'.pcs[u].Tailing?;
    }
    if |s.nodes| != s.linked {
      var u: nat :| u < |s.pcs| && s.pcs[u].Linking?;
      assert s'.pcs[u].Linking?;
    }
  }

  lemma StillAlone(s: State, s': State, t: nat, pc: Pc)
    requires Alone(s) && t < |s.pcs| && s'.pcs == s.pcs[t := pc] && s'.linked == s.linked
    requires Appending(pc) ==> Appending(s.pcs[t]) && (Published(pc) ==> Published(s.pcs[t]))
    requires Knows(pc) <= Knows(s.pcs[t])
    ensures Alone(s')
  {
  }

  // ---------- each step ----------

  lemma CallKeeps(s: State, t: nat, make: bool, id: int)
    requires Inv(s) && t < |s.pcs| && !IsActive(s.pcs[t])
    ensures Inv(Call(s, t, make, id))
  {
    var s' := Call(s, t, make, id);
    KeepLocks(s, s', t, s'.pcs[t]);
    StillAlone(s, s', t, s'.pcs[t]);
    Together(s, s', t, s'.pcs[t]);
  }

  lemma StepEntering(s: State, t: nat)
    requires Inv(s) && t < |s.pcs| && s.pcs[t].Entering? && Safe(s, t) && MayTake(s, t)
    ensures Inv(Step(s, t))
  {
    var s' := Step(s, t);
    TakeLock(s, s', t, s'.pcs[t], 0, s.pcs[t].make);
    StillAlone(s, s', t, s'.pcs[t]);
    Together(s, s', t, s'.pcs[t]);
  }

  /** Who holds the lock at the end of the list finds no node allocated past it. */
  lemma NoLinker(s: State, t: nat)
    requires Inv(s) && t < |s.pcs| && Holds(s.pcs[t]) == Some(s.linked)
    requires Writes(s.pcs[t]) && !s.pcs[t].Linking?
    ensures |s.nodes| == s.linked
  {
    if |s.nodes| != s.linked {
      var u: nat :| u < |s.pcs| && s.pcs[u].Linking?;
      assert PcOk(s, s.pcs[u]);
      Exclusive(s, t, u);
    }
  }

  lemma StepAtHead(s: State, t: nat)
    requires Inv(s) && t < |s.pcs| && s.pcs[t].AtHead? && Safe(s, t) && MayTake(s, t)
    ensures Inv(Step(s, t))
  {
    hide LocksOk, TailOk;
    var s' := Step(s, t);
    KeepLocks(s, s', t, s'.pcs[t]);
    forall u: nat | u < |s.pcs| && u != t && Appending(s.pcs[u])
      ensures !Appending(s'.pcs[t]) && (Published(s.pcs[u]) ==> Knows(s'.pcs[t]) < s.linked - 1)
    {
      assert PcOk(s, s.pcs[u]) && PcOk(s, s.pcs[t]);
      if Holds(s.pcs[u]) == Some(0) {
        Exclusive(s, u, t);
      }
    }
    assert Alone(s');
    if s.pcs[t].make && s.head.None? {
      NoLinker(s, t);
    }
    Together(s, s', t, s'.pcs[t]);
  }

  lemma StepLeavingHead(s: State, t: nat)
    requires Inv(s) && t < |s.pcs| && s.pcs[t].LeavingHead? && Safe(s, t) && MayTake(s, t)
    ensures Inv(Step(s, t))
  {
    hide LocksOk, TailOk;
    var s' := Step(s, t);
    GiveLock(s, s', t, s'.pcs[t], 0, s.pcs[t].make);
    StillAlone(s, s', t, s'.pcs[t]);
    Together(s, s', t, s'.pcs[t]);
  }

  lemma StepChecking(s: State, t: nat)
    requires Inv(s) && t < |s.pcs| && s.pcs[t].Checking? && Safe(s, t) && MayTake(s, t)
    ensures Inv(Step(s, t))
  {
    hide LocksOk, TailOk;
    var s' := Step(s, t);
    KeepLocks(s, s', t, s'.pcs[t]);
    StillAlone(s, s', t, s'.pcs[t]);
    Together(s, s', t, s'.pcs[t]);
  }

  lemma StepWaiting(s: State, t: nat)
    requires Inv(s) && t < |s.pcs| && s.pcs[t].Waiting? && Safe(s, t) && MayTake(s, t)
    ensures Inv(Step(s, t))
  {
    var s' := Step(s, t);
    TakeLock(s, s', t, s'.pcs[t], s.pcs[t].cur + 1, s.pcs[t].make);
    StillAlone(s, s', t, s'.pcs[t]);
    Together(s, s', t, s'.pcs[t]);
  }

  lemma StepAtNode(s: State, t: nat)
    requires Inv(s) && t < |s.pcs| && s.pcs[t].AtNode? && Safe(s, t) && MayTake(s, t)
    ensures Inv(Step(s, t))
  {
    hide LocksOk, TailOk;
    var s', cur := Step(s, t), s.pcs[t].cur;
    KeepLocks(s, s', t, s'.pcs[t]);
    forall u: nat | u < |s.pcs| && u != t && Appending(s.pcs[u])
      ensures !Appending(s'.pcs[t]) && (Published(s.pcs[u]) ==> Knows(s'.pcs[t]) < s.linked - 1)
    {
      assert PcOk(s, s.pcs[u]) && PcOk(s, s.pcs[t]);
      if Holds(s.pcs[u]) == Some(cur + 1) {
        Exclusive(s, u, t);
      }
    }
    assert Alone(s');
    if s.pcs[t].make && s.nodes[cur].next.None? {
      NoLinker(s, t);
    }
    Together(s, s', t, s'.pcs[t]);
  }

  lemma StepLeavingNode(s: State, t: nat)
    requires Inv(s) && t < |s.pcs| && s.pcs[t].LeavingNode? && Safe(s, t) && MayTake(s, t)
    ensures Inv(Step(s, t))
  {
    hide LocksOk, TailOk;
    var s' := Step(s, t);
    GiveLock(s, s', t, s'.pcs[t], s.pcs[t].cur + 1, s.pcs[t].make);
    StillAlone(s, s', t, s'.pcs[t]);
    Together(s, s', t, s'.pcs[t]);
  }

  lemma StepReleasing(s: State, t: nat)
    requires Inv(s) && t < |s.pcs| && s.pcs[t].Releasing? && Safe(s, t) && MayTake(s, t)
    ensures Inv(Step(s, t))
  {
    var s' := Step(s, t);
    GiveLock(s, s', t, s'.pcs[t], s.pcs[t].held, true);
    StillAlone(s, s', t, s'.pcs[t]);
    Together(s, s', t, s'.pcs[t]);
  }

  /** While a thread appends no other one does. */
  lemma OnlyAppender(s: State, t: nat, u: nat)
    requires Inv(s) && t < |s.pcs| && u < |s.pcs| && Appending(s.pcs[t]) && Appending(s.pcs[u])
    ensures u == t
  {
  }

  lemma StepAllocating(s: State, t: nat)
    requires Inv(s) && t < |s.pcs| && s.pcs[t].Allocating? && Safe(s, t) && MayTake(s, t)
    ensures Inv(Step(s, t))
  {
    var s' := Step(s, t);
    KeepLocks(s, s', t, s'.pcs[t]);
    StillAlone(s, s', t, s'.pcs[t]);
    assert s'.pcs[t].Linking?;
    forall u: nat | u < |s.pcs| && Appending(s.pcs[u])
      ensures u == t
    {
      OnlyAppender(s, t, u);
    }
    forall u: nat | u < |s'.pcs|
      ensures PcOk(s', s'.pcs[u])
    {
      if u != t {
        OthersOk(s, s', u);
      }
    }
  }

  lemma StepLinking(s: State, t: nat)
    requires Inv(s) && t < |s.pcs| && s.pcs[t].Linking? && Safe(s, t) && MayTake(s, t)
    ensures Inv(Step(s, t))
  {
    var s' := Step(s, t);
    KeepLocks(s, s', t, s'.pcs[t]);
    assert s'.pcs[t].Tailing?;
    forall u: nat | u < |s'.pcs|
      ensures PcOk(s', s'.pcs[u]) && (u != t ==> !Appending(s.pcs[u]) && Knows(s.pcs[u]) < s.linked)
    {
      if u != t {
        OthersOk(s, s', u);
      }
    }
  }

  lemma StepTailing(s: State, t: nat)
    requires Inv(s) && t < |s.pcs| && s.pcs[t].Tailing? && Safe(s, t) && MayTake(s, t)
    ensures Inv(Step(s, t))
  {
    var s' := Step(s, t);
    KeepLocks(s, s', t, s'.pcs[t]);
    StillAlone(s, s', t, s'.pcs[t]);
    forall u: nat | u < |s'.pcs|
      ensures PcOk(s', s'.pcs[u])
    {
      if u != t {
        OthersOk(s, s', u);
      }
    }
  }

  /** Whichever thread moves next, the invariant holds again. */
  lemma NextKeeps(s: State, s': State)
    requires Inv(s) && Next(s, s')
    ensures Inv(s')
  {
    hide Inv;
    var t: nat :| t < |s.pcs| && NextOf(s, s', t);
    match s.pcs[t]
    case Idle => var make, id :| s' == Call(s, t, make, id); CallKeeps(s, t, make, id);
    case Done(_, _, _, _) => var make, id :| s' == Call(s, t, make, id); CallKeeps(s, t, make, id);
    case Entering(_, _, _) => StepEntering(s, t);
    case AtHead(_, _, _) => StepAtHead(s, t);
    case LeavingHead(_, _, _, _) => StepLeavingHead(s, t);
    case Checking(_, _, _, _) => StepChecking(s, t);
    case Waiting(_, _, _, _) => StepWaiting(s, t);
    case AtNode(_, _, _, _) => StepAtNode(s, t);
    case LeavingNode(_, _, _, _, _) => StepLeavingNode(s, t);
    case Allocating(_, _, _) => StepAllocating(s, t);
    case Linking(_, _, _, _) => StepLinking(s, t);
    case Tailing(_, _, _, _) => StepTailing(s, t);
    case Releasing(_, _, _, _) => StepReleasing(s, t);
  }

  // ---------- runs ----------

  ghost predicate Link(run: seq<State>, i: nat)
    requires i + 1 < |run|
  {
    Next(run[i], run[i + 1])
  }

  ghost predicate IsRun(threads: nat, run: seq<State>) {
    run != [] && run[0] == Init(threads) && forall i: nat :: i + 1 < |run| ==> Link(run, i)
  }

  lemma {:induction false} RunKeeps(threads: nat, run: seq<State>, i: nat)
    requires IsRun(threads, run) && i < |run|
    ensures Inv(run[i])
  {
    if i > 0 {
      hide Inv, Next, Init;
      RunKeeps(threads, run, i - 1);
      assert Link(run, i - 1);
      NextKeeps(run[i - 1], run[i]);
    }
  }

  /** In every reachable state the ids are distinct, the links lead through the nodes in order, at most
      one thread appends, the tail is the last node unless one does, and no thread can follow a null pointer. */
  lemma ListStaysSound(threads: nat, run: seq<State>, i: nat)
    requires IsRun(threads, run) && i < |run|
    ensures ListOk(run[i])
    ensures forall t: nat, u: nat :: t < |run[i].pcs| && u < |run[i].pcs| ==>
              Appending(run[i].pcs[t]) && Appending(run[i].pcs[u]) ==> t == u
    ensures (forall t: nat :: t < |run[i].pcs| ==> !Appending(run[i].pcs[t])) ==>
              run[i].tail == LastOf(run[i].linked) && |run[i].nodes| == run[i].linked
    ensures forall t: nat :: t < |run[i].pcs| ==> Safe(run[i], t)
  {
    RunKeeps(threads, run, i);
    forall t: nat | t < |run[i].pcs|
      ensures Safe(run[i], t)
    {
      assert PcOk(run[i], run[i].pcs[t]);
    }
  }

  /** A step changes no node that is linked but the last, and that one only by linking a new node to it. */
  lemma GrowsAtEnd(s: State, s': State)
    requires Inv(s) && Next(s, s')
    ensures Grows(s, s') && s'.linked <= s.linked + 1
    ensures forall i :: 0 <= i < s.linked - 1 ==> s'.nodes[i] == s.nodes[i]
  {
    var t: nat :| t < |s.pcs| && NextOf(s, s', t);
    assert PcOk(s, s.pcs[t]);
  }

  /** A lookup misses an id only if no event had it when the lookup began. */
  lemma MissedWasAbsent(threads: nat, run: seq<State>, i: nat, t: nat)
    requires IsRun(threads, run) && i < |run| && t < |run[i].pcs| && run[i].pcs[t].Done?
    ensures var s, pc := run[i], run[i].pcs[t];
            match pc.result
            case Missing => !pc.make && Absent(s, pc.born, pc.id)
            case Found(n) => !pc.make && n < |s.nodes| && s.nodes[n].id == pc.id
            case Exists(n) => pc.make && n < |s.nodes| && s.nodes[n].id == pc.id
            case Created(n) => pc.make && pc.born <= n < |s.nodes| && s.nodes[n].id == pc.id
  {
    RunKeeps(threads, run, i);
    assert PcOk(run[i], run[i].pcs[t]);
  }

  /** Some thread is waiting to write under the lock. */
  ghost predicate WriterWaits(s: State, k: nat) {
    exists t: nat :: t < |s.pcs| && Wants(s.pcs[t]) == Some(k) && s.pcs[t].make
  }

  /** The thread can move even if readers queue up behind waiting writers, as POSIX lets an implementation do. */
  ghost predicate CanMove(s: State, t: nat)
    requires t < |s.pcs|
  {
    && IsActive(s.pcs[t]) && Safe(s, t) && MayTake(s, t)
    && (Wants(s.pcs[t]).Some? && !s.pcs[t].make ==> !WriterWaits(s, Wants(s.pcs[t]).value))
  }

  lemma InTheWay(s: State, t: nat) returns (u: nat)
    requires Inv(s) && t < |s.pcs| && Safe(s, t) && !MayTake(s, t)
    ensures u < |s.pcs| && Holds(s.pcs[u]) == Wants(s.pcs[t])
  {
    var k := Wants(s.pcs[t]).value;
    assert LockOk(s, k);
    if s.locks[k].writer.Some? {
      u := s.locks[k].writer.value;
    } else {
      u :| u in s.locks[k].readers;
    }
  }

  /** No reachable state is stuck: a waiting thread waits for one that holds the lock, or for one that waits to write
      under it, and then one of them can move. */
  lemma DeadlockFree(threads: nat, run: seq<State>, i: nat, t: nat) returns (u: nat)
    requires IsRun(threads, run) && i < |run| && t < |run[i].pcs| && IsActive(run[i].pcs[t])
    ensures u < |run[i].pcs| && CanMove(run[i], u)
    ensures u == t || Holds(run[i].pcs[u]) == Wants(run[i].pcs[t]) || Wants(run[i].pcs[u]) == Wants(run[i].pcs[t])
  {
    var s := run[i];
    RunKeeps(threads, run, i);
    ListStaysSound(threads, run, i);
    u := t;
    if !MayTake(s, t) {
      u := InTheWay(s, t);
    } else if !CanMove(s, t) {
      u :| u < |s.pcs| && Wants(s.pcs[u]) == Wants(s.pcs[t]) && s.pcs[u].make;
      if !MayTake(s, u) {
        u := InTheWay(s, u);
      }
    }
  }

  // ---------- progress ----------

  /** The thread may still link a node. */
  predicate MayBuild(pc: Pc) {
    pc.Allocating? || pc.Linking? || (IsActive(pc) && !Appending(pc) && pc.make)
  }

  function Builders(pcs: seq<Pc>): nat {
    if pcs == [] then 0 else Builders(pcs[..|pcs| - 1]) + if MayBuild(pcs[|pcs| - 1]) then 1 else 0
  }

  /** How long the list can still get without new calls. */
  function Longest(s: State): nat { s.linked + Builders(s.pcs) }

  /** An upper bound on the steps a thread has left while the list stays within n nodes: four for each node from
      where it stands, and those of appending. */
  function StepsLeft(pc: Pc, n: nat): int {
    match pc
    case Idle => 0
    case Done(_, _, _, _) => 0
    case Entering(_, _, _) => 4 * n + 7
    case AtHead(_, _, _) => 4 * n + 6
    case LeavingHead(_, _, _, _) => 4 * n + 5
    case Checking(_, _, _, cur) => 4 * (n - cur) + 4
    case Waiting(_, _, _, cur) => 4 * (n - cur) + 3
    case AtNode(_, _, _, cur) => 4 * (n - cur) + 2
    case LeavingNode(_, _, _, cur, _) => 4 * (n - cur) + 1
    case Allocating(_, _, _) => 4
    case Linking(_, _, _, _) => 3
    case Tailing(_, _, _, _) => 2
    case Releasing(_, _, _, _) => 1
  }

  function TotalLeft(pcs: seq<Pc>, n: nat): int {
    if pcs == [] then 0 else TotalLeft(pcs[..|pcs| - 1], n) + StepsLeft(pcs[|pcs| - 1], n)
  }

  lemma {:induction false} TotalMoved(pcs: seq<Pc>, t: nat, pc: Pc, n: nat)
    requires t < |pcs|
    ensures TotalLeft(pcs[t := pc], n) == TotalLeft(pcs, n) - StepsLeft(pcs[t], n) + StepsLeft(pc, n)
    ensures Builders(pcs[t := pc]) == Builders(pcs) - (if MayBuild(pcs[t]) then 1 else 0) + if MayBuild(pc) then 1
                                                       else 0
  {
    hide StepsLeft, MayBuild;
    var last := |pcs| - 1;
    if t == last {
      assert pcs[t := pc][..last] == pcs[..last];
    } else {
      TotalMoved(pcs[..last], t, pc, n);
      assert pcs[t := pc][..last] == pcs[..last][t := pc];
    }
  }

  lemma {:induction false} TotalGrows(pcs: seq<Pc>, m: nat, n: nat)
    requires m <= n
    ensures TotalLeft(pcs, m) <= TotalLeft(pcs, n)
  {
    if pcs != [] {
      TotalGrows(pcs[..|pcs| - 1], m, n);
    }
  }

  lemma {:induction false} TotalPositive(s: State, pcs: seq<Pc>, n: nat)
    requires s.linked <= n && forall t: nat :: t < |pcs| ==> PcOk(s, pcs[t])
    ensures TotalLeft(pcs, n) >= 0
  {
    if pcs != [] {
      TotalPositive(s, pcs[..|pcs| - 1], n);
      assert PcOk(s, pcs[|pcs| - 1]);
      hide Absent;
    }
  }

  ghost predicate WorksOf(s: State, s': State, t: nat) {
    t < |s.pcs| && IsActive(s.pcs[t]) && Safe(s, t) && MayTake(s, t) && s' == Step(s, t)
  }

  lemma StepMovesOne(s: State, s': State, t: nat)
    requires Inv(s) && WorksOf(s, s', t)
    ensures t < |s'.pcs| && s'.pcs == s.pcs[t := s'.pcs[t]]
    ensures s'.linked == s.linked + if s.pcs[t].Linking? then 1 else 0
    ensures s.pcs[t].Linking? <==> MayBuild(s.pcs[t]) && s'.pcs[t].Tailing?
    ensures MayBuild(s'.pcs[t]) ==> MayBuild(s.pcs[t])
  {
    assert PcOk(s, s.pcs[t]);
    hide Inv, Absent;
  }

  /** A step takes the thread nearer to its end, however far the list grows. */
  lemma StepsRunOut(s: State, s': State, t: nat, n: nat)
    requires Inv(s) && WorksOf(s, s', t) && s.linked <= n
    ensures t < |s'.pcs| && StepsLeft(s'.pcs[t], n) < StepsLeft(s.pcs[t], n)
  {
    assert PcOk(s, s.pcs[t]);
    hide Inv, Absent;
  }

  /** The work left in a state. */
  function WorkLeft(s: State): int { TotalLeft(s.pcs, Longest(s)) }

  lemma WorkRunsOut(s: State, s': State, t: nat)
    requires Inv(s) && WorksOf(s, s', t)
    ensures WorkLeft(s') < WorkLeft(s)
  {
    StepMovesOne(s, s', t);
    StepsRunOut(s, s', t, Longest(s));
    hide WorksOf, Inv, StepsLeft, TotalLeft, Builders;
    TotalMoved(s.pcs, t, s'.pcs[t], Longest(s));
    assert Longest(s') <= Longest(s) by {
      hide MayBuild;
    }
    TotalGrows(s'.pcs, Longest(s'), Longest(s));
  }

  /** An operation under way goes on; nobody calls a new one. */
  ghost predicate SomeoneWorks(s: State, s': State) {
    exists t: nat :: WorksOf(s, s', t)
  }

  ghost predicate Works(run: seq<State>, k: nat)
    requires k + 1 < |run|
  {
    SomeoneWorks(run[k], run[k + 1])
  }

  lemma SomeWorkRunsOut(s: State, s': State)
    requires Inv(s) && SomeoneWorks(s, s')
    ensures WorkLeft(s') < WorkLeft(s)
  {
    hide WorksOf, WorkLeft, Inv;
    var t: nat :| WorksOf(s, s', t);
    WorkRunsOut(s, s', t);
  }

  lemma {:induction false} StepsTaken(threads: nat, run: seq<State>, i: nat, j: nat)
    requires IsRun(threads, run) && i <= j < |run| && forall k: nat :: i <= k < j ==> Works(run, k)
    ensures j - i <= WorkLeft(run[i]) - WorkLeft(run[j])
    decreases j
  {
    if i < j {
      hide SomeoneWorks, WorkLeft, Inv, IsRun;
      StepsTaken(threads, run, i, j - 1);
      RunKeeps(threads, run, j - 1);
      assert Works(run, j - 1);
      SomeWorkRunsOut(run[j - 1], run[j]);
    }
  }

  lemma {:induction false} WorkBounded(pcs: seq<Pc>, n: nat)
    ensures Builders(pcs) <= |pcs| && TotalLeft(pcs, n) <= |pcs| * (4 * n + 7)
  {
    if pcs != [] {
      var before := pcs[..|pcs| - 1];
      WorkBounded(before, n);
      assert StepsLeft(pcs[|pcs| - 1], n) <= 4 * n + 7;
      assert |pcs| * (4 * n + 7) == |before| * (4 * n + 7) + (4 * n + 7);
    }
  }

  /** Without new calls a run ends within the work left, and when nobody can move any more every lookup and creation
      has its result. */
  lemma RunsEnd(threads: nat, run: seq<State>, i: nat, j: nat)
    requires IsRun(threads, run) && i <= j < |run| && forall k: nat :: i <= k < j ==> Works(run, k)
    ensures j - i <= WorkLeft(run[i]) <= |run[i].pcs| * (4 * Longest(run[i]) + 7)
    ensures Longest(run[i]) <= run[i].linked + |run[i].pcs|
    ensures (forall t: nat :: t < |run[j].pcs| ==> !CanMove(run[j], t)) ==>
              forall t: nat :: t < |run[j].pcs| ==> !IsActive(run[j].pcs[t])
  {
    StepsTaken(threads, run, i, j);
    RunKeeps(threads, run, j);
    TotalPositive(run[j], run[j].pcs, Longest(run[j]));
    WorkBounded(run[i].pcs, Longest(run[i]));
    if t: nat :| t < |run[j].pcs| && IsActive(run[j].pcs[t]) {
      var u := DeadlockFree(threads, run, j, t);
    }
  }
}
