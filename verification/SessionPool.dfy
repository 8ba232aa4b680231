/**
 * The SSH session pool: four slots, one acceptor, one task per occupied slot, one mutex.
 * Every transition below is one atomic load or store of the C++ code (or taking or giving
 * the mutex), so that the count scan, the selection scan and the teardown interleave freely
 * with everything that does not need the mutex.
 */
module SessionPool {
  import opened Common

  const MAX_SESSIONS: nat := 3
  const SLOTS: nat := 4

  /** Where a slot's session task stands. `Idle`: the slot has no task. */
  datatype Pc =
    | Idle
    | Handshake                                     // key exchange and authentication
    | WantLock                                      // `authenticated` stored, mutex not yet taken
    | CountInUse(k: nat, count: nat)                // activeSessionCount(): about to load inUse
    | CountAuth(k: nat, count: nat)                 // ... and then authenticated
    | PickInUse(k: nat, oldest: Option<nat>)        // selection scan: the three flag loads ...
    | PickAuth(k: nat, oldest: Option<nat>)
    | PickEvict(k: nat, oldest: Option<nat>)
    | PickTime(k: nat, oldest: Option<nat>)         // ... and the comparison of accept times
    | StoreEvict(victim: nat)
    | GiveLock
    | Serving
    | ClearAuth                                     // teardown: three stores outside the mutex
    | ClearEvict
    | ClearInUse

  /** The acceptor thread. */
  datatype Acceptor =
    | Waiting
    | ScanInUse(k: nat)                             // acquireSlot(), holding the mutex
    | Release(got: Option<nat>)                     // slot found (inUse stored) or none free
    | Setup(slot: nat)                              // about to store startedMs
    | Spawn(slot: nat)                              // about to create the task

  datatype Holder = Free | HeldByAcceptor | HeldByTask(task: nat)

  /** One slot. `accepted` is the true accept time; the code stores `Wrap32(accepted)`. */
  datatype Slot = Slot(inUse: bool, authenticated: bool, evict: bool, accepted: nat, pc: Pc)

  datatype State = State(slots: seq<Slot>, acceptor: Acceptor, mutex: Holder)

  datatype Event =
    | AcceptorMoves(now: nat, spawned: bool)
    | TaskMoves(task: nat, authOk: bool)

  const FREE_SLOT := Slot(false, false, false, 0, Idle)

  function Init(): State {
    State([FREE_SLOT, FREE_SLOT, FREE_SLOT, FREE_SLOT], Waiting, Free)
  }

  function Put(s: State, j: nat, slot: Slot): State
    requires j < |s.slots|
  {
    s.(slots := s.slots[j := slot])
  }

  function Goto(s: State, j: nat, pc: Pc): State
    requires j < |s.slots|
  {
    Put(s, j, s.slots[j].(pc := pc))
  }

  function AcceptorStep(s: State, now: nat, spawned: bool): State
    requires |s.slots| == SLOTS
  {
    match s.acceptor
    case Waiting =>
      if s.mutex.Free? then s.(acceptor := ScanInUse(0), mutex := HeldByAcceptor) else s
    case ScanInUse(k) =>
      if k >= SLOTS then s.(acceptor := Release(None))
      else if s.slots[k].inUse then s.(acceptor := ScanInUse(k + 1))
      else Put(s, k, s.slots[k].(inUse := true)).(acceptor := Release(Some(k)))
    case Release(got) =>
      s.(acceptor := if got.Some? then Setup(got.value) else Waiting, mutex := Free)
    case Setup(k) =>
      if k < SLOTS then Put(s, k, s.slots[k].(accepted := now)).(acceptor := Spawn(k)) else s
    case Spawn(k) =>
      if k >= SLOTS then s
      else if spawned then Goto(s, k, Handshake).(acceptor := Waiting)
      else Put(s, k, s.slots[k].(inUse := false)).(acceptor := Waiting)
  }

  /** `oldest == nullptr || (int32_t)(candidate.startedMs - oldest->startedMs) < 0`. */
  function BetterOf(s: State, k: nat, oldest: Option<nat>): (o: Option<nat>)
    requires k < |s.slots| && (oldest.Some? ==> oldest.value < |s.slots|)
    ensures o == Some(k) || (o == oldest && o.Some?)
  {
    if oldest.None? ||
       Earlier32(Wrap32(s.slots[k].accepted), Wrap32(s.slots[oldest.value].accepted))
    then Some(k) else oldest
  }

  function TaskStep(s: State, t: nat, authOk: bool): State
    requires |s.slots| == SLOTS && t < SLOTS
  {
    var me := s.slots[t];
    match me.pc
    case Idle => s
    case Handshake =>
      if authOk then Put(s, t, me.(authenticated := true, pc := WantLock)) else Goto(s, t, ClearAuth)
    case WantLock =>
      if s.mutex.Free? then Goto(s, t, CountInUse(0, 0)).(mutex := HeldByTask(t)) else s
    case CountInUse(k, c) =>
      if k >= SLOTS then Goto(s, t, if c > MAX_SESSIONS then PickInUse(0, None) else GiveLock)
      else Goto(s, t, if s.slots[k].inUse then CountAuth(k, c) else CountInUse(k + 1, c))
    case CountAuth(k, c) =>
      if k >= SLOTS then s
      else Goto(s, t, CountInUse(k + 1, if s.slots[k].authenticated then c + 1 else c))
    case PickInUse(k, o) =>
      if k >= SLOTS then Goto(s, t, if o.Some? then StoreEvict(o.value) else GiveLock)
      else Goto(s, t, if k == t || !s.slots[k].inUse then PickInUse(k + 1, o) else PickAuth(k, o))
    case PickAuth(k, o) =>
      if k >= SLOTS then s
      else Goto(s, t, if s.slots[k].authenticated then PickEvict(k, o) else PickInUse(k + 1, o))
    case PickEvict(k, o) =>
      if k >= SLOTS then s
      else Goto(s, t, if s.slots[k].evict then PickInUse(k + 1, o) else PickTime(k, o))
    case PickTime(k, o) =>
      if k >= SLOTS || (o.Some? && o.value >= SLOTS) then s
      else Goto(s, t, PickInUse(k + 1, BetterOf(s, k, o)))
    case StoreEvict(v) =>
      if v >= SLOTS then s
      else
        Goto(Put(s, v, s.slots[v].(evict := true)), t, GiveLock)
    case GiveLock => Goto(s, t, Serving).(mutex := Free)
    case Serving => Goto(s, t, ClearAuth)
    case ClearAuth => Put(s, t, me.(authenticated := false, pc := ClearEvict))
    case ClearEvict => Put(s, t, me.(evict := false, pc := ClearInUse))
    case ClearInUse => Put(s, t, me.(inUse := false, pc := Idle))
  }

  /** One atomic action of one thread; an event that is not possible in `s` changes nothing. */
  function Next(s: State, e: Event): (s': State)
    requires |s.slots| == SLOTS
    ensures |s'.slots| == SLOTS
  {
    match e
    case AcceptorMoves(now, spawned) => AcceptorStep(s, now, spawned)
    case TaskMoves(t, authOk) => if t < SLOTS then TaskStep(s, t, authOk) else s
  }

  function Run(s: State, es: seq<Event>): (s': State)
    requires |s.slots| == SLOTS
    ensures |s'.slots| == SLOTS
    decreases |es|
  {
    if es == [] then s else Run(Next(s, es[0]), es[1..])
  }

  // ------------------------------------------------------------------------------------
  // The invariant
  // ------------------------------------------------------------------------------------

  /** The task holds the pool mutex. */
  ghost predicate InSection(pc: Pc) {
    pc.CountInUse? || pc.CountAuth? || pc.PickInUse? || pc.PickAuth? || pc.PickEvict? ||
    pc.PickTime? || pc.StoreEvict? || pc.GiveLock?
  }

  /** Authenticated, but its eviction critical section is not finished. */
  ghost predicate BeforeExit(pc: Pc) {
    pc.WantLock? || InSection(pc)
  }

  /** Authenticated, past its critical section and not told to leave: a session that counts. */
  ghost predicate Settled(slot: Slot) {
    slot.authenticated && !slot.evict && (slot.pc.Serving? || slot.pc.ClearAuth?)
  }

  /** The acceptor has claimed slot k and not yet created its task. */
  ghost predicate Claimed(s: State, k: nat) {
    s.acceptor == Release(Some(k)) || s.acceptor == Setup(k) || s.acceptor == Spawn(k)
  }

  ghost predicate Shape(s: State) {
    && |s.slots| == SLOTS
    && (s.acceptor.ScanInUse? || s.acceptor.Release? <==> s.mutex.HeldByAcceptor?)
    && (s.acceptor.ScanInUse? ==> s.acceptor.k <= SLOTS)
    && (s.acceptor.Setup? || s.acceptor.Spawn? ==> s.acceptor.slot < SLOTS)
    && (s.acceptor.Release? && s.acceptor.got.Some? ==> s.acceptor.got.value < SLOTS)
    && (s.mutex.HeldByTask? ==> s.mutex.task < SLOTS)
    && (forall j: nat | j < SLOTS :: SlotShape(s, j))
  }

  ghost predicate SlotShape(s: State, j: nat)
    requires j < |s.slots|
  {
    var slot := s.slots[j];
    && (InSection(slot.pc) <==> s.mutex == HeldByTask(j))
    && (slot.inUse <==> !slot.pc.Idle? || Claimed(s, j))
    && (Claimed(s, j) ==> slot.pc.Idle?)
    && (BeforeExit(slot.pc) || slot.pc.Serving? ==> slot.authenticated)
    && (slot.authenticated ==> BeforeExit(slot.pc) || slot.pc.Serving? || slot.pc.ClearAuth?)
  }

  /** While t holds the mutex this can only turn from true to false. */
  ghost predicate OthersSettled(s: State, t: nat)
    requires |s.slots| == SLOTS
  {
    forall i: nat | i < SLOTS && i != t :: Settled(s.slots[i])
  }

  /** A slot that the selection scan may have chosen: it cannot be handed out meanwhile. */
  ghost predicate Choosable(s: State, t: nat, o: Option<nat>)
    requires |s.slots| == SLOTS
  {
    o.Some? ==> o.value < SLOTS && o.value != t && !Claimed(s, o.value) &&
                !s.slots[o.value].pc.Handshake?
  }

  /** What the task that holds the mutex knows at each point of its critical section. */
  ghost predicate SectionKnows(s: State, t: nat)
    requires |s.slots| == SLOTS && t < SLOTS
  {
    match s.slots[t].pc
    case CountInUse(k, c) => k <= SLOTS && (OthersSettled(s, t) ==> c >= k)
    case CountAuth(k, c) => k < SLOTS && (OthersSettled(s, t) ==> c >= k)
    case PickInUse(k, o) => k <= SLOTS && Choosable(s, t, o) && (OthersSettled(s, t) && Seen(t, k) ==> o.Some?)
    case PickAuth(k, o) => k < SLOTS && k != t && Choosable(s, t, o) && (OthersSettled(s, t) && Seen(t, k) ==> o.Some?)
    case PickEvict(k, o) => k < SLOTS && k != t && Choosable(s, t, o) && Choosable(s, t, Some(k)) && (OthersSettled(s, t) && Seen(t, k) ==> o.Some?)
    case PickTime(k, o) => k < SLOTS && k != t && Choosable(s, t, o) && Choosable(s, t, Some(k))
    case StoreEvict(v) => Choosable(s, t, Some(v))
    case GiveLock => !OthersSettled(s, t)
    case _ => true
  }

  /** Some slot below k is not t. */
  ghost predicate Seen(t: nat, k: nat) {
    k >= 2 || (k == 1 && t != 0)
  }

  ghost predicate Inv(s: State) {
    && Shape(s)
    && (forall t: nat | t < SLOTS :: SectionKnows(s, t))
    && (exists i: nat :: i < SLOTS && !Settled(s.slots[i]))
  }

  lemma InitInv()
    ensures Inv(Init())
  {
    assert !Settled(Init().slots[0]);
  }

  /** The acceptor never changes a slot's task position or session flags, apart from a spawn. */
  lemma AcceptorFrame(s: State, now: nat, spawned: bool, j: nat)
    requires Shape(s) && j < SLOTS
    ensures var s' := AcceptorStep(s, now, spawned);
            && |s'.slots| == SLOTS
            && SlotShape(s', j)
            && (Settled(s'.slots[j]) <==> Settled(s.slots[j]))
            && (s'.slots[j].pc == s.slots[j].pc || (s.slots[j].pc.Idle? && s'.slots[j].pc.Handshake?))
            && (s.mutex.HeldByTask? && Claimed(s', j) ==> Claimed(s, j))
            && (!Claimed(s, j) ==> s'.slots[j].pc == s.slots[j].pc && s'.slots[j].accepted == s.slots[j].accepted)
  {
    assert SlotShape(s, j);
  }

  lemma AcceptorKeepsInv(s: State, now: nat, spawned: bool)
    requires Inv(s)
    ensures Inv(AcceptorStep(s, now, spawned))
  {
    var s' := AcceptorStep(s, now, spawned);
    forall j: nat | j < SLOTS
      ensures SlotShape(s', j) && (Settled(s'.slots[j]) <==> Settled(s.slots[j]))
    {
      AcceptorFrame(s, now, spawned, j);
    }
    var i: nat :| i < SLOTS && !Settled(s.slots[i]);
    assert !Settled(s'.slots[i]);
    forall t: nat | t < SLOTS ensures SectionKnows(s', t) {
      AcceptorKeepsSection(s, now, spawned, t);
    }
  }

  lemma AcceptorKeepsSection(s: State, now: nat, spawned: bool, t: nat)
    requires Shape(s) && t < SLOTS && SectionKnows(s, t)
    ensures SectionKnows(AcceptorStep(s, now, spawned), t)
  {
    var s' := AcceptorStep(s, now, spawned);
    AcceptorFrame(s, now, spawned, t);
    assert SlotShape(s, t);
    forall j: nat | j < SLOTS
      ensures Settled(s'.slots[j]) <==> Settled(s.slots[j])
      ensures s.mutex.HeldByTask? && !Claimed(s, j) ==> !Claimed(s', j) && s'.slots[j].pc == s.slots[j].pc
    {
      AcceptorFrame(s, now, spawned, j);
    }
    assert OthersSettled(s', t) <==> OthersSettled(s, t);
    if InSection(s.slots[t].pc) {
      SectionSurvives(s, s', t);
    }
  }

  /** The mutex is taken and given only at the two ends of the critical section. */
  lemma TaskMutex(s: State, t: nat, authOk: bool)
    requires Shape(s) && t < SLOTS && SectionKnows(s, t)
    ensures var s' := TaskStep(s, t, authOk);
            && |s'.slots| == SLOTS && s'.acceptor == s.acceptor
            && (InSection(s'.slots[t].pc) <==> s'.mutex == HeldByTask(t))
            && (s.mutex != HeldByTask(t) && s'.mutex != HeldByTask(t) ==> s'.mutex == s.mutex)
            && (s'.mutex == HeldByTask(t) || s.mutex == HeldByTask(t) || s'.mutex == s.mutex)
            && (s.mutex == HeldByTask(t) ==> s'.mutex == HeldByTask(t) || s'.mutex == Free)
            && (s'.mutex == HeldByTask(t) ==> s.mutex == HeldByTask(t) || s.mutex == Free)
  {
    assert SlotShape(s, t);
  }

  /** The stores a task makes outside StoreEvict reach its own slot only. */
  lemma TaskTouches(s: State, t: nat, authOk: bool, j: nat)
    requires Shape(s) && t < SLOTS && j < SLOTS && j != t && SectionKnows(s, t)
    ensures var s' := TaskStep(s, t, authOk);
            && |s'.slots| == SLOTS
            && (if s.slots[t].pc == StoreEvict(j)
                then s'.slots[j] == s.slots[j].(evict := true)
                else s'.slots[j] == s.slots[j])
  {
  }

  /** What a task's step may do to any slot: only the moving task can settle, and only by giving the lock. */
  lemma TaskFrame(s: State, t: nat, authOk: bool, j: nat)
    requires Shape(s) && t < SLOTS && j < SLOTS && SectionKnows(s, t)
    ensures var s' := TaskStep(s, t, authOk);
            && |s'.slots| == SLOTS && s'.acceptor == s.acceptor
            && SlotShape(s', j)
            && s'.slots[j].accepted == s.slots[j].accepted
            && (j != t ==> s'.slots[j].pc == s.slots[j].pc)
            && (s'.slots[j].pc.Handshake? ==> s.slots[j].pc.Handshake?)
            && (Settled(s'.slots[j]) ==> Settled(s.slots[j]) || (j == t && s.slots[t].pc.GiveLock?))
  {
    assert SlotShape(s, j) && SlotShape(s, t);
    TaskMutex(s, t, authOk);
    if j != t {
      TaskTouches(s, t, authOk, j);
    } else {
      OwnFrame(s, t, authOk);
    }
  }

  lemma OwnFrame(s: State, t: nat, authOk: bool)
    requires Shape(s) && t < SLOTS && SectionKnows(s, t)
    ensures var s' := TaskStep(s, t, authOk);
            && |s'.slots| == SLOTS && s'.acceptor == s.acceptor
            && SlotShape(s', t)
            && s'.slots[t].accepted == s.slots[t].accepted
            && (s'.slots[t].pc.Handshake? ==> s.slots[t].pc.Handshake?)
            && (Settled(s'.slots[t]) ==> Settled(s.slots[t]) || s.slots[t].pc.GiveLock?)
  {
    assert SlotShape(s, t);
  }

  /** A task's knowledge survives whatever others do: its premises can only become stronger. */
  lemma SectionSurvives(s: State, s': State, u: nat)
    requires |s.slots| == |s'.slots| == SLOTS && u < SLOTS && SectionKnows(s, u)
    requires s'.slots[u].pc == s.slots[u].pc
    requires OthersSettled(s', u) ==> OthersSettled(s, u)
    requires forall v: nat :: Choosable(s, u, Some(v)) ==> Choosable(s', u, Some(v))
    ensures SectionKnows(s', u)
  {
  }

  lemma TaskKeepsOthersSection(s: State, t: nat, authOk: bool, u: nat)
    requires Shape(s) && t < SLOTS && u < SLOTS && u != t && SectionKnows(s, t) && SectionKnows(s, u)
    ensures SectionKnows(TaskStep(s, t, authOk), u)
  {
    var s' := TaskStep(s, t, authOk);
    assert SlotShape(s, u) && SlotShape(s, t);
    TaskTouches(s, t, authOk, u);
    if InSection(s.slots[u].pc) {
      assert !InSection(s.slots[t].pc);
      forall j: nat | j < SLOTS
        ensures Settled(s'.slots[j]) ==> Settled(s.slots[j])
        ensures s'.slots[j].pc.Handshake? ==> s.slots[j].pc.Handshake?
      {
        TaskFrame(s, t, authOk, j);
      }
      SectionSurvives(s, s', u);
    }
  }

  /** The count scan: when everybody else is settled, no slot fails to be counted. */
  lemma CountAdvances(s: State, t: nat, authOk: bool)
    requires Shape(s) && t < SLOTS && SectionKnows(s, t)
    requires s.slots[t].pc.WantLock? || s.slots[t].pc.CountInUse? || s.slots[t].pc.CountAuth?
    ensures SectionKnows(TaskStep(s, t, authOk), t)
  {
    var s' := TaskStep(s, t, authOk);
    assert SlotShape(s, t);
    assert OthersSettled(s', t) <==> OthersSettled(s, t) by { SameOthers(s, t, authOk); }
    if (s.slots[t].pc.CountInUse? || s.slots[t].pc.CountAuth?) && s.slots[t].pc.k < SLOTS && OthersSettled(s, t) {
      var k := s.slots[t].pc.k;
      assert SlotShape(s, k);
      assert k == t || Settled(s.slots[k]);
    }
  }

  /** The selection scan: a settled slot is never skipped, so it leaves a victim behind. */
  lemma PickAdvances(s: State, t: nat, authOk: bool)
    requires Shape(s) && t < SLOTS && SectionKnows(s, t)
    requires s.slots[t].pc.PickInUse? || s.slots[t].pc.PickAuth? || s.slots[t].pc.PickEvict? || s.slots[t].pc.PickTime?
    ensures SectionKnows(TaskStep(s, t, authOk), t)
  {
    var s' := TaskStep(s, t, authOk);
    var k := s.slots[t].pc.k;
    assert SlotShape(s, t);
    assert OthersSettled(s', t) <==> OthersSettled(s, t) by { SameOthers(s, t, authOk); }
    if k < SLOTS {
      assert SlotShape(s, k);
      if OthersSettled(s, t) {
        assert k == t || Settled(s.slots[k]);
      }
    }
  }

  lemma SameOthers(s: State, t: nat, authOk: bool)
    requires Shape(s) && t < SLOTS && SectionKnows(s, t) && !s.slots[t].pc.StoreEvict?
    ensures OthersSettled(TaskStep(s, t, authOk), t) <==> OthersSettled(s, t)
  {
    var s' := TaskStep(s, t, authOk);
    assert forall i: nat | i < SLOTS && i != t :: s'.slots[i] == s.slots[i];
  }

  lemma TaskKeepsOwnSection(s: State, t: nat, authOk: bool)
    requires Shape(s) && t < SLOTS && SectionKnows(s, t)
    ensures SectionKnows(TaskStep(s, t, authOk), t)
  {
    var pc := s.slots[t].pc;
    if pc.WantLock? || pc.CountInUse? || pc.CountAuth? {
      CountAdvances(s, t, authOk);
    } else if pc.PickInUse? || pc.PickAuth? || pc.PickEvict? || pc.PickTime? {
      PickAdvances(s, t, authOk);
    } else if pc.StoreEvict? {
      assert !Settled(TaskStep(s, t, authOk).slots[pc.victim]);
    }
  }

  lemma TaskKeepsInv(s: State, t: nat, authOk: bool)
    requires Inv(s) && t < SLOTS
    ensures Inv(TaskStep(s, t, authOk))
  {
    var s' := TaskStep(s, t, authOk);
    assert SectionKnows(s, t) && SlotShape(s, t);
    TaskMutex(s, t, authOk);
    forall j: nat | j < SLOTS
      ensures SlotShape(s', j)
      ensures SectionKnows(s', j)
      ensures Settled(s'.slots[j]) ==> Settled(s.slots[j]) || (j == t && s.slots[t].pc.GiveLock?)
    {
      TaskFrame(s, t, authOk, j);
      if j == t { TaskKeepsOwnSection(s, t, authOk); } else { TaskKeepsOthersSection(s, t, authOk, j); }
    }
    if s.slots[t].pc.GiveLock? {
      var i: nat :| i < SLOTS && i != t && !Settled(s.slots[i]);
      assert !Settled(s'.slots[i]);
    } else {
      var i: nat :| i < SLOTS && !Settled(s.slots[i]);
      assert !Settled(s'.slots[i]);
    }
  }

  lemma NextKeepsInv(s: State, e: Event)
    requires Inv(s)
    ensures Inv(Next(s, e))
  {
    match e
    case AcceptorMoves(now, spawned) => AcceptorKeepsInv(s, now, spawned);
    case TaskMoves(t, authOk) => if t < SLOTS { TaskKeepsInv(s, t, authOk); }
  }

  lemma {:induction false} RunKeepsInv(s: State, es: seq<Event>)
    requires Inv(s)
    ensures Inv(Run(s, es))
    decreases |es|
  {
    if es != [] {
      NextKeepsInv(s, es[0]);
      RunKeepsInv(Next(s, es[0]), es[1..]);
    }
  }

  // ------------------------------------------------------------------------------------
  // The pool bound
  // ------------------------------------------------------------------------------------

  /** In use, authenticated and not told to leave: one of the sessions the pool promises to bound. */
  predicate Staying(slot: Slot) {
    slot.inUse && slot.authenticated && !slot.evict
  }

  function CountStaying(slots: seq<Slot>): (n: nat)
    ensures n <= |slots|
  {
    if slots == [] then 0 else (if Staying(slots[0]) then 1 else 0) + CountStaying(slots[1..])
  }

  lemma {:induction false} CountBelow(slots: seq<Slot>, i: nat)
    requires i < |slots| && !Staying(slots[i])
    ensures CountStaying(slots) < |slots|
  {
    if i > 0 { CountBelow(slots[1..], i - 1); }
  }

  /** If all four slots hold staying sessions, one of them has not finished its critical section. */
  lemma FourStayingMeansOnePending(es: seq<Event>)
    requires forall i: nat | i < SLOTS :: Staying(Run(Init(), es).slots[i])
    ensures exists i: nat :: i < SLOTS && BeforeExit(Run(Init(), es).slots[i].pc)
  {
    InitInv();
    RunKeepsInv(Init(), es);
    UnsettledMeansPending(Run(Init(), es));
  }

  lemma UnsettledMeansPending(s: State)
    requires Inv(s) && forall i: nat | i < SLOTS :: Staying(s.slots[i])
    ensures exists i: nat :: i < SLOTS && BeforeExit(s.slots[i].pc)
  {
    var i: nat :| i < SLOTS && !Settled(s.slots[i]);
    assert SlotShape(s, i) && Staying(s.slots[i]);
    assert BeforeExit(s.slots[i].pc);
  }

  /** Once every authenticated session has passed its critical section, at most three stay. */
  lemma AtMostThreeStay(es: seq<Event>)
    requires forall i: nat | i < SLOTS ::
               Run(Init(), es).slots[i].authenticated ==> !BeforeExit(Run(Init(), es).slots[i].pc)
    ensures CountStaying(Run(Init(), es).slots) <= MAX_SESSIONS
  {
    var s := Run(Init(), es);
    if forall i: nat | i < SLOTS :: Staying(s.slots[i]) {
      FourStayingMeansOnePending(es);
    } else {
      var i: nat :| i < SLOTS && !Staying(s.slots[i]);
      CountBelow(s.slots, i);
    }
  }

  // ------------------------------------------------------------------------------------
  // Who evicts whom
  // ------------------------------------------------------------------------------------

  /** A leave flag is only ever raised by another, authenticated session holding the mutex. */
  lemma OnlyOthersEvict(es: seq<Event>, e: Event, i: nat)
    requires i < SLOTS
    ensures var s := Run(Init(), es); var s' := Next(s, e);
               (s'.slots[i].evict && !s.slots[i].evict
                ==> && e.TaskMoves? && e.task < SLOTS && e.task != i
                    && s.slots[e.task].authenticated && s.mutex == HeldByTask(e.task)
                    && s.slots[e.task].pc == StoreEvict(i))
  {
    InitInv();
    RunKeepsInv(Init(), es);
    var s := Run(Init(), es);
    NextKeepsInv(s, e);
    match e
    case AcceptorMoves(_, _) =>
    case TaskMoves(t, _) => if t < SLOTS { assert SlotShape(s, t) && SectionKnows(s, t); }
  }

  /** The victim held by a scan, and the slot it has seen authenticated and is looking at. */
  function Chosen(pc: Pc): Option<nat> {
    match pc
    case PickInUse(_, o) => o
    case PickAuth(_, o) => o
    case PickEvict(_, o) => o
    case PickTime(_, o) => o
    case StoreEvict(v) => Some(v)
    case _ => None
  }

  function LookingAt(pc: Pc): Option<nat> {
    match pc
    case PickEvict(k, _) => Some(k)
    case PickTime(k, _) => Some(k)
    case _ => None
  }

  /** The slots whose accept times matter while task t scans. */
  ghost predicate Compared(s: State, t: nat, i: nat)
    requires |s.slots| == SLOTS && t < SLOTS && i < SLOTS
  {
    s.slots[i].authenticated || Chosen(s.slots[t].pc) == Some(i) || LookingAt(s.slots[t].pc) == Some(i)
  }

  /** All those accept times lie within less than half a wrap of the 32-bit clock. */
  ghost predicate Windowed(s: State)
    requires |s.slots| == SLOTS
  {
    forall t: nat, i: nat, j: nat |
      t < SLOTS && i < SLOTS && j < SLOTS && Compared(s, t, i) && Compared(s, t, j) ::
      s.slots[i].accepted - s.slots[j].accepted < TWO31
  }

  ghost predicate AlwaysWindowed(s: State, es: seq<Event>)
    requires |s.slots| == SLOTS
    decreases |es|
  {
    Windowed(s) && (es != [] ==> AlwaysWindowed(Next(s, es[0]), es[1..]))
  }

  /** The selection scan and the store that ends it. */
  ghost predicate Picking(pc: Pc) {
    pc.PickInUse? || pc.PickAuth? || pc.PickEvict? || pc.PickTime? || pc.StoreEvict?
  }

  /** Throughout the run task t is in one and the same selection. */
  ghost predicate OneScan(s: State, es: seq<Event>, t: nat)
    requires |s.slots| == SLOTS && t < SLOTS
    decreases |es|
  {
    Picking(s.slots[t].pc) && (es != [] ==> OneScan(Next(s, es[0]), es[1..], t))
  }

  /** The scan has already passed slot i. */
  ghost predicate Passed(pc: Pc, i: nat) {
    match pc
    case PickInUse(k, _) => i < k
    case PickAuth(k, _) => i < k
    case PickEvict(k, _) => i < k
    case PickTime(k, _) => i < k
    case _ => true
  }

  /** The session in slot i still stays, or is on its way out; while t holds the mutex no other can take its place. */
  ghost predicate StaysOrLeaves(s: State, i: nat)
    requires |s.slots| == SLOTS && i < SLOTS
  {
    var slot := s.slots[i];
    || Staying(slot)
    || (!slot.authenticated && !Claimed(s, i) && (slot.pc.ClearEvict? || slot.pc.ClearInUse? || slot.pc.Idle?))
  }

  /** Accepted earlier, or at the same time in a lower slot. */
  predicate Precedes(s: State, a: nat, b: nat)
    requires a < |s.slots| && b < |s.slots|
  {
    s.slots[a].accepted < s.slots[b].accepted || (s.slots[a].accepted == s.slots[b].accepted && a <= b)
  }

  /** A scan's candidate is among the slots it has passed. */
  predicate InOrder(pc: Pc) {
    pc.PickInUse? || pc.PickAuth? || pc.PickEvict? || pc.PickTime? ==> pc.oldest.Some? ==> pc.oldest.value < pc.k
  }

  /** If the session in slot i stays and has been passed, the candidate precedes it. */
  ghost predicate NoYoungerThan(s: State, t: nat, i: nat)
    requires |s.slots| == SLOTS && t < SLOTS && i < SLOTS
  {
    var pc := s.slots[t].pc;
    var o := Chosen(pc);
    InOrder(pc) && (Staying(s.slots[i]) && Passed(pc, i) ==> o.Some? && o.value < SLOTS && Precedes(s, o.value, i))
  }

  /** What others do cannot bring a session in, nor change the accept times that the scan compares. */
  lemma OthersKeepSlot(s: State, e: Event, t: nat, i: nat)
    requires Inv(s) && t < SLOTS && i < SLOTS && i != t && Picking(s.slots[t].pc)
    requires (e.TaskMoves? ==> e.task != t) && StaysOrLeaves(s, i)
    ensures var s' := Next(s, e);
            && StaysOrLeaves(s', i) && s'.slots[t].pc == s.slots[t].pc
            && (Staying(s'.slots[i]) ==> Staying(s.slots[i]) && s'.slots[i].accepted == s.slots[i].accepted)
  {
    assert SlotShape(s, i) && SlotShape(s, t);
    match e
    case AcceptorMoves(now, spawned) =>
      AcceptorFrame(s, now, spawned, i);
      AcceptorFrame(s, now, spawned, t);
      hide Inv, SectionKnows, TaskStep;
    case TaskMoves(u, authOk) =>
      if u < SLOTS {
        assert SlotShape(s, u) && SectionKnows(s, u);
        TaskTouches(s, u, authOk, t);
        if u == i { hide Inv, AcceptorStep; } else { TaskTouches(s, u, authOk, i); hide TaskStep, Inv, AcceptorStep; }
      }
  }

  lemma OthersKeepCandidate(s: State, e: Event, t: nat)
    requires Inv(s) && t < SLOTS && Picking(s.slots[t].pc) && (e.TaskMoves? ==> e.task != t)
    ensures var o := Chosen(s.slots[t].pc);
            o.Some? ==> o.value < SLOTS && Next(s, e).slots[o.value].accepted == s.slots[o.value].accepted
  {
    assert SlotShape(s, t) && SectionKnows(s, t);
    var o := Chosen(s.slots[t].pc);
    if o.Some? {
      match e
      case AcceptorMoves(now, spawned) => AcceptorFrame(s, now, spawned, o.value);
      case TaskMoves(u, authOk) =>
        if u < SLOTS { assert SectionKnows(s, u); TaskFrame(s, u, authOk, o.value); }
    }
  }

  lemma OthersKeepOldest(s: State, e: Event, t: nat, i: nat)
    requires Inv(s) && t < SLOTS && i < SLOTS && i != t && Picking(s.slots[t].pc)
    requires (e.TaskMoves? ==> e.task != t) && StaysOrLeaves(s, i) && NoYoungerThan(s, t, i)
    ensures StaysOrLeaves(Next(s, e), i) && NoYoungerThan(Next(s, e), t, i)
  {
    OthersKeepSlot(s, e, t, i);
    OthersKeepCandidate(s, e, t);
    hide Next, Inv, StaysOrLeaves;
  }

  /** A flag load of the scan: a staying session is not skipped. */
  lemma FlagStepKeepsOldest(s: State, t: nat, i: nat, authOk: bool)
    requires |s.slots| == SLOTS && t < SLOTS && i < SLOTS && i != t && SectionKnows(s, t)
    requires s.slots[t].pc.PickInUse? || s.slots[t].pc.PickAuth? || s.slots[t].pc.PickEvict?
    requires Picking(TaskStep(s, t, authOk).slots[t].pc) && StaysOrLeaves(s, i) && NoYoungerThan(s, t, i)
    ensures StaysOrLeaves(TaskStep(s, t, authOk), i) && NoYoungerThan(TaskStep(s, t, authOk), t, i)
  {
    var s' := TaskStep(s, t, authOk);
    assert forall j: nat | j < SLOTS && j != t :: s'.slots[j] == s.slots[j];
    assert s'.slots[t].accepted == s.slots[t].accepted;
    hide OthersSettled, Seen, BetterOf;
    match s.slots[t].pc
    case PickInUse(_, _) =>
    case _ =>
  }

  /** The comparison, right thanks to the window. */
  lemma TimeStepKeepsOldest(s: State, t: nat, i: nat, authOk: bool)
    requires |s.slots| == SLOTS && t < SLOTS && i < SLOTS && i != t && SectionKnows(s, t) && Windowed(s)
    requires s.slots[t].pc.PickTime? && StaysOrLeaves(s, i) && NoYoungerThan(s, t, i)
    ensures StaysOrLeaves(TaskStep(s, t, authOk), i) && NoYoungerThan(TaskStep(s, t, authOk), t, i)
  {
    var s' := TaskStep(s, t, authOk);
    assert forall j: nat | j < SLOTS && j != t :: s'.slots[j] == s.slots[j];
    assert s'.slots[t].accepted == s.slots[t].accepted;
    if s.slots[t].pc.oldest.Some? { ComparesTrueTimes(s, t); }
    hide OthersSettled, Seen, Windowed, Earlier32;
  }

  lemma OwnStepKeepsOldest(s: State, t: nat, i: nat, authOk: bool)
    requires Inv(s) && t < SLOTS && i < SLOTS && i != t && Windowed(s)
    requires Picking(s.slots[t].pc) && Picking(TaskStep(s, t, authOk).slots[t].pc)
    requires StaysOrLeaves(s, i) && NoYoungerThan(s, t, i)
    ensures StaysOrLeaves(TaskStep(s, t, authOk), i) && NoYoungerThan(TaskStep(s, t, authOk), t, i)
  {
    assert SectionKnows(s, t);
    if s.slots[t].pc.StoreEvict? { StoringEnds(s, t, authOk); }
    hide Inv, Windowed, TaskStep, SectionKnows, StaysOrLeaves, NoYoungerThan;
    if s.slots[t].pc.PickTime? { TimeStepKeepsOldest(s, t, i, authOk); } else { FlagStepKeepsOldest(s, t, i, authOk); }
  }

  lemma StoringEnds(s: State, t: nat, authOk: bool)
    requires |s.slots| == SLOTS && t < SLOTS && SectionKnows(s, t) && s.slots[t].pc.StoreEvict?
    ensures !Picking(TaskStep(s, t, authOk).slots[t].pc)
  {
  }

  lemma ComparesTrueTimes(s: State, t: nat)
    requires |s.slots| == SLOTS && t < SLOTS && Windowed(s)
    requires s.slots[t].pc.PickTime? && s.slots[t].pc.k < SLOTS
    requires s.slots[t].pc.oldest.Some? && s.slots[t].pc.oldest.value < SLOTS
    ensures var k, o := s.slots[t].pc.k, s.slots[t].pc.oldest.value;
            Earlier32(Wrap32(s.slots[k].accepted), Wrap32(s.slots[o].accepted)) <==> s.slots[k].accepted < s.slots[o].accepted
  {
    var k, o := s.slots[t].pc.k, s.slots[t].pc.oldest.value;
    assert Compared(s, t, k) && Compared(s, t, o);
    assert s.slots[k].accepted - s.slots[o].accepted < TWO31 && s.slots[o].accepted - s.slots[k].accepted < TWO31;
    Earlier32Exact(s.slots[k].accepted, s.slots[o].accepted);
  }

  lemma {:induction false} ScanKeepsOldest(s: State, es: seq<Event>, t: nat, i: nat)
    requires |s.slots| == SLOTS && Inv(s) && t < SLOTS && i < SLOTS && i != t && AlwaysWindowed(s, es) && OneScan(s, es, t)
    requires StaysOrLeaves(s, i) && NoYoungerThan(s, t, i)
    ensures StaysOrLeaves(Run(s, es), i) && NoYoungerThan(Run(s, es), t, i)
    decreases |es|
  {
    hide Windowed, StaysOrLeaves, NoYoungerThan, Picking, Inv;
    if es != [] {
      var e := es[0];
      assert OneScan(Next(s, e), es[1..], t);
      if e.TaskMoves? && e.task == t {
        OwnStepKeepsOldest(s, t, i, e.authOk);
      } else {
        OthersKeepOldest(s, e, t, i);
      }
      NextKeepsInv(s, e);
      ScanKeepsOldest(Next(s, e), es[1..], t, i);
    }
  }

  /** Nobody settles while another task is in its selection. */
  lemma {:induction false} SettledSinceScanStart(s: State, es: seq<Event>, t: nat, i: nat)
    requires Inv(s) && t < SLOTS && i < SLOTS && i != t && OneScan(s, es, t)
    requires Settled(Run(s, es).slots[i])
    ensures Settled(s.slots[i])
    decreases |es|
  {
    hide Picking, Settled;
    if es != [] {
      NextKeepsInv(s, es[0]);
      SettledSinceScanStart(Next(s, es[0]), es[1..], t, i);
      SettledBefore(s, es[0], t, i);
    }
  }

  lemma SettledBefore(s: State, e: Event, t: nat, i: nat)
    requires Inv(s) && t < SLOTS && i < SLOTS && i != t && Picking(s.slots[t].pc) && Settled(Next(s, e).slots[i])
    ensures Settled(s.slots[i])
  {
    assert SlotShape(s, i) && SlotShape(s, t);
    match e
    case AcceptorMoves(now, spawned) => AcceptorFrame(s, now, spawned, i);
    case TaskMoves(u, authOk) =>
      if u < SLOTS { assert SectionKnows(s, u) && SlotShape(s, u); TaskFrame(s, u, authOk, i); }
  }

  /** One selection of task t, from its first load to the point of telling v to leave. */
  ghost predicate Selects(s: State, es: seq<Event>, t: nat, v: nat) {
    && Inv(s) && t < SLOTS && v < SLOTS && s.slots[t].pc == PickInUse(0, None)
    && AlwaysWindowed(s, es) && OneScan(s, es, t) && Run(s, es).slots[t].pc == StoreEvict(v)
  }

  lemma SelectionIsFair(s: State, es: seq<Event>, t: nat, v: nat, i: nat)
    requires Selects(s, es, t, v) && i < SLOTS && i != t && |s.slots| == SLOTS
    requires Staying(Run(s, es).slots[i]) && (Staying(s.slots[i]) || Settled(Run(s, es).slots[i]))
    ensures v != t && Precedes(Run(s, es), v, i)
  {
    hide Windowed, Inv;
    RunKeepsInv(s, es);
    if Settled(Run(s, es).slots[i]) {
      SettledSinceScanStart(s, es, t, i);
      SettledStays(s, i);
    }
    ScanKeepsOldest(s, es, t, i);
    VictimIsOther(Run(s, es), t, v);
  }

  /**
   * When an eviction is about to be stored, its victim was accepted before every other session that
   * stayed from the start of the selection until now, also one that is still waiting for the mutex;
   * every settled session is such a one. Equal times are decided by the slot. The scan need not be
   * atomic: sessions may leave, and new ones may authenticate, while it runs.
   */
  lemma VictimIsOldest(es1: seq<Event>, es2: seq<Event>, t: nat, v: nat, i: nat)
    requires t < SLOTS && v < SLOTS && i < SLOTS && i != t
    requires var s := Run(Init(), es1); s.slots[t].pc == PickInUse(0, None) && AlwaysWindowed(s, es2) && OneScan(s, es2, t)
    requires Run(Run(Init(), es1), es2).slots[t].pc == StoreEvict(v)
    requires Staying(Run(Run(Init(), es1), es2).slots[i])
    requires Staying(Run(Init(), es1).slots[i]) || Settled(Run(Run(Init(), es1), es2).slots[i])
    ensures v != t && Precedes(Run(Run(Init(), es1), es2), v, i)
  {
    InitInv();
    RunKeepsInv(Init(), es1);
    hide Inv, Run, AlwaysWindowed, OneScan;
    SelectionIsFair(Run(Init(), es1), es2, t, v, i);
  }

  // ------------------------------------------------------------------------------------
  // When a newcomer is the victim
  // ------------------------------------------------------------------------------------

  /** Every session that stays at the end of the selection also did at its start. */
  ghost predicate NobodyJoins(s: State, s': State, t: nat)
    requires |s.slots| == |s'.slots| == SLOTS
  {
    forall i: nat | i < SLOTS && i != t && Staying(s'.slots[i]) :: Staying(s.slots[i])
  }

  ghost predicate PrecedesTheRest(s: State, n: nat, t: nat)
    requires |s.slots| == SLOTS && n < SLOTS
  {
    forall i: nat | i < SLOTS && i != t && i != n && Staying(s.slots[i]) :: Precedes(s, n, i)
  }

  /**
   * "Two newcomers cannot pick each other" fails. In a selection during which nobody joins and the
   * victim does not leave, a session that stays, be it settled or a newcomer still waiting for the
   * mutex, is the victim exactly if it was accepted before all the others that stay.
   */
  lemma PickedExactlyWhenFirst(s: State, es: seq<Event>, t: nat, v: nat, n: nat)
    requires |s.slots| == SLOTS && Selects(s, es, t, v) && n < SLOTS && n != t && NobodyJoins(s, Run(s, es), t)
    requires Staying(Run(s, es).slots[n]) && Staying(Run(s, es).slots[v])
    ensures v == n <==> PrecedesTheRest(Run(s, es), n, t)
  {
    var s' := Run(s, es);
    forall i: nat | i < SLOTS && i != t && Staying(s'.slots[i]) ensures v != t && Precedes(s', v, i) {
      SelectionIsFair(s, es, t, v, i);
    }
    hide Selects, Run, Staying;
  }

  /**
   * Two selections in a row, by newcomers a and b, with c and d the sessions in the other two slots.
   * All three others stay during the first one; during the second a stays, and so do c and d unless
   * they have been told to leave by the first. Then a and b pick each other exactly if each of them
   * was accepted before both c and d.
   */
  lemma NewcomersPickEachOtherExactlyWhen(es0: seq<Event>, es1: seq<Event>, es2: seq<Event>, es3: seq<Event>,
                                          a: nat, b: nat, c: nat, d: nat, x: nat, y: nat)
    requires {a, b, c, d} == {0, 1, 2, 3}
    requires Selects(Run(Init(), es0), es1, a, x)
    requires Run(Init(), es0).slots[b].pc.WantLock?
    requires var s := Run(Init(), es0);
             forall i | i in {b, c, d} :: Staying(s.slots[i]) && Staying(Run(s, es1).slots[i])
    requires var s := Run(Run(Run(Init(), es0), es1), es2); Selects(s, es3, b, y)
    requires var s := Run(Run(Run(Init(), es0), es1), es2);
             forall i | i in {a, c, d} && i != x :: Staying(s.slots[i]) && Staying(Run(s, es3).slots[i])
    requires var s := Run(Run(Init(), es0), es1); var t := Run(Run(s, es2), es3);
             forall i | i in {a, b, c, d} :: t.slots[i].accepted == s.slots[i].accepted
    ensures x == b && y == a <==>
              var s := Run(Run(Init(), es0), es1);
              Precedes(s, a, c) && Precedes(s, a, d) && Precedes(s, b, c) && Precedes(s, b, d)
  {
    hide Selects, Run, Staying, Precedes;
    var s0 := Run(Init(), es0);
    var s1 := Run(s0, es1);
    var s2 := Run(s1, es2);
    var s3 := Run(s2, es3);
    SelectedIsOther(s0, es1, a, x);
    PickedExactlyWhenFirst(s0, es1, a, x, b);
    assert PrecedesTheRest(s1, b, a) <==> Precedes(s1, b, c) && Precedes(s1, b, d);
    if x == b {
      SelectedIsOther(s2, es3, b, y);
      PickedExactlyWhenFirst(s2, es3, b, y, a);
      assert PrecedesTheRest(s3, a, b) <==> Precedes(s3, a, c) && Precedes(s3, a, d);
      SameOrder(s1, s3, a, c);
      SameOrder(s1, s3, a, d);
    }
  }

  lemma SelectedIsOther(s: State, es: seq<Event>, t: nat, v: nat)
    requires Selects(s, es, t, v) && |s.slots| == SLOTS
    ensures v < SLOTS && v != t && t < SLOTS
  {
    RunKeepsInv(s, es);
    VictimIsOther(Run(s, es), t, v);
  }

  lemma SameOrder(s: State, t: State, a: nat, b: nat)
    requires a < |s.slots| == |t.slots| && b < |s.slots|
    requires s.slots[a].accepted == t.slots[a].accepted && s.slots[b].accepted == t.slots[b].accepted
    ensures Precedes(s, a, b) <==> Precedes(t, a, b)
  {
  }

  lemma SettledStays(s: State, i: nat)
    requires Inv(s) && i < SLOTS && Settled(s.slots[i])
    ensures Staying(s.slots[i])
  {
    assert SlotShape(s, i);
  }

  lemma VictimIsOther(s: State, t: nat, v: nat)
    requires Inv(s) && t < SLOTS && s.slots[t].pc == StoreEvict(v)
    ensures v != t
  {
    assert SectionKnows(s, t);
  }

  // ------------------------------------------------------------------------------------
  // One victim is not picked twice
  // ------------------------------------------------------------------------------------

  /** The candidate, and the session about to be compared, have not been told to leave. */
  ghost predicate Unflagged(s: State, t: nat)
    requires |s.slots| == SLOTS && t < SLOTS
  {
    var pc := s.slots[t].pc;
    && (Chosen(pc).Some? ==> Chosen(pc).value < SLOTS && !s.slots[Chosen(pc).value].evict)
    && (pc.PickTime? && pc.k < SLOTS ==> !s.slots[pc.k].evict)
  }

  /** A flag is raised by a store only, and the store is made by the holder of the mutex. */
  lemma RaisedByStore(s: State, e: Event, t: nat, j: nat)
    requires Inv(s) && t < SLOTS && j < SLOTS && Picking(s.slots[t].pc) && !s.slots[t].pc.StoreEvict?
    ensures Next(s, e).slots[j].evict ==> s.slots[j].evict
  {
    assert SlotShape(s, t) && SlotShape(s, j);
    match e
    case AcceptorMoves(now, spawned) => AcceptorFrame(s, now, spawned, j); hide TaskStep;
    case TaskMoves(u, authOk) =>
      if u < SLOTS {
        assert SectionKnows(s, u) && SlotShape(s, u);
        if u != j { TaskTouches(s, u, authOk, j); hide TaskStep; }
      }
  }

  lemma OthersKeepPc(s: State, e: Event, t: nat)
    requires Inv(s) && t < SLOTS && (e.TaskMoves? ==> e.task != t)
    ensures Next(s, e).slots[t].pc == s.slots[t].pc || Next(s, e).slots[t].pc.Handshake?
  {
    match e
    case AcceptorMoves(now, spawned) => AcceptorFrame(s, now, spawned, t); hide TaskStep;
    case TaskMoves(u, authOk) => if u < SLOTS { assert SectionKnows(s, u); TaskTouches(s, u, authOk, t); hide TaskStep; }
  }

  lemma TaskIsNext(s: State, t: nat, authOk: bool)
    requires |s.slots| == SLOTS && t < SLOTS
    ensures Next(s, TaskMoves(t, authOk)) == TaskStep(s, t, authOk)
  {
    hide TaskStep;
  }

  /** The candidate changes only to the slot just compared, and only a slot seen unflagged gets compared. */
  lemma OwnCandidate(s: State, t: nat, authOk: bool)
    requires |s.slots| == SLOTS && t < SLOTS
    ensures var pc, pc' := s.slots[t].pc, TaskStep(s, t, authOk).slots[t].pc;
            && (Chosen(pc').Some? && Chosen(pc') != Chosen(pc) ==> pc.PickTime? && Chosen(pc') == Some(pc.k) && pc.k < SLOTS)
            && (pc'.PickTime? && pc' != pc ==> pc.PickEvict? && pc'.k == pc.k && pc.k < SLOTS && !s.slots[pc.k].evict)
            && (Chosen(pc').Some? ==> !pc.StoreEvict? || pc' == pc)
  {
    hide BetterOf;
    match s.slots[t].pc
    case PickInUse(_, _) =>
    case PickEvict(_, _) =>
    case PickTime(_, _) =>
    case _ =>
  }

  lemma OwnKeepsUnflagged(s: State, t: nat, authOk: bool)
    requires Inv(s) && t < SLOTS && Unflagged(s, t)
    ensures Unflagged(TaskStep(s, t, authOk), t)
  {
    assert SectionKnows(s, t);
    OwnCandidate(s, t, authOk);
    var pc, pc' := s.slots[t].pc, TaskStep(s, t, authOk).slots[t].pc;
    if Chosen(pc').Some? && Chosen(pc').value < SLOTS && Chosen(pc').value != t {
      TaskTouches(s, t, authOk, Chosen(pc').value);
    }
    if pc'.PickTime? && pc'.k < SLOTS && pc'.k != t { TaskTouches(s, t, authOk, pc'.k); }
    hide TaskStep, Inv, Shape, OthersSettled, Seen;
  }

  lemma OthersKeepVictim(s: State, e: Event, t: nat)
    requires Inv(s) && t < SLOTS && s.slots[t].pc.StoreEvict? && (e.TaskMoves? ==> e.task != t)
    ensures var v := s.slots[t].pc.victim; v < SLOTS && (Next(s, e).slots[v].evict ==> s.slots[v].evict)
  {
    assert SlotShape(s, t) && SectionKnows(s, t);
    var v := s.slots[t].pc.victim;
    match e
    case AcceptorMoves(now, spawned) => AcceptorFrame(s, now, spawned, v); hide TaskStep;
    case TaskMoves(u, authOk) =>
      if u < SLOTS {
        assert SectionKnows(s, u) && SlotShape(s, u);
        if u != v { TaskTouches(s, u, authOk, v); hide TaskStep; }
      }
  }

  lemma NextKeepsUnflagged(s: State, e: Event, t: nat)
    requires Inv(s) && t < SLOTS && Unflagged(s, t)
    ensures Unflagged(Next(s, e), t)
  {
    assert SlotShape(s, t) && SectionKnows(s, t);
    var pc := s.slots[t].pc;
    if Picking(pc) && !pc.StoreEvict? {
      forall j: nat | j < SLOTS ensures Next(s, e).slots[j].evict ==> s.slots[j].evict { RaisedByStore(s, e, t, j); }
    }
    if e.TaskMoves? && e.task == t {
      hide Shape, Next, SectionKnows, Picking, TaskStep;
      OwnKeepsUnflagged(s, t, e.authOk);
      assert Next(s, e) == TaskStep(s, t, e.authOk) by { TaskIsNext(s, t, e.authOk); }
    } else {
      OthersKeepPc(s, e, t);
      if pc.StoreEvict? { OthersKeepVictim(s, e, t); }
      hide Next, Inv, Shape, SectionKnows;
    }
  }

  lemma {:induction false} RunKeepsUnflagged(s: State, es: seq<Event>, t: nat)
    requires |s.slots| == SLOTS && Inv(s) && t < SLOTS && Unflagged(s, t)
    ensures Unflagged(Run(s, es), t)
    decreases |es|
  {
    hide Inv, Unflagged;
    if es != [] {
      NextKeepsUnflagged(s, es[0], t);
      NextKeepsInv(s, es[0]);
      RunKeepsUnflagged(Next(s, es[0]), es[1..], t);
    }
  }

  /** Two newcomers cannot pick the same victim: a session told to leave is not told again while its flag is up. */
  lemma VictimIsNew(es: seq<Event>, t: nat, v: nat)
    requires t < SLOTS && v < SLOTS && Run(Init(), es).slots[t].pc == StoreEvict(v)
    ensures !Run(Init(), es).slots[v].evict
  {
    InitInv();
    RunKeepsUnflagged(Init(), es, t);
  }

  // ------------------------------------------------------------------------------------
  // A fresh session may start with its leave flag already up
  // ------------------------------------------------------------------------------------

  /** A selection that holds slot j as its candidate, or has it next to compare. */
  ghost predicate Targets(pc: Pc, j: nat) {
    Chosen(pc) == Some(j) || LookingAt(pc) == Some(j)
  }

  ghost predicate Untargeted(s: State, j: nat)
    requires |s.slots| == SLOTS
  {
    forall t: nat | t < SLOTS :: !Targets(s.slots[t].pc, j)
  }

  predicate Clears(s: State, e: Event, j: nat)
    requires |s.slots| == SLOTS && j < SLOTS
  {
    e.TaskMoves? && e.task == j && s.slots[j].pc.ClearEvict?
  }

  /** Whenever the session in slot j clears its leave flag, no selection has the slot in hand. */
  ghost predicate CleanTeardowns(s: State, es: seq<Event>, j: nat)
    requires |s.slots| == SLOTS && j < SLOTS
    decreases |es|
  {
    es != [] ==> (Clears(s, es[0], j) ==> Untargeted(s, j)) && CleanTeardowns(Next(s, es[0]), es[1..], j)
  }

  /** Between one session and the next the flag stays down and nobody can come to target the slot. */
  ghost predicate Between(s: State, j: nat)
    requires |s.slots| == SLOTS && j < SLOTS
  {
    s.slots[j].pc.ClearInUse? || s.slots[j].pc.Idle? || s.slots[j].pc.Handshake? ==> !s.slots[j].evict && Untargeted(s, j)
  }

  /** A selection comes to target only a slot whose session it has just seen authenticated. */
  lemma TargetsAuthenticated(s: State, e: Event, t: nat, j: nat)
    requires Inv(s) && t < SLOTS && j < SLOTS
    requires Targets(Next(s, e).slots[t].pc, j) && !Targets(s.slots[t].pc, j)
    ensures s.slots[j].authenticated
  {
    assert SlotShape(s, t) && SectionKnows(s, t);
    match e
    case AcceptorMoves(now, spawned) =>
      AcceptorFrame(s, now, spawned, t);
      hide TaskStep, AcceptorStep, Shape, SectionKnows;
    case TaskMoves(u, authOk) =>
      if u < SLOTS && u != t {
        assert SectionKnows(s, u);
        TaskTouches(s, u, authOk, t);
        hide TaskStep, Shape, SectionKnows;
      } else if u < SLOTS {
        hide AcceptorStep, Shape, SectionKnows, TaskStep;
        OwnTargetsAuthenticated(s, t, authOk, j);
      }
  }

  lemma OwnTargetsAuthenticated(s: State, t: nat, authOk: bool, j: nat)
    requires |s.slots| == SLOTS && t < SLOTS && j < SLOTS
    requires Targets(TaskStep(s, t, authOk).slots[t].pc, j) && !Targets(s.slots[t].pc, j)
    ensures s.slots[j].authenticated
  {
    hide BetterOf;
    match s.slots[t].pc
    case PickAuth(_, _) =>
    case PickEvict(_, _) =>
    case PickTime(_, _) =>
    case _ =>
  }

  lemma NextKeepsBetween(s: State, e: Event, j: nat)
    requires Inv(s) && j < SLOTS && Between(s, j) && (Clears(s, e, j) ==> Untargeted(s, j))
    ensures Between(Next(s, e), j)
  {
    var s' := Next(s, e);
    assert SlotShape(s, j);
    SlotCycle(s, e, j);
    forall t: nat | t < SLOTS && Targets(s'.slots[t].pc, j) && !Targets(s.slots[t].pc, j) ensures s.slots[j].authenticated {
      TargetsAuthenticated(s, e, t, j);
    }
    hide Next, Inv, Targets;
  }

  /** How a slot comes to be between sessions, and who raises and lowers its flag. */
  ghost predicate Cycles(s: State, e: Event, s': State, j: nat)
    requires |s.slots| == |s'.slots| == SLOTS && j < SLOTS
  {
    var slot, slot' := s.slots[j], s'.slots[j];
    && (slot'.pc.ClearInUse? || slot'.pc.Idle? || slot'.pc.Handshake? ==>
          slot.pc.ClearInUse? || slot.pc.Idle? || slot.pc.Handshake? || Clears(s, e, j))
    && (Clears(s, e, j) ==> !slot'.evict)
    && (slot'.evict && !slot.evict ==> e.TaskMoves? && e.task < SLOTS && s.slots[e.task].pc == StoreEvict(j))
    && (slot.evict && !slot'.evict ==> Clears(s, e, j))
  }

  lemma OwnCycle(s: State, j: nat, authOk: bool)
    requires |s.slots| == SLOTS && j < SLOTS && s.slots[j].pc != StoreEvict(j)
    requires SectionKnows(s, j)
    ensures Cycles(s, TaskMoves(j, authOk), TaskStep(s, j, authOk), j)
  {
    hide OthersSettled, Seen, BetterOf;
  }

  lemma SlotCycle(s: State, e: Event, j: nat)
    requires Inv(s) && j < SLOTS
    ensures Cycles(s, e, Next(s, e), j)
    ensures var pc := s.slots[j].pc;
            pc.ClearEvict? || pc.ClearInUse? || pc.Idle? || pc.Handshake? ==> !s.slots[j].authenticated
  {
    assert SlotShape(s, j) && SectionKnows(s, j);
    match e
    case AcceptorMoves(now, spawned) => AcceptorFrame(s, now, spawned, j); AcceptorFlags(s, now, spawned, j); hide AcceptorStep;
    case TaskMoves(u, authOk) =>
      hide TaskStep;
      if u == j {
        OwnCycle(s, j, authOk);
      } else if u < SLOTS {
        assert SectionKnows(s, u);
        TaskTouches(s, u, authOk, j);
      }
  }

  lemma AcceptorFlags(s: State, now: nat, spawned: bool, j: nat)
    requires |s.slots| == SLOTS && j < SLOTS
    ensures AcceptorStep(s, now, spawned).slots[j].evict == s.slots[j].evict
  {
  }

  lemma {:induction false} RunKeepsBetween(s: State, es: seq<Event>, j: nat)
    requires |s.slots| == SLOTS && Inv(s) && j < SLOTS && Between(s, j) && CleanTeardowns(s, es, j)
    ensures Between(Run(s, es), j)
    decreases |es|
  {
    hide Inv, Between, Untargeted, Clears;
    if es != [] {
      NextKeepsBetween(s, es[0], j);
      NextKeepsInv(s, es[0]);
      RunKeepsBetween(Next(s, es[0]), es[1..], j);
    }
  }

  /** If no selection has slot j in hand when its sessions clear their flag, each next session starts un-evicted. */
  lemma CleanTeardownStartsFresh(es: seq<Event>, j: nat)
    requires j < SLOTS && CleanTeardowns(Init(), es, j) && Run(Init(), es).slots[j].pc.Handshake?
    ensures !Run(Init(), es).slots[j].evict
  {
    InitInv();
    RunKeepsBetween(Init(), es, j);
  }

  /** The clearing store would be made with the pool mutex in hand, so no other task is in its section. */
  ghost predicate TeardownsUnderMutex(s: State, es: seq<Event>, j: nat)
    requires |s.slots| == SLOTS && j < SLOTS
    decreases |es|
  {
    es != [] ==> (Clears(s, es[0], j) ==> !s.mutex.HeldByTask?) && TeardownsUnderMutex(Next(s, es[0]), es[1..], j)
  }

  lemma {:induction false} MutexMeansClean(s: State, es: seq<Event>, j: nat)
    requires Inv(s) && j < SLOTS && TeardownsUnderMutex(s, es, j)
    ensures CleanTeardowns(s, es, j)
    decreases |es|
  {
    if es != [] {
      forall t: nat | t < SLOTS && Targets(s.slots[t].pc, j) ensures s.mutex.HeldByTask? { assert SlotShape(s, t); }
      NextKeepsInv(s, es[0]);
      MutexMeansClean(Next(s, es[0]), es[1..], j);
    }
  }

  /** Moving that one store under the mutex would be enough: no session would then start with a stale flag. */
  lemma TeardownUnderMutexSuffices(es: seq<Event>, j: nat)
    requires j < SLOTS && TeardownsUnderMutex(Init(), es, j) && Run(Init(), es).slots[j].pc.Handshake?
    ensures !Run(Init(), es).slots[j].evict
  {
    InitInv();
    MutexMeansClean(Init(), es, j);
    CleanTeardownStartsFresh(es, j);
  }

  /** Until its next session is authenticated or has failed to be. */
  ghost predicate UntilNextSession(s: State, es: seq<Event>, j: nat)
    requires |s.slots| == SLOTS && j < SLOTS
    decreases |es|
  {
    var pc := s.slots[j].pc;
    (pc.ClearInUse? || pc.Idle? || pc.Handshake?) && (es != [] ==> UntilNextSession(Next(s, es[0]), es[1..], j))
  }

  /** Either the store is still to come, with the mutex held and the slot not yet handed out, or the flag is up. */
  ghost predicate WillBeStale(s: State, t: nat, j: nat)
    requires |s.slots| == SLOTS && t < SLOTS && j < SLOTS
  {
    s.slots[t].pc == StoreEvict(j) || s.slots[j].evict
  }

  lemma NextKeepsStale(s: State, e: Event, t: nat, j: nat)
    requires Inv(s) && t < SLOTS && j < SLOTS && t != j && WillBeStale(s, t, j) && !Clears(s, e, j)
    ensures WillBeStale(Next(s, e), t, j)
  {
    assert SlotShape(s, t) && SectionKnows(s, t);
    SlotCycle(s, e, j);
    match e
    case AcceptorMoves(now, spawned) => AcceptorFrame(s, now, spawned, t);
    case TaskMoves(u, authOk) => if u < SLOTS && u != t { assert SectionKnows(s, u); TaskTouches(s, u, authOk, t); }
  }

  lemma {:induction false} StaysStale(s: State, es: seq<Event>, t: nat, j: nat)
    requires |s.slots| == SLOTS && Inv(s) && t < SLOTS && j < SLOTS && t != j && WillBeStale(s, t, j) && UntilNextSession(s, es, j)
    ensures WillBeStale(Run(s, es), t, j)
    decreases |es|
  {
    hide Inv, WillBeStale;
    if es != [] {
      NextKeepsStale(s, es[0], t, j);
      NextKeepsInv(s, es[0]);
      StaysStale(Next(s, es[0]), es[1..], t, j);
    }
  }

  /**
   * And if a selection is at the point of storing into slot j when its session clears the flag, the
   * next session in that slot always starts with the flag up.
   */
  lemma StoreAtTeardownIsStale(es1: seq<Event>, t: nat, j: nat, authOk: bool, es2: seq<Event>)
    requires t < SLOTS && j < SLOTS
    requires var s := Run(Init(), es1); s.slots[j].pc.ClearEvict? && s.slots[t].pc == StoreEvict(j)
    requires var s := Next(Run(Init(), es1), TaskMoves(j, authOk));
             UntilNextSession(s, es2, j) && Run(s, es2).slots[j].pc.Handshake?
    ensures Run(Next(Run(Init(), es1), TaskMoves(j, authOk)), es2).slots[j].evict
  {
    hide Inv;
    InitInv();
    RunKeepsInv(Init(), es1);
    var s := Run(Init(), es1);
    VictimIsOther(s, t, j);
    var s' := Next(s, TaskMoves(j, authOk));
    NextKeepsInv(s, TaskMoves(j, authOk));
    assert WillBeStale(s', t, j);
    StaysStale(s', es2, t, j);
    RunKeepsInv(s', es2);
    NotHandedOutMeanwhile(Run(s', es2), t, j);
  }

  lemma NotHandedOutMeanwhile(s: State, t: nat, j: nat)
    requires Inv(s) && t < SLOTS && j < SLOTS && s.slots[j].pc.Handshake?
    ensures s.slots[t].pc != StoreEvict(j)
  {
    assert SectionKnows(s, t);
  }

  /** The selection that task t is in goes on to the point of storing into slot j. */
  ghost predicate EndsByStoring(s: State, es: seq<Event>, t: nat, j: nat)
    requires |s.slots| == SLOTS && t < SLOTS
    decreases |es|
  {
    Picking(s.slots[t].pc) &&
    (s.slots[t].pc == StoreEvict(j) || (es != [] && EndsByStoring(Next(s, es[0]), es[1..], t, j)))
  }

  ghost predicate SomeEndsByStoring(s: State, es: seq<Event>, j: nat)
    requires |s.slots| == SLOTS
  {
    exists t: nat :: t < SLOTS && EndsByStoring(s, es, t, j)
  }

  lemma Unauthenticated(s: State, j: nat)
    requires Inv(s) && j < SLOTS && (s.slots[j].pc.ClearInUse? || s.slots[j].pc.Idle? || s.slots[j].pc.Handshake?)
    ensures !s.slots[j].authenticated
  {
    assert SlotShape(s, j);
  }

  /** Until the next session, no selection can come to store into the slot but one that has it in hand already. */
  lemma {:induction false} StoringMeansTargeting(s: State, es: seq<Event>, t: nat, j: nat)
    requires |s.slots| == SLOTS && Inv(s) && t < SLOTS && j < SLOTS && UntilNextSession(s, es, j) && EndsByStoring(s, es, t, j)
    ensures Targets(s.slots[t].pc, j)
    decreases |es|
  {
    hide Inv, Targets, Picking;
    if s.slots[t].pc == StoreEvict(j) {
      StoringTargets(j);
    } else {
      NextKeepsInv(s, es[0]);
      StoringMeansTargeting(Next(s, es[0]), es[1..], t, j);
      Unauthenticated(s, j);
      if !Targets(s.slots[t].pc, j) { TargetsAuthenticated(s, es[0], t, j); }
    }
  }

  lemma StoringTargets(j: nat)
    ensures Targets(StoreEvict(j), j)
  {
  }

  lemma TargetsPick(pc: Pc, j: nat)
    ensures Targets(pc, j) ==> Picking(pc)
  {
  }

  /** Whether the flag will be up is settled by whether some selection goes on to store. */
  lemma {:induction false} FlagFollowsStore(s: State, es: seq<Event>, j: nat)
    requires |s.slots| == SLOTS && Inv(s) && j < SLOTS && UntilNextSession(s, es, j) && !s.slots[j].evict
    ensures SomeEndsByStoring(s, es, j) <==>
              Run(s, es).slots[j].evict || exists t: nat :: t < SLOTS && Run(s, es).slots[t].pc == StoreEvict(j)
    decreases |es|
  {
    hide Inv, Targets, WillBeStale;
    if es != [] {
      var e, s' := es[0], Next(s, es[0]);
      NextKeepsInv(s, e);
      SlotCycle(s, e, j);
      if s'.slots[j].evict {
        var u := e.task;
        assert EndsByStoring(s, es, u, j);
        OwnStoreDone(s, e, j);
        WillStay(s', es[1..], u, j);
      } else {
        FlagFollowsStore(s', es[1..], j);
        forall t: nat | t < SLOTS ensures EndsByStoring(s, es, t, j) <==> EndsByStoring(s', es[1..], t, j) {
          StoringGoesOn(s, es, t, j);
        }
      }
    } else {
      forall t: nat | t < SLOTS ensures EndsByStoring(s, es, t, j) <==> s.slots[t].pc == StoreEvict(j) {}
    }
  }

  lemma OwnStoreDone(s: State, e: Event, j: nat)
    requires Inv(s) && j < SLOTS && e.TaskMoves? && e.task < SLOTS && s.slots[e.task].pc == StoreEvict(j)
    ensures e.task != j
  {
    VictimIsOther(s, e.task, j);
  }

  lemma WillStay(s: State, es: seq<Event>, t: nat, j: nat)
    requires |s.slots| == SLOTS && Inv(s) && t < SLOTS && j < SLOTS && t != j && UntilNextSession(s, es, j) && s.slots[j].evict
    ensures Run(s, es).slots[j].evict || Run(s, es).slots[t].pc == StoreEvict(j)
  {
    StaysStale(s, es, t, j);
  }

  /** A step that does not raise the flag leaves open or closed what a selection will come to. */
  lemma StoringGoesOn(s: State, es: seq<Event>, t: nat, j: nat)
    requires |s.slots| == SLOTS && Inv(s) && t < SLOTS && j < SLOTS && es != [] && UntilNextSession(s, es, j)
    requires !Next(s, es[0]).slots[j].evict
    ensures EndsByStoring(s, es, t, j) <==> EndsByStoring(Next(s, es[0]), es[1..], t, j)
  {
    hide Inv;
    var e, s' := es[0], Next(s, es[0]);
    if s.slots[t].pc == StoreEvict(j) { StorerWaits(s, e, t, j); }
    if EndsByStoring(s', es[1..], t, j) {
      NextKeepsInv(s, e);
      StoringMeansTargeting(s', es[1..], t, j);
      Unauthenticated(s, j);
      if !Targets(s.slots[t].pc, j) { TargetsAuthenticated(s, e, t, j); }
      TargetsPick(s.slots[t].pc, j);
    }
  }

  lemma StorerWaits(s: State, e: Event, t: nat, j: nat)
    requires Inv(s) && t < SLOTS && j < SLOTS && s.slots[t].pc == StoreEvict(j) && !Next(s, e).slots[j].evict
    ensures Next(s, e).slots[t].pc == StoreEvict(j)
  {
    VictimIsOther(s, t, j);
    assert SlotShape(s, t);
    match e
    case AcceptorMoves(now, spawned) => AcceptorFrame(s, now, spawned, t);
    case TaskMoves(u, authOk) => if u < SLOTS && u != t { assert SectionKnows(s, u); TaskTouches(s, u, authOk, t); }
  }

  /**
   * The exact condition: the session that follows a teardown starts with the flag up if and only if
   * a selection that had the slot in hand when the flag was cleared goes on to store into it.
   */
  lemma StaleExactlyWhenSelectionStores(es1: seq<Event>, j: nat, authOk: bool, es2: seq<Event>)
    requires j < SLOTS && Run(Init(), es1).slots[j].pc.ClearEvict?
    requires var s := Next(Run(Init(), es1), TaskMoves(j, authOk));
             UntilNextSession(s, es2, j) && Run(s, es2).slots[j].pc.Handshake?
    ensures var before := Run(Init(), es1); var s := Next(before, TaskMoves(j, authOk));
            Run(s, es2).slots[j].evict <==>
              exists t: nat :: t < SLOTS && Targets(before.slots[t].pc, j) && EndsByStoring(s, es2, t, j)
  {
    hide Inv, Targets;
    InitInv();
    RunKeepsInv(Init(), es1);
    var before := Run(Init(), es1);
    var e := TaskMoves(j, authOk);
    var s := Next(before, e);
    NextKeepsInv(before, e);
    SlotCycle(before, e, j);
    FlagFollowsStore(s, es2, j);
    RunKeepsInv(s, es2);
    forall t: nat | t < SLOTS ensures Run(s, es2).slots[t].pc != StoreEvict(j) { NotHandedOutMeanwhile(Run(s, es2), t, j); }
    forall t: nat | t < SLOTS && EndsByStoring(s, es2, t, j) ensures Targets(before.slots[t].pc, j) {
      StoringMeansTargeting(s, es2, t, j);
      if !Targets(before.slots[t].pc, j) { TargetsAuthenticated(before, e, t, j); }
    }
  }
}
