/**
 * Concrete runs of the session pool: a session that starts with a stale leave flag, and two
 * newcomers that tell each other to leave.
 */
module PoolRuns {
  import opened Common
  import opened SessionPool

  /** The threads: the tasks by their slots, and the acceptor. */
  const ACCEPTOR: nat := SLOTS
  const EVERYBODY: set<nat> := {0, 1, 2, 3, ACCEPTOR}
  const NEWCOMERS: set<nat> := {0, 1}

  function Thread(e: Event): nat {
    match e
    case AcceptorMoves(_, _) => ACCEPTOR
    case TaskMoves(t, _) => t
  }

  /** Nobody else moves. */
  predicate MovesOf(es: seq<Event>, who: set<nat>) {
    forall i | 0 <= i < |es| :: Thread(es[i]) in who
  }

  /** Reached from `base` by moves of these threads alone. */
  ghost predicate Reaches(base: State, s: State, who: set<nat>)
    requires |base.slots| == SLOTS
  {
    exists es: seq<Event> :: MovesOf(es, who) && Run(base, es) == s
  }

  lemma {:induction false} RunConcat(s: State, a: seq<Event>, b: seq<Event>)
    requires |s.slots| == SLOTS
    ensures Run(s, a + b) == Run(Run(s, a), b)
    decreases |a|
  {
    if a == [] {
      assert a + b == b;
    } else {
      assert (a + b)[1..] == a[1..] + b;
      RunConcat(Next(s, a[0]), a[1..], b);
    }
  }

  lemma Start(base: State, who: set<nat>)
    requires |base.slots| == SLOTS
    ensures Reaches(base, base, who)
  {
    assert Run(base, []) == base;
  }

  lemma Follow(base: State, s: State, e: Event, who: set<nat>) returns (s': State)
    requires |base.slots| == |s.slots| == SLOTS && Reaches(base, s, who) && Thread(e) in who
    ensures s' == Next(s, e) && Reaches(base, s', who)
  {
    s' := Next(s, e);
    var es: seq<Event> :| MovesOf(es, who) && Run(base, es) == s;
    RunConcat(base, es, [e]);
    assert Run(s, [e]) == Run(s', []);
    assert MovesOf(es + [e], who);
  }

  lemma Moves(base: State, s: State, t: nat, who: set<nat>) returns (s': State)
    requires |base.slots| == |s.slots| == SLOTS && Reaches(base, s, who) && t < SLOTS && t in who
    ensures s' == TaskStep(s, t, true) && Reaches(base, s', who)
  {
    s' := Follow(base, s, TaskMoves(t, true), who);
  }

  /** The acceptor takes the mutex and passes the occupied slots. */
  lemma PassesOccupied(base: State, s: State, j: nat, e: Event, who: set<nat>) returns (s': State)
    requires |base.slots| == |s.slots| == SLOTS && Reaches(base, s, who) && j <= SLOTS && e.AcceptorMoves? && ACCEPTOR in who
    requires s.acceptor.Waiting? && s.mutex.Free? && forall i: nat | i < j :: s.slots[i].inUse
    ensures Reaches(base, s', who) && s' == s.(acceptor := ScanInUse(j), mutex := HeldByAcceptor)
  {
    s' := Follow(base, s, e, who);
    var k := 0;
    while k < j
      invariant k <= j
      invariant Reaches(base, s', who) && s' == s.(acceptor := ScanInUse(k), mutex := HeldByAcceptor)
    {
      s' := Follow(base, s', e, who);
      k := k + 1;
    }
  }

  /** The acceptor finds slot j, the first free one, and starts a task on it, or fails to and frees it again. */
  lemma Accepts(base: State, s: State, j: nat, now: nat, who: set<nat>, spawned: bool := true) returns (s': State)
    requires |base.slots| == |s.slots| == SLOTS && Reaches(base, s, who) && j < SLOTS && ACCEPTOR in who
    requires s.acceptor.Waiting? && s.mutex.Free? && !s.slots[j].inUse
    requires forall i: nat | i < j :: s.slots[i].inUse
    ensures Reaches(base, s', who)
    ensures s' == Put(s, j, if spawned then s.slots[j].(inUse := true, accepted := now, pc := Handshake)
                            else s.slots[j].(accepted := now))
  {
    hide Reaches;
    var e := AcceptorMoves(now, spawned);
    s' := PassesOccupied(base, s, j, e, who);
    s' := Follow(base, s', e, who);
    s' := Follow(base, s', e, who);
    s' := Follow(base, s', e, who);
    s' := Follow(base, s', e, who);
    assert spawned ==> s'.slots == s.slots[j := s.slots[j].(inUse := true, accepted := now, pc := Handshake)];
    assert !spawned ==> s'.slots == s.slots[j := s.slots[j].(accepted := now)];
  }

  function Tally(slots: seq<Slot>, k: nat): nat
    requires k <= |slots|
  {
    if k == 0 then 0 else Tally(slots, k - 1) + if slots[k - 1].inUse && slots[k - 1].authenticated then 1 else 0
  }

  /** The count scan with nobody else moving. */
  lemma CountsAll(base: State, s: State, j: nat, who: set<nat>) returns (s': State)
    requires |base.slots| == |s.slots| == SLOTS && Reaches(base, s, who) && j < SLOTS && j in who
    requires s.slots[j].pc == CountInUse(0, 0)
    ensures Reaches(base, s', who) && s' == Goto(s, j, CountInUse(SLOTS, Tally(s.slots, SLOTS)))
  {
    s' := s;
    var k := 0;
    assert s.slots[j := s.slots[j]] == s.slots;
    while k < SLOTS
      invariant k <= SLOTS
      invariant Reaches(base, s', who) && s' == Goto(s, j, CountInUse(k, Tally(s.slots, k)))
    {
      s' := CountsOne(base, s', j, k, Tally(s.slots, k), who);
      assert s'.slots == s.slots[j := s.slots[j].(pc := CountInUse(k + 1, Tally(s.slots, k + 1)))];
      k := k + 1;
    }
  }

  lemma CountsOne(base: State, s: State, j: nat, k: nat, c: nat, who: set<nat>) returns (s': State)
    requires |base.slots| == |s.slots| == SLOTS && Reaches(base, s, who) && j < SLOTS && j in who
    requires k < SLOTS && s.slots[j].pc == CountInUse(k, c)
    ensures Reaches(base, s', who)
    ensures s' == Goto(s, j, CountInUse(k + 1, c + if s.slots[k].inUse && s.slots[k].authenticated then 1 else 0))
  {
    hide Reaches;
    s' := Moves(base, s, j, who);
    if s.slots[k].inUse {
      assert s' == Goto(s, j, CountAuth(k, c));
      s' := Moves(base, s', j, who);
    }
    assert s'.slots == s.slots[j := s.slots[j].(pc := s'.slots[j].pc)];
  }

  /** Authenticated, and over capacity or not: the newcomer has taken the mutex and counted. */
  lemma Counts(base: State, s: State, j: nat, who: set<nat>) returns (s': State)
    requires |base.slots| == |s.slots| == SLOTS && Reaches(base, s, who) && j < SLOTS && j in who
    requires s.mutex.Free? && s.slots[j].pc.WantLock?
    ensures Reaches(base, s', who)
    ensures s' == Goto(s, j, CountInUse(SLOTS, Tally(s.slots, SLOTS))).(mutex := HeldByTask(j))
  {
    hide Reaches, Tally;
    s' := Moves(base, s, j, who);
    var begun := s';
    SameTally(s.slots, begun.slots, SLOTS);
    s' := CountsAll(base, begun, j, who);
    assert s'.slots == s.slots[j := s.slots[j].(pc := CountInUse(SLOTS, Tally(s.slots, SLOTS)))];
  }

  lemma {:induction false} SameTally(a: seq<Slot>, b: seq<Slot>, k: nat)
    requires k <= |a| == |b|
    requires forall i | 0 <= i < |a| :: a[i].inUse == b[i].inUse && a[i].authenticated == b[i].authenticated
    ensures Tally(a, k) == Tally(b, k)
  {
    if k > 0 { SameTally(a, b, k - 1); }
  }

  lemma Authenticates(base: State, s: State, j: nat, who: set<nat>) returns (s': State)
    requires |base.slots| == |s.slots| == SLOTS && Reaches(base, s, who) && j < SLOTS && j in who && s.slots[j].pc.Handshake?
    ensures Reaches(base, s', who) && s' == Put(s, j, s.slots[j].(authenticated := true, pc := WantLock))
  {
    s' := Moves(base, s, j, who);
  }

  /** A newcomer that finds room settles. */
  lemma Settles(base: State, s: State, j: nat, who: set<nat>) returns (s': State)
    requires |base.slots| == |s.slots| == SLOTS && Reaches(base, s, who) && j < SLOTS && j in who
    requires s.mutex.Free? && s.slots[j].pc.WantLock? && Tally(s.slots, SLOTS) <= MAX_SESSIONS
    ensures Reaches(base, s', who) && s' == Goto(s, j, Serving)
  {
    hide Reaches, Tally;
    s' := Counts(base, s, j, who);
    s' := Moves(base, s', j, who);
    s' := Moves(base, s', j, who);
    assert s'.slots == s.slots[j := s.slots[j].(pc := Serving)];
  }

  /** The candidate after slot k. */
  function After(s: State, t: nat, k: nat, o: Option<nat>): (p: Option<nat>)
    requires |s.slots| == SLOTS && k < SLOTS && (o.Some? ==> o.value < SLOTS)
    ensures p.Some? ==> p.value < SLOTS
  {
    if k != t && Staying(s.slots[k]) then BetterOf(s, k, o) else o
  }

  /** The candidate that a selection ends with, when nobody else moves. */
  function PickFrom(s: State, t: nat, k: nat, o: Option<nat>): Option<nat>
    requires |s.slots| == SLOTS && k <= SLOTS && (o.Some? ==> o.value < SLOTS)
    decreases SLOTS - k
  {
    if k == SLOTS then o else PickFrom(s, t, k + 1, After(s, t, k, o))
  }

  /** Where one load takes the selection. */
  function PickNext(s: State, t: nat, pc: Pc): Pc
    requires |s.slots| == SLOTS && (pc.PickInUse? || pc.PickAuth? || pc.PickEvict? || pc.PickTime?)
    requires pc.k < SLOTS && (pc.oldest.Some? ==> pc.oldest.value < SLOTS)
  {
    match pc
    case PickInUse(k, o) => if k == t || !s.slots[k].inUse then PickInUse(k + 1, o) else PickAuth(k, o)
    case PickAuth(k, o) => if s.slots[k].authenticated then PickEvict(k, o) else PickInUse(k + 1, o)
    case PickEvict(k, o) => if s.slots[k].evict then PickInUse(k + 1, o) else PickTime(k, o)
    case PickTime(k, o) => PickInUse(k + 1, BetterOf(s, k, o))
  }

  lemma PickStep(s: State, t: nat, pc: Pc)
    requires |s.slots| == SLOTS && t < SLOTS && (pc.PickInUse? || pc.PickAuth? || pc.PickEvict? || pc.PickTime?)
    requires pc.k < SLOTS && (pc.oldest.Some? ==> pc.oldest.value < SLOTS) && (pc.k == t ==> pc.PickInUse?)
    ensures TaskStep(Goto(s, t, pc), t, true) == Goto(s, t, PickNext(s, t, pc))
  {
    var h := Goto(s, t, pc);
    var next := PickNext(s, t, pc);
    assert BetterOf(h, pc.k, pc.oldest) == BetterOf(s, pc.k, pc.oldest);
    hide BetterOf;
    assert h.slots[t := h.slots[t].(pc := next)] == s.slots[t := s.slots[t].(pc := next)];
  }

  lemma PassesOne(base: State, s: State, t: nat, k: nat, o: Option<nat>, who: set<nat>) returns (s': State)
    requires |base.slots| == |s.slots| == SLOTS && t < SLOTS && t in who
    requires k < SLOTS && (o.Some? ==> o.value < SLOTS) && Reaches(base, Goto(s, t, PickInUse(k, o)), who)
    ensures s' == Goto(s, t, PickInUse(k + 1, After(s, t, k, o))) && Reaches(base, s', who)
  {
    hide Reaches, TaskStep, Goto, BetterOf;
    GotoKeepsCount(s, t);
    PickStep(s, t, PickInUse(k, o));
    s' := Moves(base, Goto(s, t, PickInUse(k, o)), t, who);
    if k != t && s.slots[k].inUse {
      PickStep(s, t, PickAuth(k, o));
      s' := Moves(base, s', t, who);
      if s.slots[k].authenticated {
        PickStep(s, t, PickEvict(k, o));
        s' := Moves(base, s', t, who);
        if !s.slots[k].evict {
          PickStep(s, t, PickTime(k, o));
          s' := Moves(base, s', t, who);
        }
      }
    }
  }

  lemma GotoKeepsCount(s: State, t: nat)
    requires |s.slots| == SLOTS && t < SLOTS
    ensures forall pc: Pc :: |Goto(s, t, pc).slots| == SLOTS
  {
  }

  /** A newcomer over capacity comes to the point of telling v to leave. */
  lemma Picks(base: State, s: State, t: nat, v: nat, who: set<nat>) returns (s': State)
    requires |base.slots| == |s.slots| == SLOTS && Reaches(base, s, who) && t < SLOTS && t in who
    requires s.mutex.Free? && s.slots[t].pc.WantLock? && Tally(s.slots, SLOTS) > MAX_SESSIONS
    requires PickFrom(s, t, 0, None) == Some(v)
    ensures Reaches(base, s', who) && s' == Goto(s, t, StoreEvict(v)).(mutex := HeldByTask(t))
  {
    hide Reaches, Tally, After;
    var held := s.(mutex := HeldByTask(t));
    s' := Counts(base, s, t, who);
    s' := Moves(base, s', t, who);
    assert s'.slots == s.slots[t := s.slots[t].(pc := PickInUse(0, None))];
    s' := Scans(base, held, t, who);
    SamePick(s, held, t, 0, None);
    var last := Goto(held, t, PickInUse(SLOTS, Some(v)));
    s' := Moves(base, last, t, who);
    assert s'.slots == s.slots[t := s.slots[t].(pc := StoreEvict(v))];
  }

  lemma Scans(base: State, s: State, t: nat, who: set<nat>) returns (s': State)
    requires |base.slots| == |s.slots| == SLOTS && t < SLOTS && t in who
    requires Reaches(base, Goto(s, t, PickInUse(0, None)), who)
    ensures s' == Goto(s, t, PickInUse(SLOTS, PickFrom(s, t, 0, None))) && Reaches(base, s', who)
  {
    hide Reaches, Goto, After;
    s' := Goto(s, t, PickInUse(0, None));
    var k: nat, o: Option<nat> := 0, None;
    while k < SLOTS
      invariant k <= SLOTS && (o.Some? ==> o.value < SLOTS) && PickFrom(s, t, k, o) == PickFrom(s, t, 0, None)
      invariant Reaches(base, s', who) && s' == Goto(s, t, PickInUse(k, o))
    {
      s' := PassesOne(base, s, t, k, o, who);
      k, o := k + 1, After(s, t, k, o);
    }
  }

  lemma {:induction false} SamePick(s: State, held: State, t: nat, k: nat, o: Option<nat>)
    requires |s.slots| == SLOTS && held == s.(mutex := held.mutex) && k <= SLOTS && (o.Some? ==> o.value < SLOTS)
    ensures PickFrom(held, t, k, o) == PickFrom(s, t, k, o)
    decreases SLOTS - k
  {
    if k < SLOTS {
      assert After(held, t, k, o) == After(s, t, k, o);
      SamePick(s, held, t, k + 1, After(s, t, k, o));
    }
  }

  lemma FourSlots(slots: seq<Slot>)
    requires |slots| == SLOTS
    ensures Tally(slots, SLOTS) ==
              One(slots[0]) + One(slots[1]) + One(slots[2]) + One(slots[3])
  {
    assert Tally(slots, 1) == One(slots[0]);
    assert Tally(slots, 2) == One(slots[0]) + One(slots[1]);
    assert Tally(slots, 3) == One(slots[0]) + One(slots[1]) + One(slots[2]);
  }

  function One(slot: Slot): nat { if slot.inUse && slot.authenticated then 1 else 0 }

  lemma PickOfFour(s: State, t: nat)
    requires |s.slots| == SLOTS && t < SLOTS
    ensures PickFrom(s, t, 0, None) == After(s, t, 3, After(s, t, 2, After(s, t, 1, After(s, t, 0, None))))
  {
    hide After;
    var o1 := After(s, t, 0, None);
    var o2 := After(s, t, 1, o1);
    var o3 := After(s, t, 2, o2);
    var o4 := After(s, t, 3, o3);
    assert PickFrom(s, t, 4, o4) == o4;
    assert PickFrom(s, t, 3, o3) == PickFrom(s, t, 4, o4);
    assert PickFrom(s, t, 2, o2) == PickFrom(s, t, 3, o3);
  }

  function On(accepted: nat): Slot { Slot(true, true, false, accepted, Serving) }
  function Waiter(accepted: nat): Slot { Slot(true, true, false, accepted, WantLock) }

  /** A settled session in slot 0 leaves: one step out of the shell, three teardown stores. */
  lemma Leaves(base: State, s: State) returns (s': State)
    requires |base.slots| == |s.slots| == SLOTS && Reaches(base, s, EVERYBODY) && s.slots[0] == On(0)
    ensures Reaches(base, s', EVERYBODY) && s' == Put(s, 0, FREE_SLOT)
  {
    hide Reaches;
    s' := Moves(base, s, 0, EVERYBODY);
    assert s'.slots == s.slots[0 := On(0).(pc := ClearAuth)];
    s' := Moves(base, s', 0, EVERYBODY);
    assert s'.slots == s.slots[0 := On(0).(authenticated := false, pc := ClearEvict)];
    s' := Moves(base, s', 0, EVERYBODY);
    assert s'.slots == s.slots[0 := On(0).(authenticated := false, pc := ClearInUse)];
    s' := Moves(base, s', 0, EVERYBODY);
    assert s'.slots == s.slots[0 := FREE_SLOT];
  }

  /** Slot j, the first free one, gets a session that settles. */
  lemma Joins(base: State, s: State, j: nat, now: nat) returns (s': State)
    requires |base.slots| == |s.slots| == SLOTS && Reaches(base, s, EVERYBODY) && j < SLOTS
    requires s.acceptor.Waiting? && s.mutex.Free? && s.slots[j] == FREE_SLOT && forall i: nat | i < j :: s.slots[i].inUse
    requires Tally(s.slots[j := On(now)], SLOTS) <= MAX_SESSIONS
    ensures Reaches(base, s', EVERYBODY) && s' == Put(s, j, On(now))
  {
    hide Reaches, Tally;
    s' := Accepts(base, s, j, now, EVERYBODY);
    s' := Authenticates(base, s', j, EVERYBODY);
    assert s'.slots == s.slots[j := Waiter(now)];
    SameTally(s'.slots, s.slots[j := On(now)], SLOTS);
    s' := Settles(base, s', j, EVERYBODY);
    assert s'.slots == s.slots[j := On(now)];
  }

  /** Three settled sessions and a fourth about to evict the first. */
  lemma FourthPicksFirst() returns (s: State)
    ensures Reaches(Init(), s, EVERYBODY) && s.acceptor.Waiting? && s.mutex == HeldByTask(3)
    ensures s.slots == [On(0), On(0), On(0), Slot(true, true, false, 0, StoreEvict(0))]
  {
    hide Reaches, Tally, PickFrom, Run;
    s := Init();
    Start(s, EVERYBODY);
    FourSlots([On(0), FREE_SLOT, FREE_SLOT, FREE_SLOT]);
    FourSlots([On(0), On(0), FREE_SLOT, FREE_SLOT]);
    FourSlots([On(0), On(0), On(0), FREE_SLOT]);
    FourSlots([On(0), On(0), On(0), Waiter(0)]);
    assert s.slots[0 := On(0)] == [On(0), FREE_SLOT, FREE_SLOT, FREE_SLOT];
    s := Joins(Init(), s, 0, 0);
    assert s.slots == [On(0), FREE_SLOT, FREE_SLOT, FREE_SLOT];
    assert s.slots[1 := On(0)] == [On(0), On(0), FREE_SLOT, FREE_SLOT];
    s := Joins(Init(), s, 1, 0);
    assert s.slots == [On(0), On(0), FREE_SLOT, FREE_SLOT];
    assert s.slots[2 := On(0)] == [On(0), On(0), On(0), FREE_SLOT];
    s := Joins(Init(), s, 2, 0);
    assert s.slots == [On(0), On(0), On(0), FREE_SLOT];
    s := Accepts(Init(), s, 3, 0, EVERYBODY);
    s := Authenticates(Init(), s, 3, EVERYBODY);
    assert s.slots == [On(0), On(0), On(0), Waiter(0)];
    PickOfFour(s, 3);
    s := Picks(Init(), s, 3, 0, EVERYBODY);
  }

  /**
   * "A fresh session starts un-evicted" is false of the code: slot 0's session tears itself
   * down between being picked and the evict store, and the next session in slot 0 inherits
   * the raised flag.
   */
  lemma StaleEviction()
    ensures exists es: seq<Event> ::
              Run(Init(), es).slots[0].pc.Handshake? && Run(Init(), es).slots[0].evict
  {
    var s := FourthPicksFirst();
    s := Leaves(Init(), s);
    s := Moves(Init(), s, 3, EVERYBODY);
    assert s.slots[3].pc == GiveLock && s.slots[0] == FREE_SLOT.(evict := true);
    s := Moves(Init(), s, 3, EVERYBODY);
    s := Accepts(Init(), s, 0, 0, EVERYBODY);
    var es: seq<Event> :| Run(Init(), es) == s;
    assert Run(Init(), es).slots[0].evict;
  }

  /** Two slow newcomers in slots 0 and 1, two sessions accepted later but already settled. */
  lemma SlowNewcomers() returns (s: State)
    ensures Reaches(Init(), s, EVERYBODY) && s.acceptor.Waiting? && s.mutex.Free?
    ensures s.slots == [Waiter(0), Waiter(0), On(10), On(10)]
  {
    hide Reaches, Tally, PickFrom, Run;
    s := Init();
    Start(s, EVERYBODY);
    var slow := FREE_SLOT.(inUse := true, pc := Handshake);
    FourSlots([slow, slow, On(10), FREE_SLOT]);
    FourSlots([slow, slow, On(10), On(10)]);
    s := Accepts(Init(), s, 0, 0, EVERYBODY);
    s := Accepts(Init(), s, 1, 0, EVERYBODY);
    assert s.slots == [slow, slow, FREE_SLOT, FREE_SLOT];
    assert s.slots[2 := On(10)] == [slow, slow, On(10), FREE_SLOT];
    s := Joins(Init(), s, 2, 10);
    assert s.slots[3 := On(10)] == [slow, slow, On(10), On(10)];
    s := Joins(Init(), s, 3, 10);
    s := Authenticates(Init(), s, 0, EVERYBODY);
    s := Authenticates(Init(), s, 1, EVERYBODY);
  }

  lemma FirstPicksSecond() returns (s: State)
    ensures Reaches(Init(), s, EVERYBODY) && s.mutex == HeldByTask(0)
    ensures s.slots == [Waiter(0).(pc := StoreEvict(1)), Waiter(0), On(10), On(10)]
  {
    hide Reaches, Tally, PickFrom, Run;
    s := SlowNewcomers();
    FourSlots(s.slots);
    PickOfFour(s, 0);
    s := Picks(Init(), s, 0, 1, EVERYBODY);
  }

  lemma SecondPicksFirst(s: State) returns (t: State)
    requires s.slots == [Waiter(0).(pc := StoreEvict(1)), Waiter(0), On(10), On(10)] && s.mutex == HeldByTask(0)
    ensures Reaches(s, t, NEWCOMERS)
    ensures t.slots == [On(0), Waiter(0).(evict := true, pc := StoreEvict(0)), On(10), On(10)]
  {
    hide Reaches, Tally, PickFrom, Run;
    Start(s, NEWCOMERS);
    t := Moves(s, s, 0, NEWCOMERS);
    t := Moves(s, t, 0, NEWCOMERS);
    assert t.slots == [On(0), Waiter(0).(evict := true), On(10), On(10)];
    FourSlots(t.slots);
    PickOfFour(t, 1);
    t := Picks(s, t, 1, 0, NEWCOMERS);
  }

  /** From s to t to the store that follows: session 0 tells session 1 to leave, then session 1 session 0. */
  ghost predicate MutualEviction(s: State, t: State)
    requires |s.slots| == |t.slots| == SLOTS
  {
    var u := Next(t, TaskMoves(1, true));
    && s.slots[0].pc == StoreEvict(1) && s.slots[1].pc.WantLock? && Settled(s.slots[2]) && Settled(s.slots[3])
    && t.slots[1].pc == StoreEvict(0) && t.slots[1].evict && Settled(t.slots[0])
    && u.slots[0].evict && u.slots[1].evict && u.slots[0].pc.Serving? && u.slots[1].pc.GiveLock?
  }

  lemma BothAreFlagged(s: State, t: State)
    requires s.slots == [Waiter(0).(pc := StoreEvict(1)), Waiter(0), On(10), On(10)]
    requires t.slots == [On(0), Waiter(0).(evict := true, pc := StoreEvict(0)), On(10), On(10)]
    ensures MutualEviction(s, t)
  {
    var u := Next(t, TaskMoves(1, true));
    assert u.slots == [On(0).(evict := true), Waiter(0).(evict := true, pc := GiveLock), On(10), On(10)];
  }

  /**
   * Two newcomers can tell each other to leave: both were accepted before the two sessions that
   * have settled meanwhile, so each is the oldest session for the other.
   */
  lemma NewcomersCanEvictEachOther()
    ensures exists es1: seq<Event>, es2: seq<Event> ::
              MovesOf(es2, NEWCOMERS) && MutualEviction(Run(Init(), es1), Run(Run(Init(), es1), es2))
  {
    hide MutualEviction, Run, MovesOf, Next;
    var s := FirstPicksSecond();
    var t := SecondPicksFirst(s);
    BothAreFlagged(s, t);
    var es1: seq<Event> :| Run(Init(), es1) == s;
    var es2: seq<Event> :| MovesOf(es2, NEWCOMERS) && Run(s, es2) == t;
  }
}
