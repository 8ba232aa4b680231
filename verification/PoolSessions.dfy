/**
 * Single sessions in the pool: who becomes one, what a failed login comes to, that nobody is told to
 * leave unless four sessions were seen, and what a newcomer and the acceptor do when left alone.
 */
module PoolSessions {
  import opened Common
  import opened SessionPool
  import opened PoolRuns

  // ------------------------------------------------------------------------------------
  // Logging in
  // ------------------------------------------------------------------------------------

  /** In every run: a slot comes to be occupied only by a task that was started, and authenticated only by a login. */
  lemma OnlyLoginsAuthenticate(es: seq<Event>, e: Event, j: nat)
    requires j < SLOTS
    ensures var s, s' := Run(Init(), es), Next(Run(Init(), es), e);
            && (s.slots[j].pc.Idle? && !s'.slots[j].pc.Idle? ==>
                  e.AcceptorMoves? && e.spawned && s.acceptor == Spawn(j) && s'.slots[j].pc.Handshake?)
            && (!s.slots[j].authenticated && s'.slots[j].authenticated ==>
                  e == TaskMoves(j, true) && s.slots[j].pc.Handshake?)
  {
    InitInv();
    RunKeepsInv(Init(), es);
    var s := Run(Init(), es);
    hide Inv, Run;
    match e
    case AcceptorMoves(_, _) => hide TaskStep;
    case TaskMoves(u, authOk) =>
      if u < SLOTS && u != j {
        KnowsOf(s, u);
        TaskTouches(s, u, authOk, j);
        hide TaskStep;
      }
  }

  lemma KnowsOf(s: State, u: nat)
    requires Inv(s) && u < SLOTS
    ensures Shape(s) && SectionKnows(s, u) && SlotShape(s, u)
  {
  }

  /** Where a session's task stands after so many steps of its teardown. */
  function Teardown(steps: nat): Pc {
    if steps == 0 then ClearAuth else if steps == 1 then ClearEvict else if steps == 2 then ClearInUse else Idle
  }

  function StepsOf(es: seq<Event>, j: nat): nat
    decreases |es|
  {
    if es == [] then 0 else (if Thread(es[0]) == j then 1 else 0) + StepsOf(es[1..], j)
  }

  /** No other session starts in slot j. */
  ghost predicate NoNewSession(s: State, es: seq<Event>, j: nat)
    requires |s.slots| == SLOTS && j < SLOTS
    decreases |es|
  {
    !s.slots[j].pc.Handshake? && (es != [] ==> NoNewSession(Next(s, es[0]), es[1..], j))
  }

  lemma TeardownStep(s: State, e: Event, j: nat, steps: nat)
    requires Inv(s) && j < SLOTS && s.slots[j].pc == Teardown(steps) && !Next(s, e).slots[j].pc.Handshake?
    requires steps > 0 ==> !s.slots[j].authenticated
    ensures var s', done := Next(s, e), steps + if Thread(e) == j then 1 else 0;
            s'.slots[j].pc == Teardown(done) && (done > 0 ==> !s'.slots[j].authenticated)
    ensures Thread(e) == j ==> forall i: nat | i < SLOTS :: Next(s, e).slots[i].evict ==> s.slots[i].evict
  {
    match e
    case AcceptorMoves(_, _) => hide TaskStep;
    case TaskMoves(u, authOk) =>
      if u < SLOTS && u != j {
        KnowsOf(s, u);
        TaskTouches(s, u, authOk, j);
        hide TaskStep;
      }
  }

  lemma {:induction false} RunsTeardown(s: State, es: seq<Event>, j: nat, steps: nat)
    requires |s.slots| == SLOTS && Inv(s) && j < SLOTS && NoNewSession(s, es, j) && s.slots[j].pc == Teardown(steps)
    requires steps > 0 ==> !s.slots[j].authenticated
    ensures var t, done := Run(s, es), steps + StepsOf(es, j);
            t.slots[j].pc == Teardown(done) && (done > 0 ==> !t.slots[j].authenticated)
    decreases |es|
  {
    hide Inv, Teardown;
    if es != [] {
      StartsNone(Next(s, es[0]), es[1..], j);
      TeardownStep(s, es[0], j, steps);
      NextKeepsInv(s, es[0]);
      hide Next;
      RunsTeardown(Next(s, es[0]), es[1..], j, steps + if Thread(es[0]) == j then 1 else 0);
    }
  }

  lemma StartsNone(s: State, es: seq<Event>, j: nat)
    requires |s.slots| == SLOTS && j < SLOTS && NoNewSession(s, es, j)
    ensures !s.slots[j].pc.Handshake?
  {
  }

  /**
   * A login that fails comes to nothing. Whatever the others do, the session's next three steps take it
   * out of its slot; until another one starts there it is never authenticated, never holds the mutex,
   * and no step of its own tells anybody to leave.
   */
  lemma FailedLoginEvictsNobody(es1: seq<Event>, j: nat, es2: seq<Event>)
    requires j < SLOTS && Run(Init(), es1).slots[j].pc.Handshake?
    requires NoNewSession(Next(Run(Init(), es1), TaskMoves(j, false)), es2, j)
    ensures var t := Run(Next(Run(Init(), es1), TaskMoves(j, false)), es2);
            && t.slots[j].pc == Teardown(StepsOf(es2, j)) && !t.slots[j].authenticated && t.mutex != HeldByTask(j)
            && forall authOk: bool, i: nat | i < SLOTS :: Next(t, TaskMoves(j, authOk)).slots[i].evict ==> t.slots[i].evict
  {
    InitInv();
    RunKeepsInv(Init(), es1);
    var before := Run(Init(), es1);
    var s := Next(before, TaskMoves(j, false));
    NextKeepsInv(before, TaskMoves(j, false));
    KnowsOf(before, j);
    assert s.slots[j].pc == ClearAuth && !s.slots[j].authenticated;
    RunsTeardown(s, es2, j, 0);
    RunKeepsInv(s, es2);
    StaysOut(s, es2, j);
    var t := Run(s, es2);
    KnowsOf(t, j);
    forall authOk: bool, i: nat | i < SLOTS ensures Next(t, TaskMoves(j, authOk)).slots[i].evict ==> t.slots[i].evict {
      LeavingRaisesNothing(t, j, authOk, i);
    }
    hide Run, Next, Inv;
  }

  /** Until another session starts in slot j nobody is authenticated there. */
  lemma {:induction false} StaysOut(s: State, es: seq<Event>, j: nat)
    requires |s.slots| == SLOTS && Inv(s) && j < SLOTS && NoNewSession(s, es, j) && !s.slots[j].authenticated
    ensures !Run(s, es).slots[j].authenticated
    decreases |es|
  {
    hide Inv;
    if es != [] {
      JoinsAtHandshake(s, es[0], j);
      NextKeepsInv(s, es[0]);
      hide Next;
      StaysOut(Next(s, es[0]), es[1..], j);
    }
  }

  lemma JoinsAtHandshake(s: State, e: Event, j: nat)
    requires Inv(s) && j < SLOTS && !s.slots[j].authenticated && !s.slots[j].pc.Handshake?
    ensures !Next(s, e).slots[j].authenticated
  {
    match e
    case AcceptorMoves(_, _) => hide TaskStep;
    case TaskMoves(u, authOk) =>
      if u < SLOTS && u != j {
        KnowsOf(s, u);
        TaskTouches(s, u, authOk, j);
        hide TaskStep;
      }
  }

  lemma LeavingRaisesNothing(s: State, j: nat, authOk: bool, i: nat)
    requires |s.slots| == SLOTS && j < SLOTS && i < SLOTS
    requires s.slots[j].pc.ClearAuth? || s.slots[j].pc.ClearEvict? || s.slots[j].pc.ClearInUse? || s.slots[j].pc.Idle?
    ensures Next(s, TaskMoves(j, authOk)).slots[i].evict ==> s.slots[i].evict
  {
  }

  // ------------------------------------------------------------------------------------
  // Nobody is told to leave below capacity
  // ------------------------------------------------------------------------------------

  /** At some moment of the run slot j held an authenticated session. */
  ghost predicate Was(s: State, es: seq<Event>, j: nat)
    requires |s.slots| == SLOTS && j < SLOTS
    decreases |es|
  {
    Run(s, es).slots[j].authenticated || (es != [] && Was(s, es[..|es| - 1], j))
  }

  /** Throughout the run task t has not left its critical section. */
  ghost predicate OneSection(s: State, es: seq<Event>, t: nat)
    requires |s.slots| == SLOTS && t < SLOTS
    decreases |es|
  {
    BeforeExit(Run(s, es).slots[t].pc) && (es != [] ==> OneSection(s, es[..|es| - 1], t))
  }

  ghost function SlotsSeen(s: State, es: seq<Event>): set<nat>
    requires |s.slots| == SLOTS
  {
    set j: nat | j < SLOTS && Was(s, es, j)
  }

  /** The count that a scan has reached, as a bound on the slots it has seen authenticated. */
  ghost predicate CountedSeen(seen: set<nat>, pc: Pc) {
    match pc
    case WantLock => true
    case CountInUse(k, c) => c <= k <= SLOTS && (c == k ==> forall j: nat | j < k :: j in seen)
    case CountAuth(k, c) => c <= k < SLOTS && (c == k ==> forall j: nat | j < k :: j in seen)
    case GiveLock => true
    case _ => forall j: nat | j < SLOTS :: j in seen
  }

  lemma RunOneMore(s: State, es: seq<Event>)
    requires |s.slots| == SLOTS && es != []
    ensures Run(s, es) == Next(Run(s, es[..|es| - 1]), es[|es| - 1])
  {
    hide Next;
    RunConcat(s, es[..|es| - 1], [es[|es| - 1]]);
    assert es == es[..|es| - 1] + [es[|es| - 1]];
    var t := Run(s, es[..|es| - 1]);
    assert Run(t, [es[|es| - 1]]) == Run(Next(t, es[|es| - 1]), []);
  }

  lemma SeenGrows(s: State, es: seq<Event>)
    requires |s.slots| == SLOTS && es != []
    ensures SlotsSeen(s, es[..|es| - 1]) <= SlotsSeen(s, es)
    ensures forall j: nat | j < SLOTS && Run(s, es[..|es| - 1]).slots[j].authenticated :: j in SlotsSeen(s, es)
  {
    hide Run;
  }

  lemma CountsSeen(s: State, t: nat, authOk: bool, seen: set<nat>, seen': set<nat>)
    requires |s.slots| == SLOTS && t < SLOTS && CountedSeen(seen, s.slots[t].pc) && BeforeExit(s.slots[t].pc)
    requires seen <= seen' && forall j: nat | j < SLOTS && s.slots[j].authenticated :: j in seen'
    ensures BeforeExit(TaskStep(s, t, authOk).slots[t].pc) ==> CountedSeen(seen', TaskStep(s, t, authOk).slots[t].pc)
  {
    hide BetterOf;
    match s.slots[t].pc
    case WantLock =>
    case CountInUse(_, _) =>
    case CountAuth(_, _) =>
    case _ =>
  }

  lemma OthersLeavePc(s: State, e: Event, t: nat)
    requires Inv(s) && t < SLOTS && BeforeExit(s.slots[t].pc) && Thread(e) != t
    ensures Next(s, e).slots[t].pc == s.slots[t].pc
  {
    KnowsOf(s, t);
    match e
    case AcceptorMoves(now, spawned) => AcceptorFrame(s, now, spawned, t);
    case TaskMoves(u, authOk) => if u < SLOTS { KnowsOf(s, u); TaskTouches(s, u, authOk, t); }
  }

  lemma {:induction false} SectionSees(s: State, es: seq<Event>, t: nat)
    requires |s.slots| == SLOTS && Inv(s) && t < SLOTS && s.slots[t].pc.WantLock? && OneSection(s, es, t)
    ensures CountedSeen(SlotsSeen(s, es), Run(s, es).slots[t].pc)
    decreases |es|
  {
    hide Was, Inv, CountedSeen, SlotsSeen;
    if es == [] {
      WaitsUncounted(SlotsSeen(s, es));
    } else {
      var rest, e := es[..|es| - 1], es[|es| - 1];
      SectionSees(s, rest, t);
      RunKeepsInv(s, rest);
      InSectionStill(s, rest, t);
      InSectionStill(s, es, t);
      RunOneMore(s, es);
      SeenGrows(s, es);
      hide Run;
      if Thread(e) == t {
        CountsSeen(Run(s, rest), t, e.authOk, SlotsSeen(s, rest), SlotsSeen(s, es));
      } else {
        OthersLeavePc(Run(s, rest), e, t);
        SeesMore(SlotsSeen(s, rest), SlotsSeen(s, es), Run(s, es).slots[t].pc);
        hide Next;
      }
    }
  }

  lemma WaitsUncounted(seen: set<nat>)
    ensures CountedSeen(seen, WantLock)
  {
  }

  lemma SeesMore(seen: set<nat>, seen': set<nat>, pc: Pc)
    requires CountedSeen(seen, pc) && seen <= seen'
    ensures CountedSeen(seen', pc)
  {
  }

  lemma InSectionStill(s: State, es: seq<Event>, t: nat)
    requires |s.slots| == SLOTS && t < SLOTS && OneSection(s, es, t)
    ensures BeforeExit(Run(s, es).slots[t].pc)
  {
  }

  /**
   * Whenever a task is about to tell a session to leave, every one of the four slots held an
   * authenticated session at some moment since that task was waiting for the mutex: below capacity
   * nobody is told to leave.
   */
  lemma EvictionsFindFourSessions(es1: seq<Event>, es2: seq<Event>, t: nat, v: nat, j: nat)
    requires t < SLOTS && j < SLOTS && Run(Init(), es1).slots[t].pc.WantLock?
    requires OneSection(Run(Init(), es1), es2, t) && Run(Run(Init(), es1), es2).slots[t].pc == StoreEvict(v)
    ensures Was(Run(Init(), es1), es2, j)
  {
    InitInv();
    RunKeepsInv(Init(), es1);
    hide Run, Inv, OneSection, Was, CountedSeen, SlotsSeen;
    SectionSees(Run(Init(), es1), es2, t);
    SeesAll(Run(Init(), es1), es2, v, j);
  }

  lemma SeesAll(s: State, es: seq<Event>, v: nat, j: nat)
    requires |s.slots| == SLOTS && CountedSeen(SlotsSeen(s, es), StoreEvict(v)) && j < SLOTS
    ensures Was(s, es, j)
  {
    assert j in SlotsSeen(s, es);
  }

  // ------------------------------------------------------------------------------------
  // A newcomer alone
  // ------------------------------------------------------------------------------------

  /** The session that stays longest already, among all but t. */
  ghost predicate Oldest(s: State, t: nat, v: nat)
    requires |s.slots| == SLOTS && v < SLOTS
  {
    v != t && Staying(s.slots[v]) && forall i: nat | i < SLOTS && i != t && Staying(s.slots[i]) :: Precedes(s, v, i)
  }

  ghost predicate OldestBelow(s: State, t: nat, k: nat, o: Option<nat>)
    requires |s.slots| == SLOTS && k <= SLOTS
  {
    match o
    case None => forall i: nat | i < k && i != t :: !Staying(s.slots[i])
    case Some(v) => v < k && v != t && Staying(s.slots[v]) &&
                    forall i: nat | i < k && i != t && Staying(s.slots[i]) :: Precedes(s, v, i)
  }

  /** The other sessions that stay were all accepted within half a wrap of each other. */
  ghost predicate Close(s: State, t: nat)
    requires |s.slots| == SLOTS
  {
    forall i: nat, j: nat | i < SLOTS && j < SLOTS && i != t && j != t && Staying(s.slots[i]) && Staying(s.slots[j]) ::
      s.slots[i].accepted - s.slots[j].accepted < TWO31
  }

  lemma AfterIsOldest(s: State, t: nat, k: nat, o: Option<nat>)
    requires |s.slots| == SLOTS && k < SLOTS && Close(s, t) && OldestBelow(s, t, k, o)
    ensures OldestBelow(s, t, k + 1, After(s, t, k, o))
  {
    if k != t && Staying(s.slots[k]) && o.Some? {
      assert s.slots[k].accepted - s.slots[o.value].accepted < TWO31;
      assert s.slots[o.value].accepted - s.slots[k].accepted < TWO31;
      Earlier32Exact(s.slots[k].accepted, s.slots[o.value].accepted);
    }
    hide Close, Staying, Earlier32;
  }

  lemma {:induction false} PickIsOldest(s: State, t: nat, k: nat, o: Option<nat>)
    requires |s.slots| == SLOTS && k <= SLOTS && Close(s, t) && OldestBelow(s, t, k, o)
    ensures o.Some? ==> o.value < SLOTS
    ensures OldestBelow(s, t, SLOTS, PickFrom(s, t, k, o))
    decreases SLOTS - k
  {
    if k < SLOTS {
      AfterIsOldest(s, t, k, o);
      hide After, Close;
      PickIsOldest(s, t, k + 1, After(s, t, k, o));
    }
  }

  /** A newcomer's task past its section: it serves its client, and v has been told to leave. */
  function Served(s: State, t: nat, v: Option<nat>): State
    requires |s.slots| == SLOTS && t < SLOTS && (v.Some? ==> v.value < SLOTS)
  {
    var settled := Put(s, t, s.slots[t].(authenticated := true, pc := Serving));
    if v.None? then settled else Put(settled, v.value, settled.slots[v.value].(evict := true))
  }

  /** With nobody else moving: what the section of a newcomer comes to. */
  lemma Serves(s: State, t: nat) returns (v: Option<nat>)
    requires |s.slots| == SLOTS && t < SLOTS && s.mutex.Free? && s.slots[t].pc.Handshake?
    ensures v == (var w := Put(s, t, s.slots[t].(authenticated := true, pc := WantLock));
                  if Tally(w.slots, SLOTS) > MAX_SESSIONS then PickFrom(w, t, 0, None) else None)
    ensures v.Some? ==> v.value < SLOTS && v.value != t
    ensures Reaches(s, Served(s, t, v), {t})
  {
    hide Reaches, Tally, PickFrom, TaskStep;
    var who := {t};
    Start(s, who);
    var w := Authenticates(s, s, t, who);
    if Tally(w.slots, SLOTS) <= MAX_SESSIONS {
      v := None;
      var done := Settles(s, w, t, who);
      assert done.slots == Served(s, t, None).slots;
    } else {
      v := PickFrom(w, t, 0, None);
      PickIsOther(w, t, 0, None);
      if v.None? {
        var done := PicksNobody(s, w, t, who);
        assert done.slots == Served(s, t, None).slots;
      } else {
        var picked := Picks(s, w, t, v.value, who);
        var done := StoresAndGives(s, picked, t, v.value, who);
        assert done.slots == Served(s, t, v).slots;
      }
    }
  }

  lemma {:induction false} PickIsOther(s: State, t: nat, k: nat, o: Option<nat>)
    requires |s.slots| == SLOTS && k <= SLOTS && (o.Some? ==> o.value < SLOTS && o.value != t)
    ensures var v := PickFrom(s, t, k, o); v.Some? ==> v.value < SLOTS && v.value != t
    decreases SLOTS - k
  {
    if k < SLOTS { PickIsOther(s, t, k + 1, After(s, t, k, o)); }
  }

  lemma StoresAndGives(base: State, s: State, t: nat, v: nat, who: set<nat>) returns (s': State)
    requires |base.slots| == |s.slots| == SLOTS && Reaches(base, s, who) && t < SLOTS && t in who
    requires v < SLOTS && v != t && s.slots[t].pc == StoreEvict(v)
    ensures Reaches(base, s', who)
    ensures s' == Put(Goto(s, t, Serving), v, s.slots[v].(evict := true)).(mutex := Free)
  {
    hide Reaches;
    s' := Moves(base, s, t, who);
    s' := Moves(base, s', t, who);
    assert s'.slots == s.slots[t := s.slots[t].(pc := Serving)][v := s.slots[v].(evict := true)];
  }

  /** Everybody else has been told to leave already. */
  lemma PicksNobody(base: State, s: State, t: nat, who: set<nat>) returns (s': State)
    requires |base.slots| == |s.slots| == SLOTS && Reaches(base, s, who) && t < SLOTS && t in who
    requires s.mutex.Free? && s.slots[t].pc.WantLock? && Tally(s.slots, SLOTS) > MAX_SESSIONS
    requires PickFrom(s, t, 0, None) == None
    ensures Reaches(base, s', who) && s' == Goto(s, t, Serving)
  {
    hide Reaches, Tally, After;
    var held := s.(mutex := HeldByTask(t));
    s' := Counts(base, s, t, who);
    s' := Moves(base, s', t, who);
    assert s'.slots == s.slots[t := s.slots[t].(pc := PickInUse(0, None))];
    s' := Scans(base, held, t, who);
    SamePick(s, held, t, 0, None);
    s' := Moves(base, s', t, who);
    assert s'.slots == s.slots[t := s.slots[t].(pc := GiveLock)];
    s' := Moves(base, s', t, who);
    assert s'.slots == s.slots[t := s.slots[t].(pc := Serving)];
  }

  /**
   * A newcomer always gets its seat. From every reachable state with the mutex free its own steps
   * alone take it from a good login to serving its client; the only other change is that the oldest
   * of the others that stay is told to leave, and that exactly if all four slots hold authenticated sessions.
   */
  lemma NewcomerIsServed(es: seq<Event>, t: nat)
    requires t < SLOTS && Run(Init(), es).slots[t].pc.Handshake? && Run(Init(), es).mutex.Free? && Close(Run(Init(), es), t)
    ensures var s := Run(Init(), es);
            if && (exists v: nat :: v < SLOTS && Oldest(s, t, v))
               && (forall i: nat | i < SLOTS && i != t :: s.slots[i].authenticated)
            then exists v: nat :: v < SLOTS && Oldest(s, t, v) && Reaches(s, Served(s, t, Some(v)), {t})
            else Reaches(s, Served(s, t, None), {t})
  {
    InitInv();
    RunKeepsInv(Init(), es);
    var s := Run(Init(), es);
    var v := Serves(s, t);
    hide Run, Inv, Staying;
    var w := Put(s, t, s.slots[t].(authenticated := true, pc := WantLock));
    FullExactlyWhen(s, t);
    assert Close(w, t);
    PickIsOldest(w, t, 0, None);
    OldestOfBoth(s, t, PickFrom(w, t, 0, None));
    hide Reaches, Run, Inv, Tally, PickFrom, Oldest, OldestBelow, Served, Close;
  }

  lemma FullExactlyWhen(s: State, t: nat)
    requires Inv(s) && t < SLOTS && s.slots[t].pc.Handshake? && |s.slots| == SLOTS
    ensures Tally(s.slots[t := s.slots[t].(authenticated := true, pc := WantLock)], SLOTS) > MAX_SESSIONS
       <==> forall i: nat | i < SLOTS && i != t :: s.slots[i].authenticated
  {
    forall i: nat | i < SLOTS ensures s.slots[i].authenticated ==> s.slots[i].inUse { KnowsOf(s, i); }
    KnowsOf(s, t);
    FourSlots(s.slots[t := s.slots[t].(authenticated := true, pc := WantLock)]);
    hide Inv, Tally;
  }

  lemma OldestOfBoth(s: State, t: nat, v: Option<nat>)
    requires |s.slots| == SLOTS && t < SLOTS
    requires OldestBelow(Put(s, t, s.slots[t].(authenticated := true, pc := WantLock)), t, SLOTS, v)
    ensures match v
            case None => !(exists u: nat :: u < SLOTS && Oldest(s, t, u))
            case Some(u) => u < SLOTS && Oldest(s, t, u)
  {
    var w := Put(s, t, s.slots[t].(authenticated := true, pc := WantLock));
    assert forall i: nat | i < SLOTS && i != t :: w.slots[i] == s.slots[i];
    assert forall i: nat, j: nat | i < SLOTS && j < SLOTS :: Precedes(w, i, j) <==> Precedes(s, i, j);
    hide Staying, Precedes;
    if v.Some? {
      forall i: nat | i < SLOTS && i != t && Staying(s.slots[i]) ensures Precedes(s, v.value, i) {
        assert Staying(w.slots[i]);
      }
    }
  }

  // ------------------------------------------------------------------------------------
  // The acceptor alone
  // ------------------------------------------------------------------------------------

  /**
   * A connection is taken as long as a slot is free: with nobody else moving it gets the first free slot,
   * stamped with its time, unless its task cannot be started. With all slots busy it is turned away
   * and nothing has changed.
   */
  lemma FreeSlotIsGiven(s: State, now: nat, spawned: bool) returns (j: nat)
    requires |s.slots| == SLOTS && s.acceptor.Waiting? && s.mutex.Free?
    ensures j <= SLOTS && (forall i: nat | i < j :: s.slots[i].inUse)
    ensures j < SLOTS ==>
              && !s.slots[j].inUse
              && Reaches(s, Put(s, j, if spawned then s.slots[j].(inUse := true, accepted := now, pc := Handshake)
                                      else s.slots[j].(accepted := now)), {ACCEPTOR})
    ensures j == SLOTS ==>
              var refusing := s.(acceptor := Release(None), mutex := HeldByAcceptor);
              Reaches(s, refusing, {ACCEPTOR}) && Next(refusing, AcceptorMoves(now, spawned)) == s
  {
    hide Reaches;
    j := 0;
    while j < SLOTS && s.slots[j].inUse
      invariant j <= SLOTS && forall i: nat | i < j :: s.slots[i].inUse
    {
      j := j + 1;
    }
    Start(s, {ACCEPTOR});
    if j < SLOTS {
      var _ := Accepts(s, s, j, now, {ACCEPTOR}, spawned);
    } else {
      var t := PassesOccupied(s, s, SLOTS, AcceptorMoves(now, spawned), {ACCEPTOR});
      t := Follow(s, t, AcceptorMoves(now, spawned), {ACCEPTOR});
    }
  }
}
