/**
 * What the VPN task does for what happens to it: when it fails over, what requests, checks and starts
 * come to, and what its state says to others.
 */
module VpnPolicy {
  import opened Common
  import opened VpnFailover

  // ------------------------------------------------------------------------------------
  // The failover rule, in both directions
  // ------------------------------------------------------------------------------------

  predicate IsFailure(note: Note) { note.StartFailed? || note.CheckFailed? }

  /** Failures in a row, up to 255: since a profile was entered, was healthy, or was left because it did not start. */
  function Counted(h: seq<Note>): nat
    decreases |h|
  {
    if h == [] then 0
    else
      var rest := h[..|h| - 1];
      match h[|h| - 1]
      case Entered(_) => 0
      case Healthy(_) => 0
      case StartFailed(_) => Min(Counted(rest) + 1, UINT8_MAX)
      case CheckFailed(_) => Min(Counted(rest) + 1, UINT8_MAX)
      case AutoSwitch(_, _) => if rest != [] && rest[|rest| - 1].StartFailed? then 0 else Counted(rest)
      case ConsoleSwitch(_) => Counted(rest)
  }

  /** A failure is answered by a switch exactly if it is the third in a row, or a later one, and there are two profiles. */
  ghost predicate Answered(n: nat, h: seq<Note>, i: nat)
    requires i < |h|
  {
    IsFailure(h[i]) ==> ((i + 1 < |h| && h[i + 1].AutoSwitch?) <==> (n > 1 && Counted(h[..i + 1]) >= FAILURES_BEFORE_FAILOVER))
  }

  ghost predicate AllAnswered(n: nat, h: seq<Note>) {
    forall i: nat | i < |h| :: Answered(n, h, i)
  }

  /** The loop-head invariant: the counter is the count, and every failure has been answered. */
  ghost predicate Counts(n: nat, v: Vpn, h: seq<Note>) {
    v.failures == Counted(h) && v.failures <= UINT8_MAX && AllAnswered(n, h)
  }

  lemma CountOne(h: seq<Note>, note: Note)
    ensures Counted(h + [note]) ==
              match note
              case Entered(_) => 0
              case Healthy(_) => 0
              case StartFailed(_) => Min(Counted(h) + 1, UINT8_MAX)
              case CheckFailed(_) => Min(Counted(h) + 1, UINT8_MAX)
              case AutoSwitch(_, _) => if h != [] && h[|h| - 1].StartFailed? then 0 else Counted(h)
              case ConsoleSwitch(_) => Counted(h)
  {
    assert (h + [note])[..|h + [note]| - 1] == h;
  }

  /** A note that is no switch, and a failure only if it calls for none. */
  lemma AnswersOne(n: nat, h: seq<Note>, note: Note)
    requires AllAnswered(n, h) && !note.AutoSwitch?
    requires IsFailure(note) ==> n <= 1 || Counted(h + [note]) < FAILURES_BEFORE_FAILOVER
    ensures AllAnswered(n, h + [note])
  {
    var all := h + [note];
    forall i: nat | i < |all| ensures Answered(n, all, i) {
      if i < |h| {
        assert Answered(n, h, i);
        assert all[..i + 1] == h[..i + 1];
      } else {
        assert all[..i + 1] == all;
      }
    }
  }

  lemma AnswersTwo(n: nat, h: seq<Note>, failure: Note, to: Note)
    requires AllAnswered(n, h) && IsFailure(failure) && to.AutoSwitch?
    requires n > 1 && Counted(h + [failure]) >= FAILURES_BEFORE_FAILOVER
    ensures AllAnswered(n, h + [failure, to])
  {
    var all := h + [failure, to];
    forall i: nat | i < |all| ensures Answered(n, all, i) {
      if i < |h| {
        assert Answered(n, h, i);
        assert all[..i + 1] == h[..i + 1];
      } else if i == |h| {
        assert all[..i + 1] == h + [failure];
      }
    }
  }

  /** A counted failure and its answer. */
  lemma FailureCounts(n: nat, h: seq<Note>, failures: nat, failure: Note, to: Note)
    requires AllAnswered(n, h) && failures == Counted(h) <= UINT8_MAX && IsFailure(failure) && to.AutoSwitch?
    ensures var f := OneMoreFailure(failures);
            if n > 1 && f >= FAILURES_BEFORE_FAILOVER
            then AllAnswered(n, h + [failure, to]) &&
                 Counted(h + [failure, to]) == if failure.StartFailed? then 0 else f
            else AllAnswered(n, h + [failure]) && Counted(h + [failure]) == f
  {
    CountOne(h, failure);
    CountOne(h + [failure], to);
    assert h + [failure, to] == (h + [failure]) + [to];
    hide Counted, AllAnswered;
    var f := OneMoreFailure(failures);
    if n > 1 && f >= FAILURES_BEFORE_FAILOVER { AnswersTwo(n, h, failure, to); } else { AnswersOne(n, h, failure); }
  }

  lemma TakeRequestCounts(n: nat, v: Vpn, h: seq<Note>)
    requires Counts(n, v, h)
    ensures var (v', notes) := TakeRequest(n, v); Counts(n, v', h + notes)
  {
    var (v', notes) := TakeRequest(n, v);
    if notes == [] {
      assert h + notes == h;
    } else {
      CountOne(h, notes[0]);
      AnswersOne(n, h, notes[0]);
      assert h + notes == h + [notes[0]];
    }
    hide Counted, AllAnswered;
  }

  lemma StartProfileCounts(n: nat, v: Vpn, h: seq<Note>, env: Env)
    requires Counts(n, v, h)
    ensures var (v', notes) := StartProfile(v, v.desired, env); Counts(n, v', h + notes)
  {
    var (v', notes) := StartProfile(v, v.desired, env);
    if notes == [] {
      assert h + notes == h;
    } else {
      CountOne(h, notes[0]);
      AnswersOne(n, h, notes[0]);
      assert h + notes == h + [notes[0]];
    }
    hide Counted, AllAnswered, Starts;
  }

  lemma BringUpCounts(n: nat, v: Vpn, h: seq<Note>, env: Env)
    requires Counts(n, v, h)
    ensures var (v', notes) := BringUp(n, v, env); Counts(n, v', h + notes)
  {
    StartProfileCounts(n, v, h, env);
    var (v1, notes1) := StartProfile(v, v.desired, env);
    if !v1.up {
      FailureCounts(n, h + notes1, v1.failures, StartFailed(v1.desired), AutoSwitch(v1.desired, Toggle(v1.desired)));
      var (v2, notes2) := AfterFailedStart(n, v1);
      assert h + (notes1 + notes2) == (h + notes1) + notes2;
    }
    hide Counted, AllAnswered, StartProfile;
  }

  lemma CheckHealthCounts(n: nat, v: Vpn, h: seq<Note>, env: Env)
    requires Counts(n, v, h) && v.active.Some?
    ensures var (v', notes) := CheckHealth(n, v, env); Counts(n, v', h + notes)
  {
    var (v', notes) := CheckHealth(n, v, env);
    if notes == [] {
      assert h + notes == h;
    } else if notes[0].Healthy? {
      CountOne(h, notes[0]);
      AnswersOne(n, h, notes[0]);
      assert h + notes == h + [notes[0]];
    } else {
      FailureCounts(n, h, v.failures, notes[0], AutoSwitch(v.active.value, OtherThan(v.active)));
    }
    hide Counted, AllAnswered, Due, Sub32;
  }

  lemma CycleCounts(n: nat, v: Vpn, h: seq<Note>, env: Env)
    requires Counts(n, v, h) && (v.up ==> v.active.Some?)
    ensures var (v', notes) := CycleStep(n, v, env); Counts(n, v', h + notes)
  {
    hide BringUp, CheckHealth, Counted, AllAnswered;
    var (v', notes) := CycleStep(n, v, env);
    if n == 0 || !env.wifi {
      assert h + notes == h;
    } else {
      var v0 := v.(desired := if v.desired >= n then 0 else v.desired);
      TakeRequestCounts(n, v0, h);
      var (v1, notes1) := TakeRequest(n, v0);
      var (v2, notes2) := if v1.up then (v1, []) else BringUp(n, v1, env);
      if v1.up { assert (h + notes1) + notes2 == h + notes1; } else { BringUpCounts(n, v1, h + notes1, env); }
      Associates(h, notes1, notes2);
      hide TakeRequest;
      BringUpConnects(n, v1, env);
      if v2.up {
        CheckHealthCounts(n, v2, h + notes1 + notes2, env);
        var (v3, notes3) := CheckHealth(n, v2, env);
        Associates(h, notes1 + notes2, notes3);
      }
    }
  }

  lemma {:induction false} RunCounts(n: nat, es: seq<Event>)
    ensures var (v, h) := Run(n, es); Counts(n, v, h)
    decreases |es|
  {
    hide CycleStep;
    if es != [] {
      var (v, h) := Run(n, es[..|es| - 1]);
      RunCounts(n, es[..|es| - 1]);
      match es[|es| - 1]
      case Console(_) => assert h + [] == h;
      case Cycle(env) => CycleCounts(n, v, h, env);
    }
  }

  /**
   * In every run the counter is exactly the number of failures in a row, and every failed start or counted
   * failed check is followed at once by an automatic switch if and only if it is at least the third in
   * a row and there are two profiles.
   */
  lemma FailoverExactlyOnTheThird(n: nat, es: seq<Event>, i: nat)
    requires i < |Run(n, es).1| && IsFailure(Run(n, es).1[i])
    ensures var (v, h) := Run(n, es);
            && v.failures == Counted(h)
            && ((i + 1 < |h| && h[i + 1].AutoSwitch?) <==> (n > 1 && Counted(h[..i + 1]) >= FAILURES_BEFORE_FAILOVER))
  {
    RunCounts(n, es);
    assert Answered(n, Run(n, es).1, i);
  }

  // ------------------------------------------------------------------------------------
  // When a start succeeds
  // ------------------------------------------------------------------------------------

  /** The call before attempt k asked for a retry, with Wi-Fi up and before the deadline. */
  predicate GoesOn(a: Attempt) {
    a.result == Retry && a.wifi && a.elapsedMs < CONNECT_DEADLINE_MS
  }

  lemma {:induction false} ConnectedExactlyWhen(attempts: seq<Attempt>)
    ensures ConnectLoop(attempts) == Connected <==>
              exists k: nat :: k < |attempts| && attempts[k].result == Connected && forall j: nat | j < k :: GoesOn(attempts[j])
    decreases |attempts|
  {
    if attempts != [] {
      var rest := attempts[1..];
      ConnectedExactlyWhen(rest);
      if GoesOn(attempts[0]) {
        if ConnectLoop(rest) == Connected {
          var k: nat :| k < |rest| && rest[k].result == Connected && forall j: nat | j < k :: GoesOn(rest[j]);
          forall j: nat | j < k + 1 ensures GoesOn(attempts[j]) { if j > 0 { assert GoesOn(rest[j - 1]); } }
          assert attempts[k + 1].result == Connected;
        }
        if k: nat :| k < |attempts| && attempts[k].result == Connected && forall j: nat | j < k :: GoesOn(attempts[j]) {
          assert rest[k - 1].result == Connected;
          forall j: nat | j < k - 1 ensures GoesOn(rest[j]) { assert GoesOn(attempts[j + 1]); }
        }
      } else if attempts[0].result == Connected {
        var first: nat := 0;
        assert attempts[first].result == Connected;
      }
    }
  }

  /**
   * A profile starts exactly if the library initialises, connects after nothing but retries within the
   * deadline and with Wi-Fi, and takes both the routes and the default route.
   */
  lemma StartsExactlyWhen(env: Env)
    ensures Starts(env) <==>
              && env.initOk && env.routesOk && env.defaultRouteOk
              && exists k: nat :: k < |env.attempts| && env.attempts[k].result == Connected &&
                                  forall j: nat | j < k :: GoesOn(env.attempts[j])
  {
    ConnectedExactlyWhen(env.attempts);
  }

  // ------------------------------------------------------------------------------------
  // Three failed starts
  // ------------------------------------------------------------------------------------

  /** No tunnel, no request, and nothing counted against p, which is to be started next. */
  predicate AboutToStart(v: Vpn, p: nat) {
    v.desired == p && !v.up && v.pending == NoRequest && (v.active == Some(p) ==> v.failures == 0)
  }

  predicate StartFails(env: Env) { env.wifi && !Starts(env) }

  lemma FailedStartCycle(v: Vpn, p: nat, env: Env, f: nat)
    requires p < 2 && v.desired == p && !v.up && v.pending == NoRequest && StartFails(env)
    requires f == if v.active == Some(p) then v.failures else 0
    requires f < FAILURES_BEFORE_FAILOVER
    ensures var (v', notes) := CycleStep(2, v, env);
            && v'.active == Some(p) && !v'.up && v'.pending == NoRequest
            && (if f == 2
                then v'.desired == 1 - p && v'.failures == 0 && notes != [] && notes[|notes| - 1] == AutoSwitch(p, 1 - p)
                else v'.desired == p && v'.failures == f + 1)
  {
    hide Starts;
  }

  /**
   * A dead profile is given up: with two profiles, from every reachable state about to start p, three
   * cycles with Wi-Fi whose starts fail make the other profile the desired one, with a fresh counter.
   */
  lemma FailedStartsFailOver(es: seq<Event>, p: nat, env1: Env, env2: Env, env3: Env)
    requires AboutToStart(Run(2, es).0, p) && StartFails(env1) && StartFails(env2) && StartFails(env3)
    ensures var (v, h) := Run(2, es + [Cycle(env1)] + [Cycle(env2)] + [Cycle(env3)]);
            p < 2 && v.desired == 1 - p && v.failures == 0 && h != [] && h[|h| - 1] == AutoSwitch(p, 1 - p)
  {
    RunKeeps(2, es);
    RunStep(2, es, Cycle(env1));
    RunStep(2, es + [Cycle(env1)], Cycle(env2));
    RunStep(2, es + [Cycle(env1)] + [Cycle(env2)], Cycle(env3));
    hide Run, StartFails, CycleStep;
    var v0 := Run(2, es).0;
    FailedStartCycle(v0, p, env1, 0);
    var v1 := CycleStep(2, v0, env1).0;
    FailedStartCycle(v1, p, env2, 1);
    FailedStartCycle(CycleStep(2, v1, env2).0, p, env3, 2);
  }

  lemma RunStep(n: nat, es: seq<Event>, e: Event)
    ensures Run(n, es + [e]) == (Next(n, Run(n, es).0, e).0, Run(n, es).1 + Next(n, Run(n, es).0, e).1)
  {
    assert (es + [e])[..|es + [e]| - 1] == es;
  }

  // ------------------------------------------------------------------------------------
  // Three failed checks
  // ------------------------------------------------------------------------------------

  /** The stored stamps are the wrapped true times. */
  ghost predicate Stamped(v: Vpn) {
    v.up ==>
      && v.startedMs == Wrap32(v.startedAt)
      && v.lastCheckMs == if v.lastCheckAt.None? then 0 else Wrap32(v.lastCheckAt.value)
  }

  lemma {:induction false} RunStamps(n: nat, es: seq<Event>)
    ensures Stamped(Run(n, es).0)
    decreases |es|
  {
    if es != [] {
      var v := Run(n, es[..|es| - 1]).0;
      RunStamps(n, es[..|es| - 1]);
      if es[|es| - 1].Cycle? { CycleStamps(n, v, es[|es| - 1].env); }
      hide CycleStep, Stamped;
    }
  }

  lemma CycleStamps(n: nat, v: Vpn, env: Env)
    requires Stamped(v) && (v.up ==> v.active.Some?)
    ensures Stamped(CycleStep(n, v, env).0)
  {
    hide Starts, Wrap32, Sub32;
  }

  /** A cycle with Wi-Fi that finds the tunnel unhealthy, after the grace period and ten seconds or more after the last check. */
  predicate CheckFails(v: Vpn, env: Env) {
    && env.wifi && !env.healthy
    && v.startedAt + GRACE_MS <= env.now < v.startedAt + TWO32
    && (v.lastCheckAt.Some? ==> v.startedAt <= v.lastCheckAt.value && v.lastCheckAt.value + HEALTH_INTERVAL_MS <= env.now)
  }

  lemma FailedCheckCycle(v: Vpn, p: nat, env: Env)
    requires p < 2 && v.desired == p && v.active == Some(p) && v.up && v.pending == NoRequest && Stamped(v)
    requires CheckFails(v, env) && v.failures < FAILURES_BEFORE_FAILOVER
    ensures var (v', notes) := CycleStep(2, v, env);
            && v'.active == Some(p) && v'.pending == NoRequest && v'.startedAt == v.startedAt && v'.lastCheckAt == Some(env.now)
            && v'.failures == v.failures + 1
            && (if v.failures == 2 then v'.desired == 1 - p && !v'.up && notes == [CheckFailed(p), AutoSwitch(p, 1 - p)]
                else v'.desired == p && v'.up && notes == [CheckFailed(p)])
  {
    Sub32IsElapsed(v.startedAt, env.now);
    if v.lastCheckAt.Some? { Sub32IsElapsed(v.lastCheckAt.value, env.now); }
    hide Wrap32, Sub32, BringUp;
  }

  /**
   * So is a profile that has come up and does not work: three failed checks in a row after the grace period
   * take the tunnel down and make the other profile the desired one.
   */
  lemma FailedChecksFailOver(es: seq<Event>, env1: Env, env2: Env, env3: Env)
    requires var v := Run(2, es).0; v.up && v.pending == NoRequest && v.failures == 0 && CheckFails(v, env1)
    requires CheckFails(Run(2, es + [Cycle(env1)]).0, env2)
    requires CheckFails(Run(2, es + [Cycle(env1)] + [Cycle(env2)]).0, env3)
    ensures var p := Run(2, es).0.desired; var (v, h) := Run(2, es + [Cycle(env1)] + [Cycle(env2)] + [Cycle(env3)]);
            p < 2 && v.desired == 1 - p && !v.up && h != [] && h[|h| - 1] == AutoSwitch(p, 1 - p)
  {
    RunKeeps(2, es);
    RunStamps(2, es);
    RunStamps(2, es + [Cycle(env1)]);
    RunStamps(2, es + [Cycle(env1)] + [Cycle(env2)]);
    RunStep(2, es, Cycle(env1));
    RunStep(2, es + [Cycle(env1)], Cycle(env2));
    RunStep(2, es + [Cycle(env1)] + [Cycle(env2)], Cycle(env3));
    hide Run, CheckFails, CycleStep, Stamped;
    var v0 := Run(2, es).0;
    FailedCheckCycle(v0, v0.desired, env1);
    var v1 := CycleStep(2, v0, env1).0;
    FailedCheckCycle(v1, v0.desired, env2);
    FailedCheckCycle(CycleStep(2, v1, env2).0, v0.desired, env3);
  }

  // ------------------------------------------------------------------------------------
  // Requests, and cycles without failures
  // ------------------------------------------------------------------------------------

  /** What a cycle has to run: what is asked for, or else what is desired. */
  function Wanted(n: nat, v: Vpn): nat {
    match v.pending
    case NoRequest => v.desired
    case WantPrimary => 0
    case WantFailover => if n < 2 then v.desired else if v.active == Some(0) then 1 else 0
  }

  /** A request that changes nothing is no reason to take a tunnel down. */
  predicate Restarts(n: nat, v: Vpn) {
    !v.up || v.pending == WantPrimary || (v.pending == WantFailover && n == 2)
  }

  lemma CycleRunsWanted(n: nat, v: Vpn, env: Env)
    requires 0 < n <= MAX_PROFILES && env.wifi && v.desired < n && (v.up ==> v.active == Some(v.desired))
    ensures var t := CycleStep(n, v, env).0;
            && t.pending == NoRequest && t.active == Some(Wanted(n, v))
            && (Restarts(n, v) && Starts(env) ==> t.startedAt == env.startedAt)
            && (Restarts(n, v) && !Starts(env) ==> !t.up)
  {
    hide Starts, Wrap32, Sub32, CheckHealth, AfterFailedStart, TakeRequest;
    var v1 := TakeRequest(n, v).0;
    TakesWanted(n, v);
    var v2 := if v1.up then v1 else BringUp(n, v1, env).0;
    BringUpConnects(n, v1, env);
    if v2.up { CheckKeepsProfile(n, v2, env); }
    FailureKeepsProfile(n, StartProfile(v1, v1.desired, env).0);
  }

  lemma TakesWanted(n: nat, v: Vpn)
    requires 0 < n <= MAX_PROFILES
    ensures var v1 := TakeRequest(n, v).0;
            && v1.pending == NoRequest && v1.desired == Wanted(n, v) && v1.active == v.active
            && (v1.up <==> !Restarts(n, v)) && (v1.up ==> v.up && v1.desired == v.desired)
  {
  }

  lemma CheckKeepsProfile(n: nat, v: Vpn, env: Env)
    requires v.active.Some?
    ensures var t := CheckHealth(n, v, env).0; t.pending == v.pending && t.active == v.active && t.startedAt == v.startedAt
  {
    hide Wrap32, Sub32;
  }

  lemma FailureKeepsProfile(n: nat, v: Vpn)
    ensures var t := AfterFailedStart(n, v).0;
            t.pending == v.pending && t.active == v.active && t.startedAt == v.startedAt && t.up == v.up
  {
  }

  /**
   * A request met with Wi-Fi is honoured in that very cycle: the primary profile, or the other one than
   * the active, is started. With one profile a failover request is as good as none. Without Wi-Fi the
   * tunnel is down and the request stays in the mailbox.
   */
  lemma RequestsAreHonoured(n: nat, es: seq<Event>, env: Env)
    requires 0 < n <= MAX_PROFILES
    ensures var v := Run(n, es).0; var t := Next(n, v, Cycle(env)).0;
            if !env.wifi then t == v.(up := false, phase := WaitingForNetwork)
            else && t.pending == NoRequest && t.active == Some(Wanted(n, v))
                 && (Restarts(n, v) && Starts(env) ==> t.startedAt == env.startedAt)
                 && (Restarts(n, v) && !Starts(env) ==> !t.up)
  {
    RunKeeps(n, es);
    if env.wifi { CycleRunsWanted(n, Run(n, es).0, env); hide CycleStep; }
    hide Run, Starts, Restarts, Wanted;
  }

  /** Of two requests with no cycle between them the newer one counts. */
  lemma NewestRequestWins(n: nat, es: seq<Event>, a: Request, b: Request)
    ensures Run(n, es + [Console(a)] + [Console(b)]) == Run(n, es + [Console(b)])
    ensures Run(n, es + [Console(b)]).0 == Run(n, es).0.(pending := b)
  {
    RunStep(n, es, Console(a));
    RunStep(n, es + [Console(a)], Console(b));
    RunStep(n, es, Console(b));
    hide Run;
    assert Run(n, es).1 + [] == Run(n, es).1;
  }

  /** A healthy check clears the counter; one that fails in the grace period counts nothing; the tunnel stays up. */
  lemma ChecksThatCountNothing(n: nat, es: seq<Event>, env: Env)
    requires 0 < n <= MAX_PROFILES && env.wifi
    requires var v := Run(n, es).0;
             && v.up && v.pending == NoRequest && v.startedAt <= env.now < v.startedAt + TWO32
             && (v.lastCheckAt.Some? ==> v.lastCheckAt.value <= env.now < v.lastCheckAt.value + TWO32)
    ensures var v := Run(n, es).0; var (t, notes) := Next(n, v, Cycle(env));
            var due := v.lastCheckAt.None? || v.lastCheckMs == 0 || env.now - v.lastCheckAt.value >= HEALTH_INTERVAL_MS;
            var checked := v.(lastCheckMs := Wrap32(env.now), lastCheckAt := Some(env.now));
            if !due then t == v && notes == []
            else if env.healthy then t == checked.(phase := Online, failures := 0) && notes == [Healthy(v.desired)]
            else if env.now - v.startedAt < GRACE_MS then t == checked.(phase := Degraded) && notes == []
            else t.phase == Degraded && notes != [] && notes[0] == CheckFailed(v.desired)
  {
    RunKeeps(n, es);
    RunStamps(n, es);
    var v := Run(n, es).0;
    Sub32IsElapsed(v.startedAt, env.now);
    if v.lastCheckAt.Some? { Sub32IsElapsed(v.lastCheckAt.value, env.now); }
    hide Run, BringUp, Wrap32, Sub32;
  }

  /** Without profiles nothing is ever started, and the state says why. */
  lemma {:induction false} NothingWithoutProfiles(es: seq<Event>)
    ensures var (v, h) := Run(0, es);
            !v.up && v.active == None && h == [] && v.phase == NotConfigured
    decreases |es|
  {
    if es != [] { NothingWithoutProfiles(es[..|es| - 1]); }
  }

  // ------------------------------------------------------------------------------------
  // What the state tells others
  // ------------------------------------------------------------------------------------

  /** What was last found out about a profile. */
  function LastFinding(h: seq<Note>): Option<Note>
    decreases |h|
  {
    if h == [] then None
    else if h[|h| - 1].AutoSwitch? || h[|h| - 1].ConsoleSwitch? then LastFinding(h[..|h| - 1])
    else Some(h[|h| - 1])
  }

  ghost predicate Truthful(v: Vpn, h: seq<Note>) {
    && (v.phase == Online ==> v.up && v.active.Some? && LastFinding(h) == Some(Healthy(v.active.value)))
    && (v.phase == NotConfigured || v.phase == WaitingForNetwork ==> !v.up)
  }

  lemma FindOne(h: seq<Note>, note: Note)
    ensures LastFinding(h + [note]) == if note.AutoSwitch? || note.ConsoleSwitch? then LastFinding(h) else Some(note)
  {
    assert (h + [note])[..|h + [note]| - 1] == h;
  }

  /** The last of a cycle's notes that is a finding. */
  lemma CycleIsTruthful(n: nat, v: Vpn, h: seq<Note>, env: Env)
    requires n > 0 && Truthful(v, h) && (v.up ==> v.active.Some?)
    ensures var (v', notes) := CycleStep(n, v, env); Truthful(v', h + notes)
  {
    hide Starts, Sub32, Wrap32, LastFinding, BringUp;
    var (v', notes) := CycleStep(n, v, env);
    if !env.wifi {
      assert h + notes == h;
    } else {
      var v0 := v.(desired := if v.desired >= n then 0 else v.desired);
      var (v1, notes1) := TakeRequest(n, v0);
      var (v2, notes2) := if v1.up then (v1, []) else BringUp(n, v1, env);
      if v1.up { assert notes1 == [] && h + notes1 + notes2 == h; } else { BringUpConnects(n, v1, env); }
      if v2.up {
        CheckIsTruthful(n, v2, h + notes1 + notes2, env);
        Associates(h, notes1 + notes2, CheckHealth(n, v2, env).1);
        Associates(h, notes1, notes2);
      }
    }
  }

  lemma BringUpConnects(n: nat, v: Vpn, env: Env)
    ensures BringUp(n, v, env).0.phase == Connecting && BringUp(n, v, env).0.active.Some?
  {
  }

  lemma CheckIsTruthful(n: nat, v: Vpn, h: seq<Note>, env: Env)
    requires v.up && v.active.Some? && Truthful(v, h)
    ensures var (v', notes) := CheckHealth(n, v, env); Truthful(v', h + notes)
  {
    var (v', notes) := CheckHealth(n, v, env);
    if notes == [] { assert h + notes == h; } else { FindOne(h, notes[0]); assert |notes| == 1 ==> h + notes == h + [notes[0]]; }
    hide LastFinding;
  }

  lemma {:induction false} RunIsTruthful(n: nat, es: seq<Event>)
    requires n > 0
    ensures var (v, h) := Run(n, es); Truthful(v, h)
    decreases |es|
  {
    hide CycleStep;
    if es != [] {
      var (v, h) := Run(n, es[..|es| - 1]);
      RunIsTruthful(n, es[..|es| - 1]);
      match es[|es| - 1]
      case Console(_) => assert h + [] == h;
      case Cycle(env) => CycleIsTruthful(n, v, h, env);
    }
  }

  /** The VPN reports itself online only with a tunnel whose last finding is a healthy check of the active profile. */
  lemma OnlineMeansHealthy(n: nat, es: seq<Event>)
    requires n > 0 && Run(n, es).0.phase == Online
    ensures var (v, h) := Run(n, es); v.up && v.active.Some? && LastFinding(h) == Some(Healthy(v.active.value))
  {
    RunIsTruthful(n, es);
  }
}
