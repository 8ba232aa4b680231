/**
 * The VPN task: one loop that keeps a WireGuard tunnel up on one of at most two profiles and
 * fails over after three failures in a row. Console requests arrive through a one-slot mailbox.
 */
module VpnFailover {
  import opened Common

  const HEALTH_INTERVAL_MS: nat := 10000
  const CONNECT_DEADLINE_MS: nat := 20000
  const GRACE_MS: nat := 30000
  const FAILURES_BEFORE_FAILOVER: nat := 3
  const UINT8_MAX: nat := 255
  const MAX_PROFILES: nat := 2

  datatype Phase = NotConfigured | WaitingForNetwork | Connecting | Online | Degraded
  datatype Request = NoRequest | WantFailover | WantPrimary

  /** One esp_wireguard_connect() call and what the loop around it then sees. */
  datatype ConnectResult = Connected | Retry | ConnectError
  datatype Attempt = Attempt(result: ConnectResult, wifi: bool, elapsedMs: nat)

  /** Everything one iteration of the loop learns from outside; times are true milliseconds. */
  datatype Env = Env(wifi: bool, initOk: bool, attempts: seq<Attempt>, routesOk: bool, defaultRouteOk: bool,
                     startedAt: nat, now: nat, healthy: bool)

  /**
   * The task's variables. `startedMs` and `lastCheckMs` are the stored 32-bit stamps; the last
   * three fields are history in true time.
   */
  datatype Vpn = Vpn(
    desired: nat,
    active: Option<nat>,
    failures: nat,
    up: bool,
    startedMs: nat,
    lastCheckMs: nat,
    pending: Request,
    phase: Phase,
    startedAt: nat,
    lastCheckAt: Option<nat>,   // none since the profile started
    failuresAtStart: nat)

  const INITIAL := Vpn(0, None, 0, false, 0, 0, NoRequest, NotConfigured, 0, None, 0)

  /** What an observer of the task writes down. */
  datatype Note =
    | Entered(profile: nat)              // the active profile changed
    | StartFailed(profile: nat)
    | CheckFailed(profile: nat)          // a counted health check
    | Healthy(profile: nat)
    | AutoSwitch(from: nat, to: nat)     // the task decided to change profile
    | ConsoleSwitch(to: nat)             // a request decided it

  datatype Event = Console(request: Request) | Cycle(env: Env)

  // ------------------------------------------------------------------------------------
  // One iteration
  // ------------------------------------------------------------------------------------

  function Stop(v: Vpn): Vpn { v.(up := false) }

  function OneMoreFailure(failures: nat): nat {
    if failures < UINT8_MAX then failures + 1 else failures
  }

  function Toggle(p: nat): nat { if p == 0 then 1 else 0 }

  function OtherThan(active: Option<nat>): nat { if active == Some(0) then 1 else 0 }

  /** The do-while around connect: retries while DNS is in flight, Wi-Fi is up and time remains. */
  function ConnectLoop(attempts: seq<Attempt>): ConnectResult
    decreases |attempts|
  {
    if attempts == [] then Retry
    else
      var a := attempts[0];
      if a.result == Retry && a.wifi && a.elapsedMs < CONNECT_DEADLINE_MS then ConnectLoop(attempts[1..]) else a.result
  }

  predicate Starts(env: Env) {
    env.initOk && ConnectLoop(env.attempts) == Connected && env.routesOk && env.defaultRouteOk
  }

  /** startProfile(): leaving another profile resets the counter, whatever happens next. */
  function StartProfile(v: Vpn, p: nat, env: Env): (r: (Vpn, seq<Note>))
  {
    var changed := v.active != Some(p);
    var v' := Stop(v).(active := Some(p), failures := if changed then 0 else v.failures, phase := Connecting);
    (if Starts(env)
     then v'.(up := true, startedMs := Wrap32(env.startedAt), startedAt := env.startedAt, failuresAtStart := v'.failures)
     else v',
     if changed then [Entered(p)] else [])
  }

  /** Taking a pending console request. */
  function TakeRequest(n: nat, v: Vpn): (r: (Vpn, seq<Note>)) {
    var v' := v.(pending := NoRequest);
    if v.pending.WantPrimary? then (Stop(v').(desired := 0), [ConsoleSwitch(0)])
    else if v.pending.WantFailover? && n > 1 then
      (Stop(v').(desired := OtherThan(v.active)), [ConsoleSwitch(OtherThan(v.active))])
    else (v', [])
  }

  /** A failed start is counted; the third in a row changes the desired profile. */
  function AfterFailedStart(n: nat, v: Vpn): (r: (Vpn, seq<Note>)) {
    var f := OneMoreFailure(v.failures);
    if n > 1 && f >= FAILURES_BEFORE_FAILOVER
    then (v.(desired := Toggle(v.desired), failures := 0), [StartFailed(v.desired), AutoSwitch(v.desired, Toggle(v.desired))])
    else (v.(failures := f), [StartFailed(v.desired)])
  }

  /** The interval test: a check runs unless one was stamped less than ten seconds ago; 0 also means "none yet". */
  predicate Due(v: Vpn, nowMs: nat) {
    v.lastCheckMs == 0 || Sub32(nowMs, v.lastCheckMs) >= HEALTH_INTERVAL_MS
  }

  /** The health check, at most every ten seconds. */
  function CheckHealth(n: nat, v: Vpn, env: Env): (r: (Vpn, seq<Note>))
    requires v.active.Some?
  {
    var nowMs := Wrap32(env.now);
    if !Due(v, nowMs) then (v, [])
    else
      var p := v.active.value;
      var v' := v.(lastCheckMs := nowMs, lastCheckAt := Some(env.now));
      if env.healthy then (v'.(phase := Online, failures := 0), [Healthy(p)])
      else if Sub32(nowMs, v.startedMs) < GRACE_MS then (v'.(phase := Degraded), [])
      else
        var f := OneMoreFailure(v.failures);
        var v'' := v'.(phase := Degraded, failures := f);
        if n > 1 && f >= FAILURES_BEFORE_FAILOVER
        then (Stop(v'').(desired := OtherThan(v.active)), [CheckFailed(p), AutoSwitch(p, OtherThan(v.active))])
        else (v'', [CheckFailed(p)])
  }

  function BringUp(n: nat, v: Vpn, env: Env): (r: (Vpn, seq<Note>)) {
    var (v1, notes1) := StartProfile(v, v.desired, env);
    if v1.up then (v1.(lastCheckMs := 0, lastCheckAt := None), notes1)
    else var (v2, notes2) := AfterFailedStart(n, v1); (v2, notes1 + notes2)
  }

  /** One iteration of vpnTask's loop with n profiles configured. */
  function CycleStep(n: nat, v: Vpn, env: Env): (r: (Vpn, seq<Note>))
    requires v.up ==> v.active.Some?
  {
    if n == 0 then (v.(phase := NotConfigured), [])
    else if !env.wifi then (Stop(v).(phase := WaitingForNetwork), [])
    else
      var (v1, notes1) := TakeRequest(n, v.(desired := if v.desired >= n then 0 else v.desired));
      var (v2, notes2) := if v1.up then (v1, []) else BringUp(n, v1, env);
      if !v2.up then (v2, notes1 + notes2)
      else var (v3, notes3) := CheckHealth(n, v2, env); (v3, notes1 + notes2 + notes3)
  }

  function Next(n: nat, v: Vpn, e: Event): (r: (Vpn, seq<Note>))
    requires v.up ==> v.active.Some?
    ensures r.0.up ==> r.0.active.Some?
  {
    match e
    case Console(request) => (v.(pending := request), [])
    case Cycle(env) => CycleStep(n, v, env)
  }

  /** The state and the notes after a whole run. */
  function Run(n: nat, es: seq<Event>): (r: (Vpn, seq<Note>))
    ensures r.0.up ==> r.0.active.Some?
    decreases |es|
  {
    if es == [] then (INITIAL, [])
    else
      var (v, h) := Run(n, es[..|es| - 1]);
      var (v', notes) := Next(n, v, es[|es| - 1]);
      (v', h + notes)
  }

  // ------------------------------------------------------------------------------------
  // Failover is justified
  // ------------------------------------------------------------------------------------

  /** Consecutive failures of p at the end of the notes: since p was entered and since it was last healthy. */
  function Streak(h: seq<Note>, p: nat): nat
    decreases |h|
  {
    if h == [] then 0
    else
      var rest := h[..|h| - 1];
      match h[|h| - 1]
      case Entered(_) => 0
      case Healthy(_) => 0
      case StartFailed(q) => if q == p then Streak(rest, p) + 1 else 0
      case CheckFailed(q) => if q == p then Streak(rest, p) + 1 else 0
      case _ => Streak(rest, p)
  }

  /** The last decision to change profile. */
  function LastDecision(h: seq<Note>): Option<Note>
    decreases |h|
  {
    if h == [] then None
    else if h[|h| - 1].AutoSwitch? || h[|h| - 1].ConsoleSwitch? then Some(h[|h| - 1])
    else LastDecision(h[..|h| - 1])
  }

  /** An automatic switch at position i is backed by three failures in a row of the profile it leaves. */
  ghost predicate Justified(n: nat, h: seq<Note>, i: nat)
    requires i < |h|
  {
    h[i].AutoSwitch? ==>
      n == 2 && h[i].from < 2 && h[i].to == 1 - h[i].from && Streak(h[..i], h[i].from) >= FAILURES_BEFORE_FAILOVER
  }

  ghost predicate AllJustified(n: nat, h: seq<Note>) {
    forall i: nat | i < |h| :: Justified(n, h, i)
  }

  ghost predicate Explained(v: Vpn, h: seq<Note>) {
    v.active.Some? && v.desired != v.active.value ==>
      LastDecision(h) == Some(AutoSwitch(v.active.value, v.desired)) || LastDecision(h) == Some(ConsoleSwitch(v.desired))
  }

  /** The loop-head invariant, with the notes so far. */
  ghost predicate Inv(n: nat, v: Vpn, h: seq<Note>) {
    && n <= MAX_PROFILES
    && v.desired < MAX_PROFILES && (n > 0 ==> v.desired < n)
    && (v.active.Some? ==> v.active.value < n)
    && (v.active.None? ==> v.failures == 0)
    && (v.up ==> v.active == Some(v.desired))
    && (v.active.Some? ==> v.failures <= Streak(h, v.active.value))
    && AllJustified(n, h)
    && Explained(v, h)
  }

  lemma AppendJustified(n: nat, h: seq<Note>, note: Note)
    requires AllJustified(n, h)
    requires note.AutoSwitch? ==>
               n == 2 && note.from < 2 && note.to == 1 - note.from && Streak(h, note.from) >= FAILURES_BEFORE_FAILOVER
    ensures AllJustified(n, h + [note])
  {
    forall i: nat | i < |h + [note]| ensures Justified(n, h + [note], i) {
      assert (h + [note])[..i] == h[..i];
      if i < |h| { assert Justified(n, h, i); } else { assert h[..i] == h; }
    }
  }

  /** How one more note changes the streak and the last decision. */
  lemma AppendNote(h: seq<Note>, note: Note, p: nat)
    ensures Streak(h + [note], p) ==
              if note.Entered? || note.Healthy? then 0
              else if note.StartFailed? || note.CheckFailed? then (if note.profile == p then Streak(h, p) + 1 else 0)
              else Streak(h, p)
    ensures LastDecision(h + [note]) ==
              if note.AutoSwitch? || note.ConsoleSwitch? then Some(note) else LastDecision(h)
  {
    assert (h + [note])[..|h + [note]| - 1] == h;
  }

  lemma TakeRequestKeeps(n: nat, v: Vpn, h: seq<Note>)
    requires Inv(n, v, h) && n > 0
    ensures var (v', notes) := TakeRequest(n, v); Inv(n, v', h + notes)
  {
    var (v', notes) := TakeRequest(n, v);
    if notes == [] {
      assert h + notes == h;
    } else {
      AppendJustified(n, h, notes[0]);
      AppendNote(h, notes[0], if v.active.Some? then v.active.value else 0);
      assert h + notes == h + [notes[0]];
    }
  }

  lemma StartProfileKeeps(n: nat, v: Vpn, h: seq<Note>, env: Env)
    requires Inv(n, v, h) && n > 0
    ensures var (v', notes) := StartProfile(v, v.desired, env);
            Inv(n, v', h + notes) && v'.active == Some(v'.desired)
  {
    var (v', notes) := StartProfile(v, v.desired, env);
    if notes == [] {
      assert h + notes == h;
    } else {
      AppendJustified(n, h, notes[0]);
      AppendNote(h, notes[0], v.desired);
      assert h + notes == h + [notes[0]];
    }
  }

  /** A failure of the active profile, and the switch it may cause. */
  lemma FailureKeeps(n: nat, h: seq<Note>, failure: Note, f: nat, to: nat)
    requires n <= MAX_PROFILES && AllJustified(n, h) && (failure.StartFailed? || failure.CheckFailed?)
    requires f <= Streak(h, failure.profile) + 1
    ensures AllJustified(n, h + [failure]) && f <= Streak(h + [failure], failure.profile)
    ensures n == 2 && f >= FAILURES_BEFORE_FAILOVER && failure.profile < 2 && to == 1 - failure.profile ==>
              var h' := h + [failure, AutoSwitch(failure.profile, to)];
              AllJustified(n, h') && f <= Streak(h', failure.profile) &&
              LastDecision(h') == Some(AutoSwitch(failure.profile, to))
  {
    var p := failure.profile;
    AppendJustified(n, h, failure);
    AppendNote(h, failure, p);
    if n == 2 && f >= FAILURES_BEFORE_FAILOVER && p < 2 && to == 1 - p {
      AppendJustified(n, h + [failure], AutoSwitch(p, to));
      AppendNote(h + [failure], AutoSwitch(p, to), p);
      assert h + [failure, AutoSwitch(p, to)] == (h + [failure]) + [AutoSwitch(p, to)];
    }
  }

  lemma AfterFailedStartKeeps(n: nat, v: Vpn, h: seq<Note>)
    requires Inv(n, v, h) && n > 0 && !v.up && v.active == Some(v.desired)
    ensures var (v', notes) := AfterFailedStart(n, v); Inv(n, v', h + notes)
  {
    FailureKeeps(n, h, StartFailed(v.desired), OneMoreFailure(v.failures), Toggle(v.desired));
  }

  lemma CheckHealthKeeps(n: nat, v: Vpn, h: seq<Note>, env: Env)
    requires Inv(n, v, h) && n > 0 && v.up
    ensures var (v', notes) := CheckHealth(n, v, env); Inv(n, v', h + notes)
  {
    var (v', notes) := CheckHealth(n, v, env);
    if notes == [] {
      assert h + notes == h;
    } else if notes[0].Healthy? {
      AppendJustified(n, h, notes[0]);
      AppendNote(h, notes[0], v.desired);
      assert h + notes == h + [notes[0]];
    } else {
      FailureKeeps(n, h, notes[0], OneMoreFailure(v.failures), OtherThan(v.active));
    }
  }

  lemma BringUpKeeps(n: nat, v: Vpn, h: seq<Note>, env: Env)
    requires Inv(n, v, h) && n > 0
    ensures var (v', notes) := BringUp(n, v, env); Inv(n, v', h + notes)
  {
    hide Inv, StartProfile, AfterFailedStart;
    var (v1, notes1) := StartProfile(v, v.desired, env);
    StartProfileKeeps(n, v, h, env);
    if v1.up {
      ClearStampKeeps(n, v1, h + notes1);
    } else {
      AfterFailedStartKeeps(n, v1, h + notes1);
      var (v2, notes2) := AfterFailedStart(n, v1);
      assert h + (notes1 + notes2) == (h + notes1) + notes2;
    }
  }

  lemma ClearStampKeeps(n: nat, v: Vpn, h: seq<Note>)
    requires Inv(n, v, h)
    ensures Inv(n, v.(lastCheckMs := 0, lastCheckAt := None), h)
  {
  }

  lemma CycleKeeps(n: nat, v: Vpn, h: seq<Note>, env: Env)
    requires Inv(n, v, h)
    ensures var (v', notes) := CycleStep(n, v, env); Inv(n, v', h + notes)
  {
    hide TakeRequest, BringUp, CheckHealth;
    var (v', notes) := CycleStep(n, v, env);
    if n == 0 || !env.wifi {
      assert h + notes == h;
    } else {
      var v0 := v;
      TakeRequestKeeps(n, v0, h);
      var (v1, notes1) := TakeRequest(n, v0);
      var (v2, notes2) := if v1.up then (v1, []) else BringUp(n, v1, env);
      if v1.up { assert (h + notes1) + notes2 == h + notes1; } else { BringUpKeeps(n, v1, h + notes1, env); }
      assert h + (notes1 + notes2) == (h + notes1) + notes2;
      if v2.up {
        CheckHealthKeeps(n, v2, h + notes1 + notes2, env);
        var (v3, notes3) := CheckHealth(n, v2, env);
        assert h + (notes1 + notes2 + notes3) == (h + notes1 + notes2) + notes3;
      }
    }
  }

  lemma {:induction false} RunKeeps(n: nat, es: seq<Event>)
    requires n <= MAX_PROFILES
    ensures var (v, h) := Run(n, es); Inv(n, v, h)
    decreases |es|
  {
    hide CycleStep;
    if es != [] {
      var (v, h) := Run(n, es[..|es| - 1]);
      RunKeeps(n, es[..|es| - 1]);
      match es[|es| - 1]
      case Console(_) => assert h + [] == h;
      case Cycle(env) => CycleKeeps(n, v, h, env);
    }
  }

  /** At every loop head a tunnel that is up runs the desired profile, and that profile exists. */
  lemma TunnelIsDesired(n: nat, es: seq<Event>)
    requires n <= MAX_PROFILES
    ensures var v := Run(n, es).0;
            v.up ==> v.active == Some(v.desired) && v.desired < n
  {
    RunKeeps(n, es);
  }

  /**
   * Every automatic change of profile in any run needs two profiles and at least three failed
   * starts or counted failed checks, in a row, of the profile being left.
   */
  lemma FailoverIsJustified(n: nat, es: seq<Event>, i: nat)
    requires n <= MAX_PROFILES && i < |Run(n, es).1| && Run(n, es).1[i].AutoSwitch?
    ensures var h := Run(n, es).1;
            n == 2 && h[i].to == 1 - h[i].from && Streak(h[..i], h[i].from) >= FAILURES_BEFORE_FAILOVER
  {
    RunKeeps(n, es);
    assert Justified(n, Run(n, es).1, i);
  }

  /** The counter never exceeds the true number of consecutive failures of the active profile. */
  lemma CounterIsHonest(n: nat, es: seq<Event>)
    requires n <= MAX_PROFILES && Run(n, es).0.active.Some?
    ensures Run(n, es).0.failures <= Streak(Run(n, es).1, Run(n, es).0.active.value)
  {
    RunKeeps(n, es);
  }

  /** Nothing else changes the profile: whenever the desired one differs, the last decision says why. */
  lemma EveryChangeHasAReason(n: nat, es: seq<Event>)
    requires n <= MAX_PROFILES
    ensures var (v, h) := Run(n, es);
            v.active.Some? && v.desired != v.active.value ==>
              LastDecision(h) == Some(AutoSwitch(v.active.value, v.desired)) ||
              LastDecision(h) == Some(ConsoleSwitch(v.desired))
  {
    RunKeeps(n, es);
  }

  // ------------------------------------------------------------------------------------
  // Failover takes time
  // ------------------------------------------------------------------------------------

  /** The clock as one iteration sees it: true time does not go back, and the profile has been up for less than one wrap. */
  ghost predicate TrueClock(v: Vpn, env: Env) {
    && v.startedAt <= env.startedAt <= env.now < env.startedAt + TWO32
    && (v.lastCheckAt.Some? ==> v.lastCheckAt.value <= env.now)
    && (v.up ==> env.now < v.startedAt + TWO32)
  }

  /** The iteration counts a failed check whose stamp is the sentinel 0. */
  predicate CountsAtZero(n: nat, v: Vpn, env: Env)
    requires v.up ==> v.active.Some?
  {
    Wrap32(env.now) == 0 && exists i | 0 <= i < |CycleStep(n, v, env).1| :: CycleStep(n, v, env).1[i].CheckFailed?
  }

  ghost predicate Timed(n: nat, v: Vpn, env: Env)
    requires v.up ==> v.active.Some?
  {
    TrueClock(v, env) && !CountsAtZero(n, v, env)
  }

  ghost predicate AllTimed(n: nat, es: seq<Event>)
    decreases |es|
  {
    es != [] ==>
      && AllTimed(n, es[..|es| - 1])
      && (es[|es| - 1].Cycle? ==> Timed(n, Run(n, es[..|es| - 1]).0, es[|es| - 1].env))
  }

  /** The stored stamp is the wrapped time of the last check, or 0 if there was none. */
  ghost predicate HonestStamp(v: Vpn) {
    match v.lastCheckAt
    case None => v.lastCheckMs == 0
    case Some(t) => v.lastCheckMs == Wrap32(t) && t >= v.startedAt
  }

  /** While the tunnel is up: the stamps are honest, and k counted failures took at least that long. */
  ghost predicate Paced(v: Vpn) {
    v.up ==>
      && v.startedMs == Wrap32(v.startedAt)
      && HonestStamp(v)
      && (v.failuresAtStart == 0 && v.failures > 0 ==>
            && v.lastCheckAt.Some? && v.lastCheckMs != 0
            && v.lastCheckAt.value >= v.startedAt + GRACE_MS + (v.failures - 1) * HEALTH_INTERVAL_MS)
  }

  /** The notes end with a counted health check that made the task leave its profile. */
  predicate HealthSwitch(notes: seq<Note>) {
    |notes| >= 2 && notes[|notes| - 2].CheckFailed? && notes[|notes| - 1].AutoSwitch?
  }

  ghost predicate LateEnough(v: Vpn, notes: seq<Note>, now: nat) {
    v.failuresAtStart == 0 && HealthSwitch(notes) ==> now >= v.startedAt + GRACE_MS + 2 * HEALTH_INTERVAL_MS
  }

  /**
   * With honest stamps and a true clock a check runs less than ten seconds after the previous one
   * if and only if that one was stamped 0.
   */
  lemma EarlyCheckExactlyAfterZeroStamp(v: Vpn, now: nat)
    requires v.lastCheckAt.Some? && HonestStamp(v) && v.lastCheckAt.value <= now < v.lastCheckAt.value + TWO32
    ensures Due(v, Wrap32(now)) <==> now - v.lastCheckAt.value >= HEALTH_INTERVAL_MS || v.lastCheckMs == 0
    ensures now - v.lastCheckAt.value < HEALTH_INTERVAL_MS ==> (Due(v, Wrap32(now)) <==> v.lastCheckMs == 0)
  {
    Sub32IsElapsed(v.lastCheckAt.value, now);
  }

  /** A health check that is due, unhealthy and past the grace period came at least this late. */
  lemma CheckHealthPaced(n: nat, v: Vpn, env: Env)
    requires v.up && v.active.Some? && Paced(v)
    requires v.startedAt <= env.now < v.startedAt + TWO32
    requires v.lastCheckAt.Some? ==> v.lastCheckAt.value <= env.now
    requires Wrap32(env.now) == 0 ==> CheckHealth(n, v, env).1 == [] || !CheckHealth(n, v, env).1[0].CheckFailed?
    ensures var (v', notes) := CheckHealth(n, v, env);
            && Paced(v') && LateEnough(v', notes, env.now)
            && (|notes| >= 2 || (|notes| == 1 ==> !notes[0].AutoSwitch?))
  {
    Sub32IsElapsed(v.startedAt, env.now);
    if v.lastCheckAt.Some? { EarlyCheckExactlyAfterZeroStamp(v, env.now); }
  }

  lemma BringUpPaced(n: nat, v: Vpn, env: Env)
    ensures var (v', notes) := BringUp(n, v, env);
            && Paced(v') && !HealthSwitch(notes)
            && (v'.up ==> v'.active.Some? && v'.lastCheckAt == None && v'.startedAt == env.startedAt && (forall note | note in notes :: note.Entered?))
  {
  }

  lemma CyclePaced(n: nat, v: Vpn, env: Env)
    requires (v.up ==> v.active.Some?) && Paced(v) && Timed(n, v, env)
    ensures var (v', notes) := CycleStep(n, v, env); Paced(v') && LateEnough(v', notes, env.now)
  {
    hide CheckHealth, BringUp;
    var (v', notes) := CycleStep(n, v, env);
    if n != 0 && env.wifi {
      var (v1, notes1) := TakeRequest(n, v.(desired := if v.desired >= n then 0 else v.desired));
      var (v2, notes2) := if v1.up then (v1, []) else BringUp(n, v1, env);
      BringUpPaced(n, v1, env);
      if v2.up {
        var before := notes1 + notes2;
        assert CheckHealth(n, v2, env).1 != [] ==> notes[|before|] == CheckHealth(n, v2, env).1[0];
        CheckHealthPaced(n, v2, env);
        var (v3, notes3) := CheckHealth(n, v2, env);
        SwitchIsLast(notes1 + notes2, notes3);
      }
    }
  }

  /** A switch at the end of the notes was made by the health check if nothing before it switched. */
  lemma SwitchIsLast(before: seq<Note>, notes: seq<Note>)
    requires forall note | note in before :: !note.AutoSwitch?
    requires |notes| >= 2 || (|notes| == 1 ==> !notes[0].AutoSwitch?)
    ensures HealthSwitch(before + notes) ==> HealthSwitch(notes)
  {
    assert notes == [] ==> before + notes == before;
    assert before != [] ==> before[|before| - 1] in before;
  }

  /**
   * In every run with a sane clock: when the health path leaves a profile that started with
   * the counter at zero, at least the grace period and two more check intervals have passed
   * since the profile started.
   */
  lemma {:induction false} FailoverTakesTime(n: nat, es: seq<Event>)
    requires AllTimed(n, es)
    ensures Paced(Run(n, es).0)
    ensures es != [] && es[|es| - 1].Cycle? ==>
              var (v', notes) := Next(n, Run(n, es[..|es| - 1]).0, es[|es| - 1]);
              v' == Run(n, es).0 && LateEnough(v', notes, es[|es| - 1].env.now)
    decreases |es|
  {
    hide CycleStep, Timed;
    if es != [] {
      var v := Run(n, es[..|es| - 1]).0;
      FailoverTakesTime(n, es[..|es| - 1]);
      if es[|es| - 1].Cycle? { CyclePaced(n, v, es[|es| - 1].env); }
    }
  }

  /** A wall-clock iteration in which a start succeeds if needed and the check at `now` is unhealthy. */
  function Failing(startedAt: nat, now: nat): Event {
    Cycle(Env(true, true, [Attempt(Connected, true, 0)], true, true, startedAt, now, false))
  }

  lemma RunOne(n: nat, es: seq<Event>, e: Event)
    ensures Run(n, es + [e]).0 == Next(n, Run(n, es).0, e).0
  {
    assert (es + [e])[..|es + [e]| - 1] == es;
  }

  /** The clock is true at every iteration of a run, whatever it stamps. */
  ghost predicate AllTrueClock(n: nat, es: seq<Event>)
    decreases |es|
  {
    es != [] ==>
      && AllTrueClock(n, es[..|es| - 1])
      && (es[|es| - 1].Cycle? ==> TrueClock(Run(n, es[..|es| - 1]).0, es[|es| - 1].env))
  }

  lemma OneMoreTrue(n: nat, es: seq<Event>, e: Event)
    requires AllTrueClock(n, es) && (e.Cycle? ==> TrueClock(Run(n, es).0, e.env))
    ensures AllTrueClock(n, es + [e])
  {
    assert (es + [e])[..|es + [e]| - 1] == es;
  }

  const T0: nat := TWO32 - 30000
  const PROBE := Vpn(0, Some(0), 0, true, T0, T0, NoRequest, Degraded, T0, Some(T0), 0)

  /** Start; then checks when the clock reads 0, 100 ms later, and ten seconds after that. */
  const BEFORE: seq<Event> := [Failing(T0, T0), Failing(T0, TWO32), Failing(T0, TWO32 + 100)]
  const LAST: Event := Failing(T0, TWO32 + 10100)

  lemma ProbeStarts()
    ensures Next(2, INITIAL, Failing(T0, T0)).0 == PROBE
  {
  }

  /** A counted failure of a profile that has been up since T0. */
  lemma ProbeFails(failures: nat, lastCheckMs: nat, lastCheckAt: nat, now: nat)
    requires T0 + GRACE_MS <= now < T0 + TWO32 && failures < 3
    requires lastCheckMs == 0 || Sub32(Wrap32(now), lastCheckMs) >= HEALTH_INTERVAL_MS
    ensures var v := PROBE.(failures := failures, lastCheckMs := lastCheckMs, lastCheckAt := Some(lastCheckAt));
            var (v', notes) := Next(2, v, Failing(T0, now));
            && (failures < 2 ==> v' == v.(failures := failures + 1, lastCheckMs := Wrap32(now), lastCheckAt := Some(now)))
            && (failures == 2 ==> HealthSwitch(notes) && v'.startedAt == T0 && v'.failuresAtStart == 0)
            && notes != [] && notes[0].CheckFailed?
  {
    Sub32IsElapsed(T0, now);
  }

  /**
   * A counted check stamped 0 can break the bound. In this run the clock is true throughout and
   * every other check has a stamp other than 0; the second iteration counts a failed check stamped 0,
   * the next one counts another after only 100 ms, and the profile is left before its 50 seconds.
   */
  lemma ZeroStampBreaksTheBound()
    ensures AllTrueClock(2, BEFORE + [LAST])
    ensures forall i | 0 <= i < |BEFORE + [LAST]| :: (BEFORE + [LAST])[i].Cycle? &&
              (Wrap32((BEFORE + [LAST])[i].env.now) == 0 <==> i == 1)
    ensures CountsAtZero(2, Run(2, BEFORE[..1]).0, BEFORE[1].env)
    ensures var v := Run(2, BEFORE).0; var (v', notes) := Next(2, v, LAST);
            && v.startedAt == v'.startedAt == T0 && v'.failuresAtStart == 0 && HealthSwitch(notes)
            && LAST.env.now < T0 + GRACE_MS + 2 * HEALTH_INTERVAL_MS
  {
    hide Next, AllTrueClock;
    var e1, e2, e3 := BEFORE[0], BEFORE[1], BEFORE[2];
    ProbeStarts();
    ProbeFails(0, T0, T0, TWO32);
    ProbeFails(1, 0, TWO32, TWO32 + 100);
    ProbeFails(2, 100, TWO32 + 100, TWO32 + 10100);
    NoEvents();
    RunOne(2, [], e1);
    RunOne(2, [] + [e1], e2);
    RunOne(2, [] + [e1] + [e2], e3);
    assert BEFORE == [] + [e1] + [e2] + [e3] && BEFORE[..1] == [] + [e1];
    OneMoreTrue(2, [], e1);
    OneMoreTrue(2, [] + [e1], e2);
    OneMoreTrue(2, [] + [e1] + [e2], e3);
    OneMoreTrue(2, BEFORE, LAST);
    CountsNow(e2.env);
  }

  lemma NoEvents()
    ensures Run(2, []) == (INITIAL, []) && AllTrueClock(2, [])
  {
  }

  lemma CountsNow(env: Env)
    requires Cycle(env) == Failing(T0, TWO32)
    ensures CountsAtZero(2, PROBE, env)
  {
    ProbeFails(0, T0, T0, TWO32);
    hide CycleStep;
    assert CycleStep(2, PROBE, env).1[0].CheckFailed?;
  }

  // ------------------------------------------------------------------------------------
  // The task itself
  // ------------------------------------------------------------------------------------

  /** The task's globals and its loop body, updated in place. */
  class VpnTask {
    const profileCount: nat
    var desiredProfile: nat
    var activeProfile: Option<nat>
    var consecutiveFailures: nat
    var tunnelInitialized: bool
    var profileStartedMs: nat
    var lastHealthCheckMs: nat
    var pendingRequest: Request
    var vpnState: Phase
    ghost var startedAt: nat
    ghost var lastCheckAt: Option<nat>
    ghost var failuresAtStart: nat

    ghost function View(): Vpn
      reads this
    {
      Vpn(desiredProfile, activeProfile, consecutiveFailures, tunnelInitialized, profileStartedMs, lastHealthCheckMs,
          pendingRequest, vpnState, startedAt, lastCheckAt, failuresAtStart)
    }

    constructor (profiles: nat)
      ensures profileCount == profiles && View() == INITIAL
    {
      profileCount := profiles;
      desiredProfile, activeProfile, consecutiveFailures, tunnelInitialized := 0, None, 0, false;
      profileStartedMs, lastHealthCheckMs, pendingRequest, vpnState := 0, 0, NoRequest, NotConfigured;
      startedAt, lastCheckAt, failuresAtStart := 0, None, 0;
    }

    /** `recoveryVpnRequestFailover` and `recoveryVpnRequestPrimary`: the newest request wins. */
    method Ask(request: Request)
      modifies this`pendingRequest
      ensures View() == old(View()).(pending := request)
    {
      pendingRequest := request;
    }

    method NoteFailure()
      modifies this`consecutiveFailures
      ensures View() == old(View()).(failures := OneMoreFailure(old(consecutiveFailures)))
    {
      if consecutiveFailures < UINT8_MAX {
        consecutiveFailures := consecutiveFailures + 1;
      }
    }

    method StopTunnel()
      modifies this`tunnelInitialized
      ensures View() == Stop(old(View()))
    {
      tunnelInitialized := false;
    }

    /** Retries while the library asks for it; a list of attempts that runs out is the deadline. */
    method Connect(attempts: seq<Attempt>) returns (result: ConnectResult)
      ensures result == ConnectLoop(attempts)
    {
      result := Retry;
      var i := 0;
      while i < |attempts|
        invariant i <= |attempts|
        invariant ConnectLoop(attempts) == ConnectLoop(attempts[i..])
        invariant i == |attempts| ==> result == Retry
      {
        assert attempts[i..][1..] == attempts[i + 1..];
        result := attempts[i].result;
        if !(result == Retry && attempts[i].wifi && attempts[i].elapsedMs < CONNECT_DEADLINE_MS) { return; }
        i := i + 1;
      }
    }

    method Start(index: nat, env: Env) returns (ok: bool)
      modifies this
      ensures View() == StartProfile(old(View()), index, env).0
      ensures ok <==> tunnelInitialized
    {
      StopTunnel();
      var profileChanged := activeProfile != Some(index);
      vpnState := Connecting;
      activeProfile := Some(index);
      if profileChanged {
        consecutiveFailures := 0;
      }
      if !env.initOk { return false; }
      tunnelInitialized := true;
      var result := Connect(env.attempts);
      if result != Connected || !env.routesOk || !env.defaultRouteOk {
        StopTunnel();
        return false;
      }
      profileStartedMs := Wrap32(env.startedAt);
      startedAt, failuresAtStart := env.startedAt, consecutiveFailures;
      return true;
    }

    /** The atomic exchange of the mailbox and what it asks for. */
    method HandleRequest()
      modifies this`pendingRequest, this`desiredProfile, this`tunnelInitialized
      ensures View() == TakeRequest(profileCount, old(View())).0
    {
      var request := pendingRequest;
      pendingRequest := NoRequest;
      if request != NoRequest {
        if request == WantPrimary {
          desiredProfile := 0;
          StopTunnel();
        } else if profileCount > 1 {
          desiredProfile := if activeProfile == Some(0) then 1 else 0;
          StopTunnel();
        }
      }
    }

    /** The branch taken while there is no tunnel. */
    method StartDesired(env: Env) returns (ok: bool)
      modifies this
      ensures View() == BringUp(profileCount, old(View()), env).0
      ensures ok <==> tunnelInitialized
      ensures activeProfile.Some?
    {
      ok := Start(desiredProfile, env);
      if !ok {
        NoteFailure();
        if profileCount > 1 && consecutiveFailures >= FAILURES_BEFORE_FAILOVER {
          desiredProfile := if desiredProfile == 0 then 1 else 0;
          consecutiveFailures := 0;
        }
      } else {
        lastHealthCheckMs := 0;
        lastCheckAt := None;
      }
    }

    /** One iteration of the loop. */
    method Iterate(env: Env)
      requires tunnelInitialized ==> activeProfile.Some?
      modifies this
      ensures View() == CycleStep(profileCount, old(View()), env).0
      ensures tunnelInitialized ==> activeProfile.Some?
    {
      hide BringUp, CheckHealth;
      if profileCount == 0 {
        vpnState := NotConfigured;
        return;
      }
      if !env.wifi {
        if tunnelInitialized { StopTunnel(); }
        vpnState := WaitingForNetwork;
        return;
      }
      if desiredProfile >= profileCount {
        desiredProfile := 0;
      }
      HandleRequest();
      if !tunnelInitialized {
        var ok := StartDesired(env);
        if !ok { return; }
      }
      ghost var before := View();
      Check(env);
      assert View() == CheckHealth(profileCount, before, env).0;
    }

    method Check(env: Env)
      requires tunnelInitialized && activeProfile.Some?
      modifies this
      ensures View() == CheckHealth(profileCount, old(View()), env).0
      ensures activeProfile.Some?
    {
      var nowMs := Wrap32(env.now);
      if lastHealthCheckMs != 0 && Sub32(nowMs, lastHealthCheckMs) < HEALTH_INTERVAL_MS { return; }
      lastHealthCheckMs := nowMs;
      lastCheckAt := Some(env.now);
      if env.healthy {
        vpnState := Online;
        consecutiveFailures := 0;
        return;
      }
      vpnState := Degraded;
      if Sub32(nowMs, profileStartedMs) < GRACE_MS { return; }
      NoteFailure();
      if profileCount > 1 && consecutiveFailures >= FAILURES_BEFORE_FAILOVER {
        desiredProfile := if activeProfile == Some(0) then 1 else 0;
        StopTunnel();
      }
    }
  }
}
