/**
 * A new image on probation: what its self-test does to it, what a reboot makes of it, and whole
 * updates from the first byte received to the confirmed or rolled-back image.
 */
module OtaProbation {
  import opened Common
  import opened Signer
  import opened OtaSink
  import opened OtaSlots
  import opened OtaRuns

  /** Nothing but the self-test and the state of the running image has changed. */
  ghost predicate OnlyJudged(s: State, t: State, state: ImageState) {
    && t.running == s.running && t.boot == s.boot && t.before == s.before
    && t.inProgress == s.inProgress && t.holder == s.holder && t.receivers == s.receivers
    && At(t, s.running) == At(s, s.running).(state := state) && At(t, Other(s)) == At(s, Other(s))
  }

  /** What the bootloader leaves of an image that was running, whichever slot it picks next. */
  function Rebooted(state: ImageState): ImageState {
    if state == PendingVerify then Aborted else state
  }

  /**
   * The self-test of any reachable state. A healthy poll ends it and confirms the running image, as far
   * as it can be marked; so does the timeout if there is nothing to roll back to. The timeout of an image
   * that can be rolled back marks it invalid and restarts; until then nothing happens.
   */
  lemma SelfTestDecides(c: Crypto, first: seq<byte>, second: seq<byte>, state: ImageState, es: seq<Event>,
                        healthy: bool, timedOut: bool, canRollBack: bool, marked: bool, choice: bool)
    requires Run(c, Init(first, second, state), es).selfTestTask
    ensures var s := Run(c, Init(first, second, state), es);
            var t := Step(c, s, SelfTestPoll(healthy, timedOut, canRollBack, marked, choice));
            if healthy || (timedOut && !canRollBack)
            then OnlyJudged(s, t, if marked then Valid else At(s, s.running).state) && !t.selfTestPending && !t.selfTestTask
            else if timedOut then t.running == choice && At(t, s.running) == At(s, s.running).(state := Invalid)
            else t == s
  {
    RunRunningIsNotNew(c, first, second, state, es);
    hide Run, ReceiverStep;
  }

  lemma RunRunningIsNotNew(c: Crypto, first: seq<byte>, second: seq<byte>, state: ImageState, es: seq<Event>)
    ensures var s := Run(c, Init(first, second, state), es); !At(s, s.running).state.New?
  {
    RunKeepsInv(c, Init(first, second, state), es);
  }

  /** The self-test starts on an image on probation, and only there; if its task cannot be started the image is confirmed. */
  lemma SelfTestStartsOnProbation(c: Crypto, s: State, readable: bool, taskStarted: bool, marked: bool)
    requires !s.selfTestTask
    ensures var t := Step(c, s, SelfTestStart(readable, taskStarted, marked));
            if !readable || !Pending(s) then t == s
            else if taskStarted then t == s.(selfTestPending := true, selfTestTask := true)
            else OnlyJudged(s, t, if marked then Valid else PendingVerify) && !t.selfTestPending && !t.selfTestTask
  {
  }

  /**
   * A reboot into any slot. The image that was running is aborted exactly if it was still on
   * probation, so a confirmed one stays valid; contents stay, and a new image that is picked goes on probation.
   */
  lemma RebootJudges(c: Crypto, s: State, choice: bool)
    requires !At(s, s.running).state.New?
    ensures var t := Step(c, s, Reboot(choice));
            && t.running == t.boot == choice && t.before == At(s, s.running).content && t.receivers == map[] && !t.inProgress
            && !t.selfTestPending && !t.selfTestTask
            && At(t, s.running) == At(s, s.running).(state := Rebooted(At(s, s.running).state))
            && At(t, Other(s)) == At(s, Other(s)).(
                 state := if At(s, Other(s)).state == New && choice == Other(s) then PendingVerify
                          else Rebooted(At(s, Other(s)).state))
  {
  }

  /** While the self-test is pending no update can begin. */
  lemma NothingBeginsDuringSelfTest(c: Crypto, s: State, id: nat)
    requires s.selfTestPending && id in s.receivers
    ensures Step(c, s, Call(id, Claim)) == s
  {
  }

  /** A manual rollback selects the other slot as a new image, or changes nothing. */
  lemma RollbackSelectsTheOther(c: Crypto, s: State, imagePresent: bool, idfBoot: bool)
    ensures var t := Step(c, s, Rollback(imagePresent, idfBoot));
            if imagePresent && idfBoot
            then && t.boot == Other(s) && t.running == s.running && At(t, s.running) == At(s, s.running)
                 && At(t, Other(s)) == At(s, Other(s)).(state := New)
            else t == s
  {
  }

  /** An update up to its first boot: received, restarted into, self-test started. */
  function FirstBoot(id: nat, expected: Option<seq<byte>>, chunks: seq<seq<byte>>, other: bool): seq<Event> {
    Receive(id, expected, chunks, true, true) + [Reboot(other), SelfTestStart(true, true, true)]
  }

  lemma RunTwo(c: Crypto, s: State, a: Event, b: Event)
    ensures Run(c, s, [a, b]) == Step(c, Step(c, s, a), b)
  {
    hide Step;
    assert [a, b] == [a] + [b];
    RunConcat(c, s, [a], [b]);
    RunOne(c, s, a);
    RunOne(c, Step(c, s, a), b);
  }

  /**
   * From every state in which a begin succeeds: an accepted file, once rebooted into, runs on probation
   * with the former image as its fallback.
   */
  lemma UpdateGoesOnProbation(c: Crypto, s: State, id: nat, expected: Option<seq<byte>>, chunks: seq<seq<byte>>)
    requires Ready(c, s, id) && Accepted(c, Flatten(chunks), expected, true, true)
    ensures var file, u := Flatten(chunks), Run(c, s, FirstBoot(id, expected, chunks, Other(s)));
            && |file| > TRAILER && u.running == u.boot == Other(s) && u.selfTestPending && u.selfTestTask
            && At(u, Other(s)) == Slot(file[..|file| - TRAILER], PendingVerify, Some(file[..|file| - TRAILER]))
            && At(u, s.running).content == At(s, s.running).content == u.before && Inv(c, u)
  {
    var file := Flatten(chunks);
    var t := Run(c, s, Receive(id, expected, chunks, true, true));
    AcceptedIsLong(c, file, expected, true, true);
    ReceptionLeaves(c, s, id, expected, chunks, true, true);
    RunKeepsInv(c, s, Receive(id, expected, chunks, true, true));
    RunKeepsInv(c, s, FirstBoot(id, expected, chunks, Other(s)));
    RunningIsNotNew(c, t);
    RunConcat(c, s, Receive(id, expected, chunks, true, true), [Reboot(Other(s)), SelfTestStart(true, true, true)]);
    RunTwo(c, t, Reboot(Other(s)), SelfTestStart(true, true, true));
    RebootJudges(c, t, Other(s));
    var booted := Step(c, t, Reboot(Other(s)));
    SelfTestStartsOnProbation(c, booted, true, true, true);
    hide Run, Step, Receive, Accepted, Inv;
  }

  lemma RunningIsNotNew(c: Crypto, s: State)
    requires Inv(c, s)
    ensures !At(s, s.running).state.New?
  {
  }

  /**
   * If its self-test then finds it healthy it is confirmed and, rebooted into again, stays valid; without
   * that the same reboot aborts it.
   */
  lemma HealthyUpdateIsConfirmed(c: Crypto, s: State, id: nat, expected: Option<seq<byte>>, chunks: seq<seq<byte>>,
                                 timedOut: bool, canRollBack: bool, choice: bool)
    requires Ready(c, s, id) && Accepted(c, Flatten(chunks), expected, true, true)
    ensures var u := Run(c, s, FirstBoot(id, expected, chunks, Other(s)));
            var confirmed := Run(c, u, [SelfTestPoll(true, timedOut, canRollBack, true, choice), Reboot(u.running)]);
            && confirmed.running == Other(s) && At(confirmed, Other(s)) == At(u, Other(s)).(state := Valid)
            && At(confirmed, s.running).content == At(s, s.running).content && !confirmed.selfTestPending
            && At(Step(c, u, Reboot(u.running)), Other(s)).state == Aborted
  {
    UpdateGoesOnProbation(c, s, id, expected, chunks);
    hide FirstBoot, Run, Accepted, Inv;
    var u := Run(c, s, FirstBoot(id, expected, chunks, Other(s)));
    RunTwo(c, u, SelfTestPoll(true, timedOut, canRollBack, true, choice), Reboot(u.running));
    ConfirmedStays(c, u, timedOut, canRollBack, choice);
  }

  lemma ConfirmedStays(c: Crypto, u: State, timedOut: bool, canRollBack: bool, choice: bool)
    requires u.selfTestTask && Pending(u)
    ensures var t := Step(c, u, SelfTestPoll(true, timedOut, canRollBack, true, choice));
            var confirmed := Step(c, t, Reboot(u.running));
            && confirmed.running == u.running && At(confirmed, u.running) == At(u, u.running).(state := Valid)
            && At(confirmed, Other(u)).content == At(u, Other(u)).content && !confirmed.selfTestPending
            && At(Step(c, u, Reboot(u.running)), u.running).state == Aborted
  {
    hide ReceiverStep;
  }

  /** If it is not healthy in time, it is marked invalid, and the former image runs again as it was. */
  lemma FailedUpdateIsRolledBack(c: Crypto, s: State, id: nat, expected: Option<seq<byte>>, chunks: seq<seq<byte>>, marked: bool)
    requires Ready(c, s, id) && Accepted(c, Flatten(chunks), expected, true, true)
    ensures var u := Run(c, s, FirstBoot(id, expected, chunks, Other(s)));
            var back := Step(c, u, SelfTestPoll(false, true, true, marked, s.running));
            && back.running == s.running && At(back, s.running).content == At(s, s.running).content
            && At(back, Other(s)).state == Invalid && !back.selfTestPending
  {
    UpdateGoesOnProbation(c, s, id, expected, chunks);
    hide FirstBoot, Run, Accepted, Inv, ReceiverStep;
  }

  // ------------------------------------------------------------------------------------
  // When a receiver may write
  // ------------------------------------------------------------------------------------

  predicate Owns(s: State, id: nat) { id in s.receivers && s.receivers[id].owner }
  predicate Active(s: State, id: nat) { id in s.receivers && s.receivers[id].active }

  /** The calls that end a reception: an abort, a finish, a refused or failed chunk, and going away. */
  predicate Ends(r: Receiver, call: ReceiverCall) {
    || call.Abort? || call.Finish? || call.Destroy?
    || (call.Feed? && BadMagic(Stream(r.view) + call.data))
    || (call.FeedFails? && Commits(r.view, call.data))
  }

  ghost predicate LivesOn(s: State, t: State, id: nat, call: ReceiverCall)
    requires id in s.receivers
  {
    var r := s.receivers[id];
    && (Owns(t, id) <==> if call.Claim? then r.owner || (!s.inProgress && !s.selfTestPending) else r.owner && !call.Destroy?)
    && (t.inProgress <==> if r.owner then Owns(t, id) else s.inProgress || Owns(t, id))
    && (Active(t, id) <==> if r.active then !Ends(r, call) else call == Open(true) && r.claimed && !Pending(s))
  }

  lemma BeginLives(c: Crypto, s: State, id: nat, call: ReceiverCall)
    requires id in s.receivers && ReceiverOk(s, id, s.receivers[id])
    requires call.Claim? || call.Open? || call.Expect? || call.Abort? || call.Destroy?
    ensures LivesOn(s, ReceiverStep(c, s, id, s.receivers[id], call), id, call)
  {
    hide FeedStep, FailStep, FinishStep, Verdict, BadMagic, Commits, Held;
  }

  /** The token stays where it is, and the receiver stays open or not. */
  ghost predicate StaysOpen(s: State, t: State, id: nat, open: bool)
    requires id in s.receivers
  {
    && id in t.receivers && t.receivers[id].owner == s.receivers[id].owner && t.receivers[id].active == open
    && t.inProgress == s.inProgress
  }

  lemma FeedLives(s: State, id: nat, r: Receiver, data: seq<byte>)
    requires id in s.receivers && s.receivers[id] == r
    ensures StaysOpen(s, FeedStep(s, id, r, data), id, r.active && !BadMagic(Stream(r.view) + data))
  {
    hide BadMagic, Commits, Stream, Absorb;
  }

  lemma FailLives(s: State, id: nat, r: Receiver, data: seq<byte>, garbage: seq<byte>)
    requires id in s.receivers && s.receivers[id] == r
    ensures StaysOpen(s, FailStep(s, id, r, data, garbage), id, r.active && !Commits(r.view, data))
  {
    hide Commits;
  }

  lemma FinishLives(s: State, id: nat, r: Receiver, installs: bool)
    requires id in s.receivers && s.receivers[id] == r
    ensures StaysOpen(s, FinishStep(s, id, r, installs), id, false)
  {
  }

  lemma StreamLives(c: Crypto, s: State, id: nat, call: ReceiverCall)
    requires id in s.receivers && ReceiverOk(s, id, s.receivers[id])
    requires call.Feed? || call.FeedFails? || call.Finish?
    ensures LivesOn(s, ReceiverStep(c, s, id, s.receivers[id], call), id, call)
  {
    var r := s.receivers[id];
    hide FeedStep, FailStep, FinishStep, ClaimStep, OpenStep, DestroyStep, Verdict, BadMagic, Commits, Held, Stream;
    hide Absorb;
    match call
    case Feed(data) => FeedLives(s, id, r, data);
    case FeedFails(data, garbage) => FailLives(s, id, r, data, garbage);
    case Finish(idfEnd, idfBoot) => FinishLives(s, id, r, Verdict(c, r.view, r.expected, idfEnd, idfBoot).Installed?);
    case _ =>
  }

  /**
   * In every reachable state, for every call on a receiver. It comes to own the token exactly by claiming
   * it while it is free and no self-test is pending, and gives it back exactly when it goes away. It
   * opens exactly by the second half of such a begin, on an image not on probation, and stays open
   * until one of the calls that end a reception.
   */
  lemma ReceiverLife(c: Crypto, first: seq<byte>, second: seq<byte>, state: ImageState, es: seq<Event>, id: nat, call: ReceiverCall)
    requires id in Run(c, Init(first, second, state), es).receivers
    ensures var s := Run(c, Init(first, second, state), es);
            LivesOn(s, Step(c, s, Call(id, call)), id, call)
  {
    var s := Run(c, Init(first, second, state), es);
    RunKeepsInv(c, Init(first, second, state), es);
    ActiveFacts(c, s, id);
    hide Run, Inv, LivesOn, ReceiverOk, ReceiverStep;
    if call.Feed? || call.FeedFails? || call.Finish? { StreamLives(c, s, id, call); } else { BeginLives(c, s, id, call); }
  }
}
