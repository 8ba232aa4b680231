/**
 * The two firmware slots over whole runs: any number of receivers, manual rollback, the
 * post-update self-test, and reboots at any moment. Each event is one call (or one half of
 * `begin`) of the firmware; the bootloader's choice of slot is left completely free.
 */
module OtaSlots {
  import opened Common
  import opened Signer
  import opened OtaSink

  datatype ImageState = New | PendingVerify | Valid | Invalid | Aborted | Undefined

  /** `certified` is history: the image that a finish verified here, until the slot is written again. */
  datatype Slot = Slot(content: seq<byte>, state: ImageState, certified: Option<seq<byte>>)

  /** One receiver object; `claimed` is the moment inside begin between token and esp_ota_begin. */
  datatype Receiver = Receiver(owner: bool, claimed: bool, active: bool, target: bool, view: View, expected: seq<byte>)

  const IDLE := Receiver(false, false, false, false, EMPTY, [])

  /**
   * The slots are named false (`app0`) and true (`app1`). Two fields are history: `holder`
   * (who took the token) and `before` (the image that ran before the last reboot).
   */
  datatype State = State(
    app0: Slot,
    app1: Slot,
    running: bool,
    boot: bool,
    selfTestPending: bool,
    selfTestTask: bool,
    inProgress: bool,
    receivers: map<nat, Receiver>,
    holder: Option<nat>,
    before: seq<byte>)

  datatype ReceiverCall =
    | Claim
    | Open(idfBegin: bool)
    | Expect(version: seq<byte>)
    | Feed(data: seq<byte>)
    | FeedFails(data: seq<byte>, garbage: seq<byte>)
    | Finish(idfEnd: bool, idfBoot: bool)
    | Abort
    | Destroy

  datatype Event =
    | Create(id: nat)
    | Call(id: nat, call: ReceiverCall)
    | Rollback(imagePresent: bool, idfBoot: bool)
    | SelfTestStart(readable: bool, taskStarted: bool, marked: bool)
    | SelfTestPoll(healthy: bool, timedOut: bool, canRollBack: bool, marked: bool, choice: bool)
    | Reboot(choice: bool)

  /** Factory state: a running image and anything at all in the other slot. */
  function Init(first: seq<byte>, second: seq<byte>, state: ImageState): State {
    State(Slot(first, Undefined, None), Slot(second, state, None),
          false, false, false, false, false, map[], None, first)
  }

  function At(s: State, slot: bool): Slot {
    if slot then s.app1 else s.app0
  }

  function Put(s: State, slot: bool, value: Slot): State {
    if slot then s.(app1 := value) else s.(app0 := value)
  }

  /** Flash is erased only just ahead of what is written, so it is the first write that destroys the old image. */
  function Overwrite(s: State, slot: bool, content: seq<byte>): State {
    Put(s, slot, At(s, slot).(content := content, certified := None))
  }

  function Mark(s: State, slot: bool, state: ImageState): State {
    Put(s, slot, At(s, slot).(state := state))
  }

  /** `esp_ota_get_next_update_partition(nullptr)`. */
  function Other(s: State): bool { !s.running }

  function Update(s: State, id: nat, r: Receiver): State {
    s.(receivers := s.receivers[id := r])
  }

  predicate Pending(s: State) {
    At(s, s.running).state.PendingVerify?
  }

  /** Select a slot for the next boot. */
  function Select(s: State, slot: bool): State {
    Mark(s, slot, New).(boot := slot)
  }

  /** The bootloader: unconfirmed images are aborted, a slot is picked, a new image goes on probation. */
  function Boots(slot: Slot, picked: bool): Slot {
    if slot.state.PendingVerify? then slot.(state := Aborted)
    else if slot.state.New? && picked then slot.(state := PendingVerify)
    else slot
  }

  function BootInto(s: State, choice: bool): State {
    s.(app0 := Boots(s.app0, !choice), app1 := Boots(s.app1, choice), running := choice,
       selfTestPending := false, selfTestTask := false, inProgress := false, receivers := map[],
       boot := choice, holder := None, before := At(s, s.running).content)
  }

  function Confirm(s: State, marked: bool): State {
    if marked then Mark(s, s.running, Valid) else s
  }

  function ClaimStep(s: State, id: nat, r: Receiver): State {
    if s.selfTestPending || s.inProgress then s
    else Update(s, id, r.(owner := true, claimed := true)).(inProgress := true, holder := Some(id))
  }

  /** A successful begin writes nothing yet. */
  function OpenStep(s: State, id: nat, r: Receiver, idfBegin: bool): State {
    if !r.claimed then s
    else if !idfBegin || Pending(s) then Update(s, id, r.(claimed := false))
    else Update(s, id, r.(claimed := false, active := true, target := Other(s), view := EMPTY))
  }

  /** Whether feeding `data` sends bytes to flash: the stream outgrows the tail and starts like an image. */
  predicate Commits(v: View, data: seq<byte>) {
    data != [] && |Stream(v) + data| > TRAILER && (Stream(v) + data)[0] == MAGIC
  }

  /** Callers abort when a chunk is refused. */
  function FeedStep(s: State, id: nat, r: Receiver, data: seq<byte>): State {
    if !r.active then s
    else if BadMagic(Stream(r.view) + data) then Update(s, id, r.(active := false))
    else
      var fed := Update(s, id, r.(view := Absorb(r.view, data)));
      if Commits(r.view, data) then Overwrite(fed, r.target, Absorb(r.view, data).flash) else fed
  }

  /** A flash fault while committing: anything may be in the slot now, and the caller aborts. */
  function FailStep(s: State, id: nat, r: Receiver, data: seq<byte>, garbage: seq<byte>): State {
    if !r.active || !Commits(r.view, data) then s
    else Overwrite(Update(s, id, r.(active := false)), r.target, garbage)
  }

  function FinishStep(s: State, id: nat, r: Receiver, installs: bool): State {
    if !r.active then s
    else if !installs then Update(s, id, r.(active := false))
    else
      var done := Select(Update(s, id, r.(active := false)), r.target);
      Put(done, r.target, At(done, r.target).(certified := Some(r.view.flash)))
  }

  function DestroyStep(s: State, id: nat, r: Receiver): State {
    s.(receivers := s.receivers - {id},
       inProgress := s.inProgress && !r.owner,
       holder := if r.owner then None else s.holder)
  }

  function ReceiverStep(c: Crypto, s: State, id: nat, r: Receiver, call: ReceiverCall): State {
    match call
    case Claim => ClaimStep(s, id, r)
    case Open(idfBegin) => OpenStep(s, id, r, idfBegin)
    case Expect(version) => Update(s, id, r.(expected := version[..Min(VERSION_FIELD, |version|)]))
    case Feed(data) => FeedStep(s, id, r, data)
    case FeedFails(data, garbage) => FailStep(s, id, r, data, garbage)
    case Finish(idfEnd, idfBoot) =>
      FinishStep(s, id, r, Verdict(c, r.view, r.expected, idfEnd, idfBoot).Installed?)
    case Abort => Update(s, id, r.(active := false))
    case Destroy => DestroyStep(s, id, r)
  }

  function SelfTestStep(s: State, healthy: bool, timedOut: bool, canRollBack: bool, marked: bool, choice: bool): State {
    if !s.selfTestTask then s
    else if !healthy && !timedOut then s
    else if !healthy && canRollBack then BootInto(Mark(s, s.running, Invalid), choice)
    else Confirm(s, marked).(selfTestPending := false, selfTestTask := false)
  }

  function StartSelfTest(s: State, readable: bool, taskStarted: bool, marked: bool): State {
    if !readable || !Pending(s) || s.selfTestTask then s
    else if taskStarted then s.(selfTestPending := true, selfTestTask := true)
    else Confirm(s, marked).(selfTestPending := false, selfTestTask := false)
  }

  function Step(c: Crypto, s: State, e: Event): State {
    match e
    case Create(id) => if id in s.receivers then s else Update(s, id, IDLE)
    case Call(id, call) => if id in s.receivers then ReceiverStep(c, s, id, s.receivers[id], call) else s
    case Rollback(imagePresent, idfBoot) => if imagePresent && idfBoot then Select(s, Other(s)) else s
    case SelfTestStart(readable, taskStarted, marked) => StartSelfTest(s, readable, taskStarted, marked)
    case SelfTestPoll(healthy, timedOut, canRollBack, marked, choice) =>
      SelfTestStep(s, healthy, timedOut, canRollBack, marked, choice)
    case Reboot(choice) => BootInto(s, choice)
  }

  function Run(c: Crypto, s: State, es: seq<Event>): State
    decreases |es|
  {
    if es == [] then s else Run(c, Step(c, s, es[0]), es[1..])
  }

  // ------------------------------------------------------------------------------------
  // The invariant
  // ------------------------------------------------------------------------------------

  /** What holds of one receiver: it works only with the token, and flash holds exactly its view. */
  ghost predicate ReceiverOk(s: State, id: nat, r: Receiver) {
    && (r.owner ==> s.inProgress && s.holder == Some(id))
    && (r.claimed || r.active ==> r.owner)
    && (r.active ==>
          && !r.claimed
          && r.target == Other(s)
          && (r.view.flash != [] ==> At(s, r.target).content == r.view.flash && At(s, r.target).certified == None)
          && Held(r.view)
          && !Pending(s))
  }

  /** While the running image is on probation, its fallback is the image that ran before. */
  ghost predicate FallbackOk(s: State) {
    && !At(s, s.running).state.New?
    && (Pending(s) ==> At(s, Other(s)).content == s.before)
    && (s.selfTestPending ==> Pending(s))
  }

  /** A certified image is still in its slot, and the release key signed it. */
  ghost predicate CertificateOk(c: Crypto, slot: Slot) {
    slot.certified.Some? ==> slot.content == slot.certified.value && ReleaseSigned(c, slot.content)
  }

  ghost predicate ReleaseSigned(c: Crypto, image: seq<byte>) {
    exists field: seq<byte>, signature: seq<byte> ::
      |field| == VERSION_FIELD && |signature| == SIGNATURE && c.verify(signature, c.sha(image + field))
  }

  ghost predicate Inv(c: Crypto, s: State) {
    && (forall id | id in s.receivers :: ReceiverOk(s, id, s.receivers[id]))
    && FallbackOk(s)
    && CertificateOk(c, s.app0) && CertificateOk(c, s.app1)
  }

  /** Same epoch: the running slot is the same, untouched, and no reboot has happened. */
  ghost predicate SameEpoch(s: State, s': State) {
    s'.running == s.running && s'.before == s.before && At(s', s.running).content == At(s, s.running).content
  }

  lemma ClaimKeepsInv(c: Crypto, s: State, id: nat)
    requires Inv(c, s) && id in s.receivers
    ensures Inv(c, ClaimStep(s, id, s.receivers[id])) && SameEpoch(s, ClaimStep(s, id, s.receivers[id]))
  {
    hide ReleaseSigned, Held;
  }

  lemma UpdateKeepsInv(c: Crypto, s: State, id: nat, r: Receiver)
    requires Inv(c, s) && ReceiverOk(s, id, r)
    ensures Inv(c, Update(s, id, r)) && SameEpoch(s, Update(s, id, r))
  {
    hide ReleaseSigned, Held;
  }

  lemma OpenKeepsInv(c: Crypto, s: State, id: nat, idfBegin: bool)
    requires Inv(c, s) && id in s.receivers
    ensures Inv(c, OpenStep(s, id, s.receivers[id], idfBegin)) && SameEpoch(s, OpenStep(s, id, s.receivers[id], idfBegin))
  {
    assert Held(EMPTY);
    hide Held, CertificateOk, FallbackOk, SameEpoch, Pending;
    var r := s.receivers[id];
    assert ReceiverOk(s, id, r);
    UpdateKeepsInv(c, s, id, r.(claimed := false));
    if r.claimed && !Pending(s) {
      UpdateKeepsInv(c, s, id, r.(claimed := false, active := true, target := Other(s), view := EMPTY));
    }
    UpdateKeepsInv(c, s, id, r);
    assert s.receivers[id := r] == s.receivers;
  }

  lemma FeedKeepsInv(c: Crypto, s: State, id: nat, data: seq<byte>)
    requires Inv(c, s) && id in s.receivers
    ensures Inv(c, FeedStep(s, id, s.receivers[id], data)) && SameEpoch(s, FeedStep(s, id, s.receivers[id], data))
  {
    hide Held, Absorb, BadMagic, Commits, Stream, CertificateOk, FallbackOk, SameEpoch, Inv;
    var r := s.receivers[id];
    ActiveFacts(c, s, id);
    if !r.active {
      UpdateKeepsInv(c, s, id, r);
      assert s.receivers[id := r] == s.receivers;
    } else if BadMagic(Stream(r.view) + data) {
      UpdateKeepsInv(c, s, id, r.(active := false));
    } else {
      FeedingView(r.view, data);
      if Commits(r.view, data) {
        WriteKeepsInv(c, s, id, r.(view := Absorb(r.view, data)), Absorb(r.view, data).flash);
      } else {
        UpdateKeepsInv(c, s, id, r.(view := Absorb(r.view, data)));
      }
    }
  }

  lemma ActiveFacts(c: Crypto, s: State, id: nat)
    requires Inv(c, s) && id in s.receivers
    ensures ReceiverOk(s, id, s.receivers[id])
  {
  }

  /** What one accepted chunk does to the view: it commits something, or flash stays as it is. */
  lemma FeedingView(v: View, data: seq<byte>)
    requires Held(v) && !BadMagic(Stream(v) + data)
    ensures Held(Absorb(v, data))
    ensures if Commits(v, data) then Absorb(v, data).flash != [] else Absorb(v, data).flash == v.flash
  {
    HeldIsCut(v);
    if data == [] { assert Stream(v) + data == Stream(v); }
  }

  /** The holder of the token writes to the inactive slot; nobody else is active, and nothing is on probation. */
  lemma WriteKeepsInv(c: Crypto, s: State, id: nat, r: Receiver, content: seq<byte>)
    requires Inv(c, s) && id in s.receivers && s.receivers[id].active
    requires r.owner && !r.claimed && r.target == s.receivers[id].target
    requires r.active ==> Held(r.view) && (r.view.flash != [] ==> content == r.view.flash)
    ensures Inv(c, Overwrite(Update(s, id, r), r.target, content))
    ensures SameEpoch(s, Overwrite(Update(s, id, r), r.target, content))
  {
    hide ReleaseSigned, Held;
    assert ReceiverOk(s, id, s.receivers[id]);
  }

  lemma FailKeepsInv(c: Crypto, s: State, id: nat, data: seq<byte>, garbage: seq<byte>)
    requires Inv(c, s) && id in s.receivers
    ensures var s' := FailStep(s, id, s.receivers[id], data, garbage); Inv(c, s') && SameEpoch(s, s')
  {
    hide Inv, SameEpoch, Overwrite, Commits;
    var r := s.receivers[id];
    ActiveFacts(c, s, id);
    UpdateKeepsInv(c, s, id, r);
    assert s.receivers[id := r] == s.receivers;
    if r.active { WriteKeepsInv(c, s, id, r.(active := false), garbage); }
  }

  lemma FinishKeepsInv(c: Crypto, s: State, id: nat, installs: bool)
    requires Inv(c, s) && id in s.receivers
    requires installs && s.receivers[id].active ==>
               s.receivers[id].view.flash != [] && ReleaseSigned(c, s.receivers[id].view.flash)
    ensures Inv(c, FinishStep(s, id, s.receivers[id], installs)) && SameEpoch(s, FinishStep(s, id, s.receivers[id], installs))
  {
    hide ReleaseSigned, Held;
    assert ReceiverOk(s, id, s.receivers[id]);
  }

  lemma InstalledIsSigned(c: Crypto, v: View, expected: seq<byte>, idfEnd: bool, idfBoot: bool)
    requires Verdict(c, v, expected, idfEnd, idfBoot).Installed? && |v.tail| <= TRAILER
    ensures v.flash != [] && ReleaseSigned(c, v.flash)
  {
    var field, signature := v.tail[..VERSION_FIELD], v.tail[VERSION_FIELD..];
    assert |field| == VERSION_FIELD && |signature| == SIGNATURE && c.verify(signature, c.sha(v.flash + field));
  }

  lemma QuietKeepsInv(c: Crypto, s: State, id: nat, call: ReceiverCall)
    requires Inv(c, s) && id in s.receivers && (call.Expect? || call.Abort? || call.Destroy?)
    ensures Inv(c, ReceiverStep(c, s, id, s.receivers[id], call))
    ensures SameEpoch(s, ReceiverStep(c, s, id, s.receivers[id], call))
  {
    hide ReleaseSigned, Held, Verdict, ClaimStep, OpenStep, FeedStep, FailStep, FinishStep;
    assert ReceiverOk(s, id, s.receivers[id]);
  }

  lemma CallKeepsInv(c: Crypto, s: State, id: nat, call: ReceiverCall)
    requires Inv(c, s) && id in s.receivers
    ensures Inv(c, ReceiverStep(c, s, id, s.receivers[id], call))
    ensures SameEpoch(s, ReceiverStep(c, s, id, s.receivers[id], call))
  {
    hide ReleaseSigned, Verdict, ClaimStep, OpenStep, FeedStep, FailStep, FinishStep, DestroyStep;
    match call
    case Claim => ClaimKeepsInv(c, s, id);
    case Open(idfBegin) => OpenKeepsInv(c, s, id, idfBegin);
    case Feed(data) => FeedKeepsInv(c, s, id, data);
    case FeedFails(data, garbage) => FailKeepsInv(c, s, id, data, garbage);
    case Finish(idfEnd, idfBoot) =>
      var r := s.receivers[id];
      if r.active && Verdict(c, r.view, r.expected, idfEnd, idfBoot).Installed? {
        assert ReceiverOk(s, id, r);
        InstalledIsSigned(c, r.view, r.expected, idfEnd, idfBoot);
      }
      FinishKeepsInv(c, s, id, Verdict(c, r.view, r.expected, idfEnd, idfBoot).Installed?);
    case _ => QuietKeepsInv(c, s, id, call);
  }

  lemma BootFallback(s: State, choice: bool)
    requires !At(s, s.running).state.New?
    ensures FallbackOk(BootInto(s, choice))
  {
  }

  lemma BootKeepsInv(c: Crypto, s: State, choice: bool)
    requires Inv(c, s)
    ensures Inv(c, BootInto(s, choice))
    ensures Inv(c, BootInto(Mark(s, s.running, Invalid), choice))
  {
    BootFallback(s, choice);
    BootFallback(Mark(s, s.running, Invalid), choice);
    hide FallbackOk, ReceiverOk, ReleaseSigned;
  }

  /** Only states and flags change; contents, receivers and history stay. */
  lemma FrameKeepsInv(c: Crypto, s: State, s': State)
    requires Inv(c, s) && FallbackOk(s') && (Pending(s') ==> Pending(s))
    requires s'.receivers == s.receivers && s'.inProgress == s.inProgress && s'.holder == s.holder
    requires s'.running == s.running && s'.before == s.before
    requires s'.app0 == s.app0.(state := s'.app0.state) && s'.app1 == s.app1.(state := s'.app1.state)
    ensures Inv(c, s') && SameEpoch(s, s')
  {
    hide ReleaseSigned, Held, FallbackOk, Pending;
    forall id | id in s.receivers ensures ReceiverOk(s', id, s.receivers[id]) {
      assert ReceiverOk(s, id, s.receivers[id]);
    }
  }

  /** The running image is confirmed, or left as it is because marking it failed. */
  lemma ConfirmKeepsInv(c: Crypto, s: State, marked: bool, task: bool)
    requires Inv(c, s)
    ensures var s' := Confirm(s, marked).(selfTestPending := false, selfTestTask := task);
            Inv(c, s') && SameEpoch(s, s')
  {
    FrameKeepsInv(c, s, Confirm(s, marked).(selfTestPending := false, selfTestTask := task));
    hide Inv, SameEpoch, Confirm;
  }

  lemma WatchKeepsInv(c: Crypto, s: State)
    requires Inv(c, s) && Pending(s)
    ensures var s' := s.(selfTestPending := true, selfTestTask := true);
            Inv(c, s') && SameEpoch(s, s')
  {
    FrameKeepsInv(c, s, s.(selfTestPending := true, selfTestTask := true));
    hide Inv, SameEpoch;
  }

  lemma CreateKeepsInv(c: Crypto, s: State, id: nat)
    requires Inv(c, s)
    ensures Inv(c, Update(s, id, IDLE)) && SameEpoch(s, Update(s, id, IDLE))
  {
    hide ReleaseSigned, Held;
  }

  lemma RollbackKeepsInv(c: Crypto, s: State)
    requires Inv(c, s)
    ensures Inv(c, Select(s, Other(s))) && SameEpoch(s, Select(s, Other(s)))
  {
    FrameKeepsInv(c, s, Select(s, Other(s)));
    hide Inv, SameEpoch, Select;
  }

  /** The events that restart the device: a restart, or a self-test that gives up and can roll back. */
  predicate Reboots(s: State, e: Event) {
    e.Reboot? || (e.SelfTestPoll? && s.selfTestTask && !e.healthy && e.timedOut && e.canRollBack)
  }

  lemma StepKeepsInv(c: Crypto, s: State, e: Event)
    requires Inv(c, s)
    ensures Inv(c, Step(c, s, e))
    ensures !Reboots(s, e) ==> SameEpoch(s, Step(c, s, e))
  {
    hide Inv, BootInto, ReceiverStep, Confirm, Select, Update, Mark;
    match e
    case Create(id) => CreateKeepsInv(c, s, id);
    case Call(id, call) => if id in s.receivers { CallKeepsInv(c, s, id, call); }
    case Rollback(_, _) => RollbackKeepsInv(c, s);
    case SelfTestStart(_, _, marked) =>
      if Pending(s) { WatchKeepsInv(c, s); }
      ConfirmKeepsInv(c, s, marked, false);
    case SelfTestPoll(_, _, _, marked, choice) =>
      BootKeepsInv(c, s, choice);
      ConfirmKeepsInv(c, s, marked, false);
    case Reboot(choice) => BootKeepsInv(c, s, choice);
  }

  lemma {:induction false} RunKeepsInv(c: Crypto, s: State, es: seq<Event>)
    requires Inv(c, s)
    ensures Inv(c, Run(c, s, es))
    decreases |es|
  {
    if es != [] {
      StepKeepsInv(c, s, es[0]);
      RunKeepsInv(c, Step(c, s, es[0]), es[1..]);
    }
  }

  // ------------------------------------------------------------------------------------
  // Safety over whole runs
  // ------------------------------------------------------------------------------------

  /** At most one receiver ever holds the writer token, and only its holder writes. */
  lemma OneWriter(c: Crypto, first: seq<byte>, second: seq<byte>, state: ImageState, es: seq<Event>, a: nat, b: nat)
    requires var rs := Run(c, Init(first, second, state), es).receivers;
             a in rs && b in rs && rs[a].owner && (rs[b].owner || rs[b].active)
    ensures a == b && Run(c, Init(first, second, state), es).inProgress
  {
    RunKeepsInv(c, Init(first, second, state), es);
    var s := Run(c, Init(first, second, state), es);
    assert ReceiverOk(s, a, s.receivers[a]) && ReceiverOk(s, b, s.receivers[b]);
  }

  /**
   * In every reachable state no event, a reboot included, changes the contents of the running
   * slot; and only a reboot changes which slot runs.
   */
  lemma RunningSlotIsNeverWritten(c: Crypto, first: seq<byte>, second: seq<byte>, state: ImageState, es: seq<Event>, e: Event)
    ensures var s := Run(c, Init(first, second, state), es); var s' := Step(c, s, e);
            && At(s', s.running).content == At(s, s.running).content
            && (s'.running != s.running ==> Reboots(s, e))
  {
    RunKeepsInv(c, Init(first, second, state), es);
    var s := Run(c, Init(first, second, state), es);
    StepKeepsInv(c, s, e);
    if Reboots(s, e) { RebootStep(c, s, e); }
  }

  lemma RebootStep(c: Crypto, s: State, e: Event)
    requires Reboots(s, e)
    ensures At(Step(c, s, e), s.running).content == At(s, s.running).content
    ensures Step(c, s, e).before == At(s, s.running).content
  {
    hide ReceiverStep;
  }

  /**
   * Whenever the running image is still on probation, the other slot holds byte for byte the
   * image that was running before it, and nobody is writing anywhere.
   */
  lemma FallbackIsIntact(c: Crypto, first: seq<byte>, second: seq<byte>, state: ImageState, es: seq<Event>)
    ensures var s := Run(c, Init(first, second, state), es);
            Pending(s) ==>
              At(s, Other(s)).content == s.before && forall id | id in s.receivers :: !s.receivers[id].active
  {
    RunKeepsInv(c, Init(first, second, state), es);
    var s := Run(c, Init(first, second, state), es);
    forall id | id in s.receivers ensures ReceiverOk(s, id, s.receivers[id]) {}
  }

  /** `before` is what its name says: a reboot, and nothing else, sets it to the image then running. */
  lemma BeforeIsThePreviousImage(c: Crypto, first: seq<byte>, second: seq<byte>, state: ImageState, es: seq<Event>, e: Event)
    ensures var s := Run(c, Init(first, second, state), es);
            Step(c, s, e).before == if Reboots(s, e) then At(s, s.running).content else s.before
  {
    RunKeepsInv(c, Init(first, second, state), es);
    var s := Run(c, Init(first, second, state), es);
    StepKeepsInv(c, s, e);
    if Reboots(s, e) { RebootStep(c, s, e); }
  }

}
