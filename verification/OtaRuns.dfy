/**
 * What runs do to the inactive slot: exactly which calls write it, what a whole reception leaves
 * in it, and why the slot selected for the next boot need not stay verified.
 */
module OtaRuns {
  import opened Common
  import opened Signer
  import opened OtaSink
  import opened OtaSlots
  import opened Versions

  // ------------------------------------------------------------------------------------
  // Exactly which events write a slot
  // ------------------------------------------------------------------------------------

  /** An opened receiver on this slot is fed a chunk that sends bytes to flash. */
  predicate Writes(s: State, e: Event, slot: bool) {
    && e.Call? && e.id in s.receivers && s.receivers[e.id].active && s.receivers[e.id].target == slot
    && (e.call.Feed? || e.call.FeedFails?) && Commits(s.receivers[e.id].view, e.call.data)
  }

  /** The slot's content after such an event. */
  function WrittenBy(s: State, e: Event, slot: bool): seq<byte>
    requires Writes(s, e, slot)
  {
    if e.call.Feed? then Absorb(s.receivers[e.id].view, e.call.data).flash else e.call.garbage
  }

  /** A finish with a good verdict. */
  predicate Installs(c: Crypto, s: State, e: Event, slot: bool) {
    && e.Call? && e.id in s.receivers && s.receivers[e.id].active && s.receivers[e.id].target == slot && e.call.Finish?
    && Verdict(c, s.receivers[e.id].view, s.receivers[e.id].expected, e.call.idfEnd, e.call.idfBoot).Installed?
  }

  lemma FeedWrites(s: State, id: nat, r: Receiver, data: seq<byte>, slot: bool)
    ensures var s' := FeedStep(s, id, r, data);
            && At(s', slot) == (if r.active && r.target == slot && Commits(r.view, data)
                                then At(s, slot).(content := Absorb(r.view, data).flash, certified := None)
                                else At(s, slot))
            && s'.boot == s.boot
  {
    if Commits(r.view, data) { CommitsAreImages(r.view, data); }
    hide Absorb, BadMagic, Commits, Stream;
  }

  lemma CommitsAreImages(v: View, data: seq<byte>)
    requires Commits(v, data)
    ensures !BadMagic(Stream(v) + data)
  {
  }

  lemma FailWrites(s: State, id: nat, r: Receiver, data: seq<byte>, garbage: seq<byte>, slot: bool)
    ensures var s' := FailStep(s, id, r, data, garbage);
            && At(s', slot) == (if r.active && r.target == slot && Commits(r.view, data)
                                then At(s, slot).(content := garbage, certified := None)
                                else At(s, slot))
            && s'.boot == s.boot
  {
    hide Commits;
  }

  lemma FinishSelects(s: State, id: nat, r: Receiver, installs: bool, slot: bool)
    ensures var s' := FinishStep(s, id, r, installs);
            && At(s', slot) == (if r.active && installs && r.target == slot
                                then At(s, slot).(state := New, certified := Some(r.view.flash))
                                else At(s, slot))
            && s'.boot == if r.active && installs then r.target else s.boot
  {
  }

  lemma QuietCalls(c: Crypto, s: State, id: nat, r: Receiver, call: ReceiverCall)
    requires !call.Feed? && !call.FeedFails? && !call.Finish?
    ensures var s' := ReceiverStep(c, s, id, r, call);
            s'.app0 == s.app0 && s'.app1 == s.app1 && s'.boot == s.boot
  {
    hide FeedStep, FailStep, FinishStep;
  }

  lemma CallWrites(c: Crypto, s: State, e: Event, slot: bool)
    requires e.Call? && e.id in s.receivers
    ensures var s' := Step(c, s, e);
            && At(s', slot).content == (if Writes(s, e, slot) then WrittenBy(s, e, slot) else At(s, slot).content)
            && At(s', slot).certified == (if Installs(c, s, e, slot) then Some(s.receivers[e.id].view.flash)
                                          else if Writes(s, e, slot) then None else At(s, slot).certified)
            && s'.boot == if Installs(c, s, e, true) then true else if Installs(c, s, e, false) then false else s.boot
  {
    hide Verdict, Absorb, Commits, FeedStep, FailStep, FinishStep, ClaimStep, OpenStep, DestroyStep;
    var id, r := e.id, s.receivers[e.id];
    match e.call
    case Feed(data) => FeedWrites(s, id, r, data, slot);
    case FeedFails(data, garbage) => FailWrites(s, id, r, data, garbage, slot);
    case Finish(idfEnd, idfBoot) =>
      FinishSelects(s, id, r, Verdict(c, r.view, r.expected, idfEnd, idfBoot).Installed?, slot);
    case _ => QuietCalls(c, s, id, r, e.call);
  }

  lemma OthersDoNotWrite(c: Crypto, s: State, e: Event, slot: bool)
    requires !e.Call? || e.id !in s.receivers
    ensures At(Step(c, s, e), slot).content == At(s, slot).content
    ensures At(Step(c, s, e), slot).certified == At(s, slot).certified
  {
    MarkKeepsContents(s, s.running, Valid, slot);
    MarkKeepsContents(s, s.running, Invalid, slot);
    MarkKeepsContents(s, Other(s), New, slot);
    hide ReceiverStep, Mark, BootInto;
    match e
    case Reboot(choice) => BootKeepsContents(s, choice, slot);
    case SelfTestPoll(_, _, _, _, choice) => BootKeepsContents(Mark(s, s.running, Invalid), choice, slot);
    case _ =>
  }

  lemma MarkKeepsContents(s: State, marked: bool, state: ImageState, slot: bool)
    ensures At(Mark(s, marked, state), slot).content == At(s, slot).content
    ensures At(Mark(s, marked, state), slot).certified == At(s, slot).certified
  {
  }

  lemma BootKeepsContents(s: State, choice: bool, slot: bool)
    ensures At(BootInto(s, choice), slot).content == At(s, slot).content
    ensures At(BootInto(s, choice), slot).certified == At(s, slot).certified
  {
  }

  /**
   * In every reachable state, for every event: a slot's content changes only by a write of an opened
   * receiver, which holds the token and works on the slot that is not running; a certificate is
   * given exactly by an install of that content, and lost exactly by such a write.
   */
  lemma OnlyReceiversWrite(c: Crypto, first: seq<byte>, second: seq<byte>, state: ImageState, es: seq<Event>, e: Event, slot: bool)
    ensures var s := Run(c, Init(first, second, state), es); var s' := Step(c, s, e);
            && At(s', slot).content == (if Writes(s, e, slot) then WrittenBy(s, e, slot) else At(s, slot).content)
            && At(s', slot).certified == (if Installs(c, s, e, slot) then Some(At(s, slot).content)
                                          else if Writes(s, e, slot) then None else At(s, slot).certified)
            && (Writes(s, e, slot) ==> slot != s.running && s.inProgress && s.holder == Some(e.id))
  {
    var s := Run(c, Init(first, second, state), es);
    RunKeepsInv(c, Init(first, second, state), es);
    hide Run, Inv, Verdict, Step;
    if e.Call? && e.id in s.receivers {
      CallWrites(c, s, e, slot);
      ActiveFacts(c, s, e.id);
    } else {
      OthersDoNotWrite(c, s, e, slot);
    }
  }

  /** A verified install stays what was verified until, and only until, a receiver's first write to its slot. */
  lemma OnlyFirstWriteRevokes(c: Crypto, first: seq<byte>, second: seq<byte>, state: ImageState, es: seq<Event>, e: Event, slot: bool)
    requires At(Run(c, Init(first, second, state), es), slot).certified.Some?
    ensures var s := Run(c, Init(first, second, state), es);
            && At(s, slot).content == At(s, slot).certified.value && ReleaseSigned(c, At(s, slot).content)
            && (At(Step(c, s, e), slot).certified != At(s, slot).certified <==> Writes(s, e, slot))
            && (Writes(s, e, slot) ==> s.receivers[e.id].view.flash == [])
  {
    var s := Run(c, Init(first, second, state), es);
    RunKeepsInv(c, Init(first, second, state), es);
    OnlyReceiversWrite(c, first, second, state, es, e, slot);
    hide Run, Step, Verdict, ReleaseSigned;
    if e.Call? && e.id in s.receivers { ActiveFacts(c, s, e.id); }
  }

  // ------------------------------------------------------------------------------------
  // The slot selected for the next boot
  // ------------------------------------------------------------------------------------

  /** The slot that the next boot is to come from holds what a finish verified. */
  predicate SelectedIsVerified(s: State) {
    At(s, s.boot).certified.Some?
  }

  /** A rollback, or the bootloader, picks a slot that was never verified. */
  predicate PicksUnverified(s: State, e: Event) {
    || (e.Rollback? && e.imagePresent && e.idfBoot && At(s, Other(s)).certified.None?)
    || (Reboots(s, e) && At(s, e.choice).certified.None?)
  }

  /**
   * "The slot selected for the next boot is verified" is not an invariant. From any reachable state
   * in which it holds, the next event keeps it exactly if it neither writes to that slot nor picks
   * an unverified one.
   */
  lemma SelectedStaysVerifiedExactlyWhen(c: Crypto, first: seq<byte>, second: seq<byte>, state: ImageState, es: seq<Event>, e: Event)
    requires SelectedIsVerified(Run(c, Init(first, second, state), es))
    ensures var s := Run(c, Init(first, second, state), es);
            SelectedIsVerified(Step(c, s, e)) <==> !Writes(s, e, s.boot) && !PicksUnverified(s, e)
  {
    var s := Run(c, Init(first, second, state), es);
    OnlyReceiversWrite(c, first, second, state, es, e, false);
    OnlyReceiversWrite(c, first, second, state, es, e, true);
    BootChanges(c, s, e);
    hide Run, Step, Verdict, Commits, Absorb;
    if Installs(c, s, e, false) || Installs(c, s, e, true) { assert !Writes(s, e, s.boot); }
  }

  lemma BootChanges(c: Crypto, s: State, e: Event)
    ensures Step(c, s, e).boot ==
              if Reboots(s, e) then e.choice
              else if e.Rollback? && e.imagePresent && e.idfBoot then Other(s)
              else if Installs(c, s, e, true) then true
              else if Installs(c, s, e, false) then false
              else s.boot
  {
    if e.Call? && e.id in s.receivers { CallWrites(c, s, e, true); }
    hide ReceiverStep, Verdict;
  }

  // ------------------------------------------------------------------------------------
  // Whole receptions
  // ------------------------------------------------------------------------------------

  function Begin(id: nat): seq<Event> {
    [Create(id), Call(id, Claim), Call(id, Open(true))]
  }

  function Feeds(id: nat, chunks: seq<seq<byte>>): seq<Event>
    decreases |chunks|
  {
    if chunks == [] then [] else [Call(id, Feed(chunks[0]))] + Feeds(id, chunks[1..])
  }

  /** Begin, and the release that the file has to carry, if the caller names one. */
  function Start(id: nat, expected: Option<seq<byte>>): seq<Event> {
    Begin(id) + if expected.None? then [] else [Call(id, Expect(expected.value))]
  }

  /** Start, every chunk, finish. */
  function Receive(id: nat, expected: Option<seq<byte>>, chunks: seq<seq<byte>>, idfEnd: bool, idfBoot: bool): seq<Event> {
    Start(id, expected) + (Feeds(id, chunks) + [Call(id, Finish(idfEnd, idfBoot))])
  }

  /** No update under way and no self-test, so that a begin succeeds. */
  ghost predicate Ready(c: Crypto, s: State, id: nat) {
    Inv(c, s) && id !in s.receivers && !s.inProgress && !s.selfTestPending && !Pending(s)
  }

  /** An opened receiver that has been told what release to expect. */
  function Opened(s: State, expected: seq<byte>): Receiver {
    Receiver(true, false, true, Other(s), EMPTY, expected)
  }

  function Started(s: State, id: nat, expected: seq<byte>): State {
    Update(s, id, Opened(s, expected)).(inProgress := true, holder := Some(id))
  }

  lemma {:induction false} RunConcat(c: Crypto, s: State, a: seq<Event>, b: seq<Event>)
    ensures Run(c, s, a + b) == Run(c, Run(c, s, a), b)
    decreases |a|
  {
    hide Step;
    if a == [] {
      assert a + b == b;
    } else {
      assert (a + b)[1..] == a[1..] + b;
      RunConcat(c, Step(c, s, a[0]), a[1..], b);
    }
  }

  lemma RunOne(c: Crypto, s: State, e: Event)
    ensures Run(c, s, [e]) == Step(c, s, e)
  {
    hide Step;
    assert Run(c, s, [e]) == Run(c, Step(c, s, e), [e][1..]);
  }

  lemma BeginOpens(c: Crypto, s: State, id: nat)
    requires Ready(c, s, id)
    ensures Run(c, s, Begin(id)) == Started(s, id, [])
  {
    hide Run, Inv;
    var a := Step(c, s, Create(id));
    var b := Step(c, a, Call(id, Claim));
    var t := Step(c, b, Call(id, Open(true)));
    assert t == Started(s, id, []);
    hide Step;
    RunOne(c, s, Create(id));
    RunOne(c, a, Call(id, Claim));
    RunOne(c, b, Call(id, Open(true)));
    RunConcat(c, s, [Create(id)], [Call(id, Claim)]);
    RunConcat(c, s, [Create(id)] + [Call(id, Claim)], [Call(id, Open(true))]);
    assert Begin(id) == ([Create(id)] + [Call(id, Claim)]) + [Call(id, Open(true))];
  }

  lemma ExpectNotes(c: Crypto, s: State, id: nat, version: seq<byte>)
    ensures Step(c, Started(s, id, []), Call(id, Expect(version))) == Started(s, id, Kept(Some(version)))
  {
    assert s.receivers[id := Opened(s, [])][id := Opened(s, Kept(Some(version)))]
        == s.receivers[id := Opened(s, Kept(Some(version)))];
  }

  lemma StartExpects(c: Crypto, s: State, id: nat, expected: Option<seq<byte>>)
    requires Ready(c, s, id)
    ensures Run(c, s, Start(id, expected)) == Started(s, id, Kept(expected))
  {
    BeginOpens(c, s, id);
    if expected.None? {
      assert Start(id, expected) == Begin(id);
    } else {
      ExpectNotes(c, s, id, expected.value);
      RunConcat(c, s, Begin(id), [Call(id, Expect(expected.value))]);
      RunOne(c, Started(s, id, []), Call(id, Expect(expected.value)));
      hide Run, Begin, Step, Ready, Started, Kept;
    }
  }

  /** Too short to outgrow the tail, or not an image: such a stream never reaches flash. */
  predicate NeverWritten(all: seq<byte>) {
    |all| <= TRAILER || all[0] != MAGIC
  }

  /** What feeding a stream leaves of a slot: as it was, or the stream without its tail. */
  function Left(former: Slot, all: seq<byte>): Slot {
    if NeverWritten(all) then former else Slot(all[..|all| - TRAILER], former.state, None)
  }

  /** Everything outside the receiver and the content of its slot is as it was. */
  ghost predicate OnlyFed(s: State, t: State, id: nat) {
    && t.running == s.running && t.boot == s.boot && t.inProgress == s.inProgress && t.holder == s.holder
    && t.selfTestPending == s.selfTestPending && t.selfTestTask == s.selfTestTask && t.before == s.before
    && At(t, s.running) == At(s, s.running)
    && id in t.receivers && t.receivers == s.receivers[id := t.receivers[id]]
  }

  /** Two receivers that differ only in how far they got. */
  predicate SameReceiver(r: Receiver, q: Receiver) {
    r.(active := true, view := EMPTY) == q.(active := true, view := EMPTY)
  }

  predicate Reflects(r: Receiver, all: seq<byte>) {
    if BadMagic(all) then !r.active else r.active && r.view == Cut(all)
  }

  /** A receiver that has been fed `all`, on a slot that was `former` when it was opened. */
  ghost predicate Receiving(s: State, id: nat, former: Slot, all: seq<byte>) {
    && id in s.receivers && s.receivers[id].target == Other(s)
    && At(s, Other(s)) == Left(former, all)
    && Reflects(s.receivers[id], all)
  }

  /** One chunk, as far as the receiver is concerned. */
  lemma FeedOne(c: Crypto, s: State, id: nat, former: Slot, all: seq<byte>, data: seq<byte>)
    requires Receiving(s, id, former, all)
    ensures var t := Step(c, s, Call(id, Feed(data)));
            && Receiving(t, id, former, all + data) && OnlyFed(s, t, id)
            && SameReceiver(t.receivers[id], s.receivers[id])
  {
    var r := s.receivers[id];
    assert s.receivers == s.receivers[id := r];
    if !r.active {
      StaysBad(all, data);
      hide Cut, FeedStep;
      InactiveFeed(s, id, r, data);
    } else {
      FeedActive(s, id, former, all, data);
    }
  }

  lemma InactiveFeed(s: State, id: nat, r: Receiver, data: seq<byte>)
    requires !r.active
    ensures FeedStep(s, id, r, data) == s
  {
  }

  lemma StaysBad(all: seq<byte>, data: seq<byte>)
    requires BadMagic(all)
    ensures BadMagic(all + data) && forall former: Slot :: Left(former, all + data) == Left(former, all) == former
  {
  }

  lemma UpdateReceives(s: State, id: nat, r: Receiver, former: Slot, all: seq<byte>)
    requires id in s.receivers && SameReceiver(s.receivers[id], r) && r.target == Other(s)
    requires Reflects(r, all) && At(s, Other(s)) == Left(former, all)
    ensures var t := Update(s, id, r);
            Receiving(t, id, former, all) && OnlyFed(s, t, id) && SameReceiver(t.receivers[id], r)
  {
    hide Reflects, Left;
  }

  lemma OverwriteReceives(s: State, id: nat, r: Receiver, former: Slot, all: seq<byte>)
    requires id in s.receivers && SameReceiver(s.receivers[id], r) && r.target == Other(s) && Reflects(r, all)
    requires Left(former, all) == At(s, Other(s)).(content := Left(former, all).content, certified := None)
    ensures var t := Overwrite(Update(s, id, r), r.target, Left(former, all).content);
            Receiving(t, id, former, all) && OnlyFed(s, t, id) && SameReceiver(t.receivers[id], r)
  {
    hide Reflects, Left;
  }

  lemma FeedBranches(s: State, id: nat, r: Receiver, data: seq<byte>, all: seq<byte>, next: View)
    requires r.active && Stream(r.view) + data == all && Absorb(r.view, data) == next
    ensures FeedStep(s, id, r, data) ==
              if BadMagic(all) then Update(s, id, r.(active := false))
              else if Commits(r.view, data) then Overwrite(Update(s, id, r.(view := next)), r.target, next.flash)
              else Update(s, id, r.(view := next))
  {
    hide Absorb, BadMagic, Commits, Stream, Update, Overwrite;
  }

  lemma FeedActive(s: State, id: nat, former: Slot, all: seq<byte>, data: seq<byte>)
    requires Receiving(s, id, former, all) && s.receivers[id].active
    ensures var t := FeedStep(s, id, s.receivers[id], data);
            && Receiving(t, id, former, all + data) && OnlyFed(s, t, id)
            && SameReceiver(t.receivers[id], s.receivers[id])
  {
    var r, next := s.receivers[id], Cut(all + data);
    LeftGrows(former, all, data);
    assert r.view == Cut(all) && Absorb(r.view, data) == next;
    assert BadMagic(all + data) ==> Reflects(r.(active := false), all + data);
    assert !BadMagic(all + data) ==> Reflects(r.(view := next), all + data);
    FeedBranches(s, id, r, data, all + data, next);
    hide Cut, Left, BadMagic, Commits, OnlyFed, Overwrite, Update, Reflects, Receiving, FeedStep;
    if BadMagic(all + data) {
      UpdateReceives(s, id, r.(active := false), former, all + data);
    } else if Commits(r.view, data) {
      OverwriteReceives(s, id, r.(view := next), former, all + data);
    } else {
      UpdateReceives(s, id, r.(view := next), former, all + data);
    }
  }

  /** Feeding changes what is left exactly when it commits. */
  lemma LeftGrows(former: Slot, all: seq<byte>, data: seq<byte>)
    requires !BadMagic(all)
    ensures if !BadMagic(all + data) && Commits(Cut(all), data)
            then Left(former, all + data) == Left(former, all).(content := Cut(all + data).flash, certified := None)
            else Left(former, all + data) == Left(former, all)
    ensures Stream(Cut(all)) + data == all + data
  {
    assert data == [] ==> all + data == all;
  }

  lemma CutOfLong(all: seq<byte>)
    ensures Stream(Cut(all)) == all
    ensures Cut(all).flash == if |all| <= TRAILER then [] else all[..|all| - TRAILER]
  {
  }

  lemma {:induction false} FeedsReceive(c: Crypto, s: State, id: nat, former: Slot, all: seq<byte>, chunks: seq<seq<byte>>)
    requires Receiving(s, id, former, all)
    ensures var t := Run(c, s, Feeds(id, chunks));
            && Receiving(t, id, former, all + Flatten(chunks)) && OnlyFed(s, t, id)
            && SameReceiver(t.receivers[id], s.receivers[id])
    decreases |chunks|
  {
    hide Receiving, Step, Cut;
    if chunks == [] {
      assert all + Flatten(chunks) == all;
      assert id in s.receivers by { ReceivingExists(s, id, former, all); }
      assert s.receivers == s.receivers[id := s.receivers[id]];
    } else {
      var e := Call(id, Feed(chunks[0]));
      var t := Step(c, s, e);
      FeedOne(c, s, id, former, all, chunks[0]);
      FeedsReceive(c, t, id, former, all + chunks[0], chunks[1..]);
      assert ([e] + Feeds(id, chunks[1..]))[1..] == Feeds(id, chunks[1..]);
      Associates(all, chunks[0], Flatten(chunks[1..]));
    }
  }

  lemma ReceivingExists(s: State, id: nat, former: Slot, all: seq<byte>)
    requires Receiving(s, id, former, all)
    ensures id in s.receivers
  {
  }

  /** The whole reception is accepted: it is not refused on the way, and the verdict is good. */
  predicate Accepted(c: Crypto, file: seq<byte>, expected: Option<seq<byte>>, idfEnd: bool, idfBoot: bool) {
    !BadMagic(file) && Verdict(c, Cut(file), Kept(expected), idfEnd, idfBoot).Installed?
  }

  /**
   * For every state in which a begin succeeds, every stream and every chunking: what feeding it
   * leaves in the other slot. What runs and what is selected stay out of it.
   */
  lemma FeedingLeaves(c: Crypto, s: State, id: nat, expected: Option<seq<byte>>, chunks: seq<seq<byte>>)
    requires Ready(c, s, id)
    ensures var t := Run(c, s, Start(id, expected) + Feeds(id, chunks));
            && t.boot == s.boot && t.running == s.running && t.selfTestPending == s.selfTestPending
            && At(t, s.running) == At(s, s.running) && At(t, Other(s)) == Left(At(s, Other(s)), Flatten(chunks))
            && Receiving(t, id, At(s, Other(s)), Flatten(chunks))
            && t.receivers[id].owner && t.receivers[id].expected == Kept(expected) && t.receivers == s.receivers[id := t.receivers[id]]
  {
    hide Run, Inv, Cut, Feeds, Verdict, Step, Left, Kept;
    StartExpects(c, s, id, expected);
    OpenedReceives(s, id, Kept(expected));
    FeedsReceive(c, Started(s, id, Kept(expected)), id, At(s, Other(s)), [], chunks);
    assert [] + Flatten(chunks) == Flatten(chunks);
    RunConcat(c, s, Start(id, expected), Feeds(id, chunks));
    hide Start, Reflects;
  }

  /** And what the whole reception leaves and selects. */
  lemma ReceptionLeaves(c: Crypto, s: State, id: nat, expected: Option<seq<byte>>, chunks: seq<seq<byte>>,
                        idfEnd: bool, idfBoot: bool)
    requires Ready(c, s, id)
    ensures var file, t, other := Flatten(chunks), Run(c, s, Receive(id, expected, chunks, idfEnd, idfBoot)), Other(s);
            && t.running == s.running && t.selfTestPending == s.selfTestPending && At(t, s.running) == At(s, s.running)
            && (if Accepted(c, file, expected, idfEnd, idfBoot)
                then t.boot == other && At(t, other) == Slot(file[..|file| - TRAILER], New, Some(file[..|file| - TRAILER]))
                else t.boot == s.boot && At(t, other) == Left(At(s, other), file))
            && id in t.receivers && t.receivers[id].owner && t.receivers == s.receivers[id := t.receivers[id]]
  {
    hide Run, Inv, Cut, Feeds, Verdict, Step, Receiving, Kept;
    var finish := Call(id, Finish(idfEnd, idfBoot));
    var fed := Run(c, s, Start(id, expected) + Feeds(id, chunks));
    FeedingLeaves(c, s, id, expected, chunks);
    RunConcat(c, s, Start(id, expected) + Feeds(id, chunks), [finish]);
    assert Receive(id, expected, chunks, idfEnd, idfBoot) == (Start(id, expected) + Feeds(id, chunks)) + [finish];
    RunOne(c, fed, finish);
    ReceivedFinishes(c, fed, id, At(s, Other(s)), Flatten(chunks), expected, idfEnd, idfBoot);
    hide Start, Left, Accepted;
  }

  lemma OpenedReceives(s: State, id: nat, expected: seq<byte>)
    ensures Receiving(Started(s, id, expected), id, At(s, Other(s)), [])
  {
    CutOfNothing();
    hide Cut;
  }

  lemma ReceivedFinishes(c: Crypto, s: State, id: nat, former: Slot, file: seq<byte>, expected: Option<seq<byte>>,
                         idfEnd: bool, idfBoot: bool)
    requires Receiving(s, id, former, file) && s.receivers[id].expected == Kept(expected)
    ensures var t, other := Step(c, s, Call(id, Finish(idfEnd, idfBoot))), Other(s);
            && t.running == s.running && t.selfTestPending == s.selfTestPending && At(t, s.running) == At(s, s.running)
            && (if Accepted(c, file, expected, idfEnd, idfBoot)
                then t.boot == other && At(t, other) == Slot(file[..|file| - TRAILER], New, Some(file[..|file| - TRAILER]))
                else t.boot == s.boot && At(t, other) == At(s, other))
            && id in t.receivers && t.receivers[id].owner == s.receivers[id].owner
            && t.receivers == s.receivers[id := t.receivers[id]]
  {
    var r := s.receivers[id];
    var installs := Verdict(c, r.view, r.expected, idfEnd, idfBoot).Installed?;
    ReceivedVerdict(c, s, id, former, file, expected, idfEnd, idfBoot);
    FinishSelects(s, id, r, installs, Other(s));
    FinishSelects(s, id, r, installs, s.running);
    FinishFrame(s, id, r, installs);
    assert s.receivers[id := r.(active := false)][id] == r.(active := false);
    hide Verdict, Left, Accepted, FinishStep, Step, Receiving, At, Kept;
  }

  lemma ReceivedVerdict(c: Crypto, s: State, id: nat, former: Slot, file: seq<byte>, expected: Option<seq<byte>>,
                        idfEnd: bool, idfBoot: bool)
    requires Receiving(s, id, former, file) && s.receivers[id].expected == Kept(expected)
    ensures var r := s.receivers[id];
            var installs := Verdict(c, r.view, r.expected, idfEnd, idfBoot).Installed?;
            && Step(c, s, Call(id, Finish(idfEnd, idfBoot))) == FinishStep(s, id, r, installs)
            && r.target == Other(s) && (r.active && installs <==> Accepted(c, file, expected, idfEnd, idfBoot))
            && (r.active && installs ==> r.view.flash == file[..|file| - TRAILER] && At(s, Other(s)).content == r.view.flash)
  {
    if Accepted(c, file, expected, idfEnd, idfBoot) { AcceptedIsLong(c, file, expected, idfEnd, idfBoot); }
    hide Verdict, Cut, BadMagic, FinishStep, Kept;
  }

  lemma FinishFrame(s: State, id: nat, r: Receiver, installs: bool)
    requires id in s.receivers && s.receivers[id] == r
    ensures var t := FinishStep(s, id, r, installs);
            && t.running == s.running && t.selfTestPending == s.selfTestPending
            && t.receivers == s.receivers[id := r.(active := false)]
  {
    if !r.active {
      assert r.(active := false) == r;
      assert s.receivers == s.receivers[id := r];
      hide Update, Select, Put;
    }
  }

  lemma CutOfNothing()
    ensures Cut([]) == EMPTY
  {
  }

  lemma AcceptedIsLong(c: Crypto, file: seq<byte>, expected: Option<seq<byte>>, idfEnd: bool, idfBoot: bool)
    requires Accepted(c, file, expected, idfEnd, idfBoot)
    ensures !NeverWritten(file) && Cut(file).flash == file[..|file| - TRAILER]
  {
  }

  // ------------------------------------------------------------------------------------
  // A rejected image
  // ------------------------------------------------------------------------------------

  /** After the reception the other slot is as it was. */
  ghost predicate Untouched(c: Crypto, s: State, id: nat, expected: Option<seq<byte>>, chunks: seq<seq<byte>>,
                            idfEnd: bool, idfBoot: bool) {
    At(Run(c, s, Receive(id, expected, chunks, idfEnd, idfBoot)), Other(s)).content == At(s, Other(s)).content
  }

  /**
   * "A rejected image leaves the other slot untouched" fails. For a file rejected for whatever reason,
   * another release than the expected one included, and however it is chunked, it holds for everything
   * the other slot may contain exactly when the file is at most as long as the trailer or does not
   * start with the image magic. Nothing is selected either way.
   */
  lemma RejectedImageIsHarmlessExactlyWhen(c: Crypto, s: State, id: nat, expected: Option<seq<byte>>, chunks: seq<seq<byte>>,
                                          idfEnd: bool, idfBoot: bool)
    requires Ready(c, s, id) && !Accepted(c, Flatten(chunks), expected, idfEnd, idfBoot)
    ensures Run(c, s, Receive(id, expected, chunks, idfEnd, idfBoot)).boot == s.boot
    ensures NeverWritten(Flatten(chunks)) <==>
              forall content: seq<byte> ::
                Untouched(c, WithOther(s, content), id, expected, chunks, idfEnd, idfBoot)
  {
    hide Run, Receive, Accepted, Ready, WithOther;
    var file := Flatten(chunks);
    ReceptionLeaves(c, s, id, expected, chunks, idfEnd, idfBoot);
    forall content: seq<byte>
      ensures Untouched(c, WithOther(s, content), id, expected, chunks, idfEnd, idfBoot)
         <==> NeverWritten(file) || file[..|file| - TRAILER] == content
    {
      OtherHolds(s, content);
      StillReady(c, s, id, content);
      ReceptionLeaves(c, WithOther(s, content), id, expected, chunks, idfEnd, idfBoot);
    }
    if !NeverWritten(file) {
      var different := file[..|file| - TRAILER] + [0];
      assert !Untouched(c, WithOther(s, different), id, expected, chunks, idfEnd, idfBoot);
      assert file[..|file| - TRAILER] != different;
    }
  }

  /**
   * What that comes to when a file is installed by its tag: the release key signed it, but it carries
   * another release than the tag. It is refused and not selected, and its image is all that is
   * left of the other slot, whatever that held.
   */
  lemma OtherReleaseStaysInSlot(c: Crypto, s: State, id: nat, release: seq<byte>, image: seq<byte>, version: seq<byte>,
                                chunks: seq<seq<byte>>, idfEnd: bool, idfBoot: bool)
    requires Ready(c, s, id) && SignsSoundly(c) && CmdSign(c, image, version).Signed?
    requires Flatten(chunks) == CmdSign(c, image, version).file
    requires release != [] && !SameRelease(PrintablePrefix(version), Kept(Some(release)))
    ensures var t := Run(c, s, Receive(id, Some(release), chunks, idfEnd, idfBoot));
            t.boot == s.boot && At(t, Other(s)) == Slot(image, At(s, Other(s)).state, None)
  {
    hide Run, Ready, Inv, SignsSoundly, CmdSign, SameRelease, PrintablePrefix, Receive, Verdict, BadMagic, Cut;
    var file := Flatten(chunks);
    SignedFileIsInstalled(c, image, version, chunks, Kept(Some(release)));
    StreamOfChunks(chunks);
    CutOfLong(file);
    InstalledWithoutFaults(c, Cut(file), Kept(Some(release)), idfEnd, idfBoot);
    SignedIsLong(c, image, version);
    ReceptionLeaves(c, s, id, Some(release), chunks, idfEnd, idfBoot);
  }

  lemma InstalledWithoutFaults(c: Crypto, v: View, expected: seq<byte>, idfEnd: bool, idfBoot: bool)
    ensures Verdict(c, v, expected, idfEnd, idfBoot).Installed? ==> Verdict(c, v, expected, true, true).Installed?
  {
  }

  lemma SignedIsLong(c: Crypto, image: seq<byte>, version: seq<byte>)
    requires SignsSoundly(c) && CmdSign(c, image, version).Signed?
    ensures var file := CmdSign(c, image, version).file; |file| > TRAILER && file[0] == MAGIC
  {
  }

  /** The same device with something else in its other slot. */
  function WithOther(s: State, content: seq<byte>): State {
    Overwrite(s, Other(s), content)
  }

  lemma OtherHolds(s: State, content: seq<byte>)
    ensures At(WithOther(s, content), Other(WithOther(s, content))).content == content
  {
  }

  lemma StillReady(c: Crypto, s: State, id: nat, content: seq<byte>)
    requires Ready(c, s, id)
    ensures Ready(c, WithOther(s, content), id)
  {
    hide ReleaseSigned, Held;
    forall i | i in s.receivers ensures ReceiverOk(WithOther(s, content), i, s.receivers[i]) {
      assert ReceiverOk(s, i, s.receivers[i]);
    }
  }

  // ------------------------------------------------------------------------------------
  // A verified install is overwritten before the reboot
  // ------------------------------------------------------------------------------------

  lemma DestroyedIsReady(c: Crypto, s: State, id: nat, other: nat)
    requires Inv(c, s) && id in s.receivers && s.receivers[id].owner && other !in s.receivers
    requires !s.selfTestPending && !Pending(s)
    ensures var t := Step(c, s, Call(id, Destroy));
            Ready(c, t, other) && t == s.(receivers := t.receivers, inProgress := false, holder := None)
  {
    StepKeepsInv(c, s, Call(id, Destroy));
    hide Inv;
  }

  /**
   * The receiver of a successful download is destroyed, and its token given back, before the reboot.
   * For every signed image and everything else that starts like one: after the install a second
   * reception, finished or not, leaves its own bytes in the slot still selected for the next boot.
   */
  lemma SelectedSlotCanBeOverwritten(c: Crypto, image: seq<byte>, version: seq<byte>,
                                     first: seq<byte>, second: seq<byte>, state: ImageState, junk: seq<byte>)
    requires SignsSoundly(c) && CmdSign(c, image, version).Signed? && |image| >= MIN_IMAGE
    requires !NeverWritten(junk)
    ensures var file := CmdSign(c, image, version).file;
            var s := Run(c, Init(first, second, state), Receive(1, None, [file], true, true) + [Call(1, Destroy)]);
            var t := Run(c, s, Start(2, None) + Feeds(2, [junk]));
            && s.boot != s.running && At(s, s.boot) == Slot(image, New, Some(image))
            && t.boot == s.boot && t.running == s.running
            && At(t, t.boot) == Slot(junk[..|junk| - TRAILER], New, None)
  {
    hide Run, Receive, Start, Feeds, CmdSign, SignsSoundly, Accepted;
    var start, file := Init(first, second, state), CmdSign(c, image, version).file;
    var a := Run(c, start, Receive(1, None, [file], true, true));
    OneChunk(file);
    OneChunk(junk);
    SignedIsAccepted(c, image, version);
    ReceptionLeaves(c, start, 1, None, [file], true, true);
    RunKeepsInv(c, start, Receive(1, None, [file], true, true));
    DestroyedIsReady(c, a, 1, 2);
    RunConcat(c, start, Receive(1, None, [file], true, true), [Call(1, Destroy)]);
    RunOne(c, a, Call(1, Destroy));
    hide Step, Ready, Inv;
    FeedingLeaves(c, Step(c, a, Call(1, Destroy)), 2, None, [junk]);
  }

  lemma OneChunk(data: seq<byte>)
    ensures Flatten([data]) == data
  {
    assert Flatten([data]) == data + Flatten([]);
  }

  lemma SignedIsAccepted(c: Crypto, image: seq<byte>, version: seq<byte>)
    requires SignsSoundly(c) && CmdSign(c, image, version).Signed? && |image| >= MIN_IMAGE
    ensures var file := CmdSign(c, image, version).file;
            Accepted(c, file, None, true, true) && |file| >= TRAILER && file[..|file| - TRAILER] == image
  {
    hide Verdict, CmdSign, SignsSoundly, BadMagic, Cut;
    var file := CmdSign(c, image, version).file;
    OneChunk(file);
    StreamOfChunks([file]);
    SignedFileIsInstalled(c, image, version, [file], []);
    CutOfLong(file);
    AcceptedLength(c, Cut(file), [], true, true);
  }

  lemma AcceptedLength(c: Crypto, v: View, expected: seq<byte>, idfEnd: bool, idfBoot: bool)
    requires Verdict(c, v, expected, idfEnd, idfBoot).Installed?
    ensures |v.flash| >= MIN_IMAGE
  {
  }
}
