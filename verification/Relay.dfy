/**
 * The direct-tcpip relay. What the two sockets do is a script: how many bytes each call takes or
 * gives, when the client's bytes and its EOF arrive, and what the clock says.
 */
module Relay {
  import opened Common

  const BUFFER_SIZE: nat := 8192
  const STALL_MS: nat := 30000
  const IDLE_MS: nat := 600_000

  // ------------------------------------------------------------------------------------
  // Writing a whole chunk
  // ------------------------------------------------------------------------------------

  /** One answer of a socket that was offered bytes, and the time after it. */
  datatype Answer = Answer(outcome: Taken, now: nat)
  datatype Taken = Took(n: nat) | Full | Broken

  /** What `send()` and what `ssh_channel_write()` answer. */
  datatype SendReply = Sent(n: nat) | WouldBlock | SocketError
  datatype WriteReply = ChannelClosed | WriteError | Wrote(n: nat)

  function OfSend(r: SendReply): Taken {
    match r
    case Sent(n) => if n == 0 then Full else Took(n)
    case WouldBlock => Full
    case SocketError => Broken
  }

  function OfWrite(r: WriteReply): Taken {
    match r
    case ChannelClosed => Broken
    case WriteError => Broken
    case Wrote(n) => if n == 0 then Full else Took(n)
  }

  /**
   * How many of `length` bytes get through, `done` of which have already. A script that ends is a
   * stall that reaches the limit.
   */
  function Through(answers: seq<Answer>, length: nat, done: nat, lastProgressMs: nat): (n: nat)
    requires done <= length
    ensures done <= n <= length
    decreases |answers|
  {
    if done == length || answers == [] then done
    else match answers[0].outcome
      case Broken => done
      case Took(n) => Through(answers[1..], length, Min(length, done + n), answers[0].now)
      case Full =>
        if Sub32(answers[0].now, lastProgressMs) > STALL_MS then done
        else Through(answers[1..], length, done, lastProgressMs)
  }

  datatype Timed<T> = Timed(reply: T, now: nat)

  function Sends(replies: seq<Timed<SendReply>>): (answers: seq<Answer>)
    ensures |answers| == |replies|
    ensures forall i | 0 <= i < |replies| :: answers[i] == Answer(OfSend(replies[i].reply), replies[i].now)
  {
    seq(|replies|, i requires 0 <= i < |replies| => Answer(OfSend(replies[i].reply), replies[i].now))
  }

  function Writes(replies: seq<Timed<WriteReply>>): (answers: seq<Answer>)
    ensures |answers| == |replies|
    ensures forall i | 0 <= i < |replies| :: answers[i] == Answer(OfWrite(replies[i].reply), replies[i].now)
  {
    seq(|replies|, i requires 0 <= i < |replies| => Answer(OfWrite(replies[i].reply), replies[i].now))
  }

  lemma ThroughStep(answers: seq<Answer>, i: nat, length: nat, done: nat, last: nat)
    requires i < |answers| && done < length
    ensures Through(answers[i..], length, done, last) ==
              match answers[i].outcome
              case Broken => done
              case Took(n) => Through(answers[i + 1..], length, Min(length, done + n), answers[i].now)
              case Full =>
                if Sub32(answers[i].now, last) > STALL_MS then done else Through(answers[i + 1..], length, done, last)
  {
    assert answers[i..][1..] == answers[i + 1..];
  }

  /** `sendAllToPc`. */
  method SendAllToPc(data: seq<byte>, replies: seq<Timed<SendReply>>, startMs: nat)
    returns (ok: bool, delivered: seq<byte>)
    ensures delivered == data[..Through(Sends(replies), |data|, 0, startMs)]
    ensures ok <==> delivered == data
  {
    hide Through;
    ghost var answers := Sends(replies);
    ghost var target := Through(answers, |data|, 0, startMs);
    var offset: nat, lastProgressMs: nat, i: nat := 0, startMs, 0;
    delivered := [];
    assert answers[0..] == answers;
    while offset < |data| && i < |replies|
      invariant offset <= |data| && i <= |replies| && delivered == data[..offset]
      invariant target == Through(answers[i..], |data|, offset, lastProgressMs)
      decreases |replies| - i
    {
      ThroughStep(answers, i, |data|, offset, lastProgressMs);
      match replies[i].reply {
        case Sent(n) =>
          if n > 0 {
            var written := Min(n, |data| - offset);
            delivered := delivered + data[offset..offset + written];
            offset := offset + written;
            lastProgressMs := replies[i].now;
          } else if Sub32(replies[i].now, lastProgressMs) > STALL_MS {
            return false, delivered;
          }
        case SocketError => return false, delivered;
        case WouldBlock =>
          if Sub32(replies[i].now, lastProgressMs) > STALL_MS { return false, delivered; }
      }
      i := i + 1;
    }
    ThroughEnds(answers[i..], |data|, offset, lastProgressMs);
    ok := offset == |data|;
  }

  /** `writeAllToChannel`. */
  method WriteAllToChannel(data: seq<byte>, replies: seq<Timed<WriteReply>>, startMs: nat)
    returns (ok: bool, delivered: seq<byte>)
    ensures delivered == data[..Through(Writes(replies), |data|, 0, startMs)]
    ensures ok <==> delivered == data
  {
    hide Through;
    ghost var answers := Writes(replies);
    ghost var target := Through(answers, |data|, 0, startMs);
    var offset: nat, lastProgressMs: nat, i: nat := 0, startMs, 0;
    delivered := [];
    assert answers[0..] == answers;
    while offset < |data| && i < |replies|
      invariant offset <= |data| && i <= |replies| && delivered == data[..offset]
      invariant target == Through(answers[i..], |data|, offset, lastProgressMs)
      decreases |replies| - i
    {
      ThroughStep(answers, i, |data|, offset, lastProgressMs);
      match replies[i].reply {
        case ChannelClosed => return false, delivered;
        case WriteError => return false, delivered;
        case Wrote(n) =>
          if n > 0 {
            var written := Min(n, |data| - offset);
            delivered := delivered + data[offset..offset + written];
            offset := offset + written;
            lastProgressMs := replies[i].now;
          } else if Sub32(replies[i].now, lastProgressMs) > STALL_MS {
            return false, delivered;
          }
      }
      i := i + 1;
    }
    ThroughEnds(answers[i..], |data|, offset, lastProgressMs);
    ok := offset == |data|;
  }

  lemma ThroughEnds(answers: seq<Answer>, length: nat, done: nat, last: nat)
    requires done <= length && (done == length || answers == [])
    ensures Through(answers, length, done, last) == done
  {
  }

  function Capacity(answers: seq<Answer>): nat
    decreases |answers|
  {
    if answers == [] then 0
    else (match answers[0].outcome case Took(n) => n case _ => 0) + Capacity(answers[1..])
  }

  /** The socket never breaks, and is never without progress for longer than the limit. */
  predicate Patient(answers: seq<Answer>, lastProgressMs: nat)
    decreases |answers|
  {
    answers == [] ||
    match answers[0].outcome
    case Broken => false
    case Took(n) => n > 0 && Patient(answers[1..], answers[0].now)
    case Full => Sub32(answers[0].now, lastProgressMs) <= 30_000 && Patient(answers[1..], lastProgressMs)
  }

  /** A socket that keeps taking bytes gets them all, however it cuts them up. */
  lemma {:induction false} PartialWritesComplete(answers: seq<Answer>, length: nat, done: nat, last: nat)
    requires done <= length && Patient(answers, last) && done + Capacity(answers) >= length
    ensures Through(answers, length, done, last) == length
    decreases |answers|
  {
    if done < length {
      match answers[0].outcome {
        case Took(n) => PartialWritesComplete(answers[1..], length, Min(length, done + n), answers[0].now);
        case Full => PartialWritesComplete(answers[1..], length, done, last);
      }
    }
  }

  // ------------------------------------------------------------------------------------
  // The relay loop
  // ------------------------------------------------------------------------------------

  datatype Reason =
    | PeerClosed | PollError | Evicted | ClientDisconnected | SelectError | ReadError
    | ToPcFailed | PcClosed | PcSocketError | ToClientFailed | IdleTimeout

  /** Client bytes that reach the session when libssh processes its socket, perhaps with the EOF behind them. */
  datatype Arrival = Arrival(bytes: seq<byte>, eof: bool)

  datatype Select = SelectFailed(badDescriptor: bool) | Interrupted | Ready(ssh: bool, pc: bool)

  datatype Read = ReadFailed(stillOpen: bool) | ReadUpTo(n: nat)

  datatype Recv = PcEof | PcFailed | PcNothing | PcData(bytes: seq<byte>)

  datatype Script<T> = Script(startMs: nat, replies: seq<Timed<T>>)

  /** What the environment does in one turn of the loop. */
  datatype Round = Round(
    isOpen: bool, pollFails: bool, atPoll: Arrival, select: Select, evicted: bool,
    read: Read, atRead: Arrival, toPc: Script<SendReply>,
    recv: Recv, toClient: Script<WriteReply>, now: nat)

  /**
   * The client's side of the channel: what has arrived, what of it is still unread, whether the
   * EOF has come. After its EOF a client sends nothing more (section 5.3 of RFC 4254).
   */
  datatype Channel = Channel(arrived: seq<byte>, unread: seq<byte>, eof: bool)

  function Arrive(ch: Channel, a: Arrival): Channel {
    if ch.eof then ch else Channel(ch.arrived + a.bytes, ch.unread + a.bytes, a.eof)
  }

  /** EOF is reported only once nothing is left to read. */
  predicate AtEof(ch: Channel) { ch.eof && ch.unread == [] }

  datatype State = State(
    channel: Channel, clientDone: bool, lastActivityMs: nat,
    totalToPc: nat, totalToClient: nat,
    fromClient: seq<byte>,   // handed out by the channel reads
    toPc: seq<byte>,         // taken by the PC socket
    finAt: seq<nat>,         // for each half-close, how many bytes went before it
    fromPc: seq<byte>,
    toClient: seq<byte>,
    end: Option<Reason>)

  function Begin(startMs: nat): State {
    State(Channel([], [], false), false, startMs, 0, 0, [], [], [], [], [], None)
  }

  function Stop(s: State, reason: Reason): State { s.(end := Some(reason)) }

  function SelectReason(select: Select): Option<Reason> {
    match select
    case SelectFailed(true) => Some(ClientDisconnected)
    case SelectFailed(false) => Some(SelectError)
    case _ => None
  }

  predicate SshReady(select: Select) { select.Ready? && select.ssh }
  predicate PcReady(select: Select) { select.Ready? && select.pc }

  /** Client to PC: a read when there is something to read or the socket stirred. */
  function ReadClient(s: State, r: Round): State {
    match r.read
    case ReadFailed(stillOpen) => Stop(s, if stillOpen then ReadError else ClientDisconnected)
    case ReadUpTo(n) =>
      var ch := Arrive(s.channel, r.atRead);
      var count := Min(n, Min(BUFFER_SIZE, |ch.unread|));
      var data := ch.unread[..count];
      var read := s.(channel := ch.(unread := ch.unread[count..]), fromClient := s.fromClient + data);
      var through := Through(Sends(r.toPc.replies), count, 0, r.toPc.startMs);
      var sent := read.(toPc := s.toPc + data[..through]);
      if through < count then Stop(sent, ToPcFailed) else sent.(totalToPc := s.totalToPc + count)
  }

  function HalfClose(s: State): State {
    if s.end.None? && !s.clientDone && AtEof(s.channel)
    then s.(clientDone := true, finAt := s.finAt + [|s.toPc|])
    else s
  }

  function ReadPc(s: State, r: Round): State {
    match r.recv
    case PcEof => Stop(s, PcClosed)
    case PcFailed => Stop(s, PcSocketError)
    case PcNothing => s
    case PcData(bytes) =>
      var data := bytes[..Min(BUFFER_SIZE, |bytes|)];
      var read := s.(fromPc := s.fromPc + data);
      var through := Through(Writes(r.toClient.replies), |data|, 0, r.toClient.startMs);
      var sent := read.(toClient := s.toClient + data[..through]);
      if through < |data| then Stop(sent, ToClientFailed) else sent.(totalToClient := s.totalToClient + |data|)
  }

  function Rest(s: State, before: State, now: nat): State {
    if s.end.Some? then s
    else if s.totalToPc + s.totalToClient > before.totalToPc + before.totalToClient then s.(lastActivityMs := now)
    else if Sub32(now, s.lastActivityMs) > IDLE_MS then Stop(s, IdleTimeout)
    else s
  }

  function Polled(s: State, r: Round): State {
    if s.clientDone then s else s.(channel := Arrive(s.channel, r.atPoll))
  }

  function ClientHalf(s: State, r: Round): State {
    if s.clientDone then s
    else HalfClose(if s.channel.unread != [] || SshReady(r.select) then ReadClient(s, r) else s)
  }

  function PcHalf(s: State, r: Round): State {
    if s.end.None? && PcReady(r.select) then ReadPc(s, r) else s
  }

  function Step(s: State, r: Round): State {
    if s.end.Some? then s
    else if !r.isOpen then Stop(s, PeerClosed)
    else if r.pollFails && !s.clientDone then Stop(s, PollError)
    else
      var polled := Polled(s, r);
      if r.evicted then Stop(polled, Evicted)
      else if SelectReason(r.select).Some? then polled.(end := SelectReason(r.select))
      else if s.clientDone && SshReady(r.select) && r.pollFails then Stop(polled, ClientDisconnected)
      else Rest(PcHalf(ClientHalf(polled, r), r), s, r.now)
  }

  function Run(s: State, rounds: seq<Round>): State
    decreases |rounds|
  {
    if rounds == [] then s else Run(Step(s, rounds[0]), rounds[1..])
  }

  // ------------------------------------------------------------------------------------
  // `relayDirectTcpip`, from the first turn of its loop
  // ------------------------------------------------------------------------------------

  method ForwardClient(s: State, r: Round) returns (t: State)
    ensures t == ReadClient(s, r)
  {
    hide Arrive, Through;
    match r.read {
      case ReadFailed(stillOpen) =>
        t := Stop(s, if stillOpen then ReadError else ClientDisconnected);
      case ReadUpTo(n) =>
        var ch := Arrive(s.channel, r.atRead);
        var count := Min(n, Min(BUFFER_SIZE, |ch.unread|));
        var relayToPc := ch.unread[..count];
        t := s.(channel := ch.(unread := ch.unread[count..]), fromClient := s.fromClient + relayToPc);
        if count > 0 {
          var ok, delivered := SendAllToPc(relayToPc, r.toPc.replies, r.toPc.startMs);
          t := t.(toPc := t.toPc + delivered);
          if ok { t := t.(totalToPc := t.totalToPc + count); } else { t := Stop(t, ToPcFailed); }
        } else {
          assert Through(Sends(r.toPc.replies), 0, 0, r.toPc.startMs) == 0;
          assert s.toPc + relayToPc[..0] == s.toPc;
        }
    }
  }

  method ForwardPc(s: State, r: Round) returns (t: State)
    ensures t == ReadPc(s, r)
  {
    hide Through;
    match r.recv {
      case PcEof => t := Stop(s, PcClosed);
      case PcFailed => t := Stop(s, PcSocketError);
      case PcNothing => t := s;
      case PcData(bytes) =>
        var relayToClient := bytes[..Min(BUFFER_SIZE, |bytes|)];
        var ok, delivered := WriteAllToChannel(relayToClient, r.toClient.replies, r.toClient.startMs);
        t := s.(fromPc := s.fromPc + relayToClient, toClient := s.toClient + delivered);
        if ok { t := t.(totalToClient := t.totalToClient + |relayToClient|); } else { t := Stop(t, ToClientFailed); }
    }
  }

  /** One turn of the loop. */
  method Turn(s: State, r: Round) returns (t: State)
    requires s.end.None?
    ensures t == Step(s, r)
  {
    hide ReadClient, ReadPc, Arrive, AtEof;
    if !r.isOpen { return Stop(s, PeerClosed); }
    t := s;
    if !t.clientDone {
      if r.pollFails { return Stop(s, PollError); }
      t := t.(channel := Arrive(t.channel, r.atPoll));
    }
    var pendingFromClient := if t.clientDone then 0 else |t.channel.unread|;
    if r.evicted { return Stop(t, Evicted); }
    var failed := SelectReason(r.select);
    if failed.Some? { return t.(end := failed); }
    if t.clientDone && SshReady(r.select) && r.pollFails { return Stop(t, ClientDisconnected); }
    if !t.clientDone && (pendingFromClient > 0 || SshReady(r.select)) {
      t := ForwardClient(t, r);
      if t.end.Some? { return; }
    }
    if !t.clientDone && AtEof(t.channel) {
      t := t.(clientDone := true, finAt := t.finAt + [|t.toPc|]);
    }
    if PcReady(r.select) {
      t := ForwardPc(t, r);
      if t.end.Some? { return; }
    }
    if t.totalToPc + t.totalToClient > s.totalToPc + s.totalToClient {
      t := t.(lastActivityMs := r.now);
    } else if Sub32(r.now, t.lastActivityMs) > IDLE_MS {
      t := Stop(t, IdleTimeout);
    }
  }

  method RelayDirectTcpip(rounds: seq<Round>, startMs: nat) returns (s: State)
    ensures s == Run(Begin(startMs), rounds)
  {
    hide Run, Step;
    var i := 0;
    s := Begin(startMs);
    assert rounds[0..] == rounds;
    while i < |rounds| && s.end.None?
      invariant i <= |rounds|
      invariant Run(Begin(startMs), rounds) == Run(s, rounds[i..])
    {
      RunStep(s, rounds[i..]);
      assert rounds[i..][1..] == rounds[i + 1..];
      s := Turn(s, rounds[i]);
      i := i + 1;
    }
    RunEnds(s, rounds[i..]);
  }

  lemma RunStep(s: State, rounds: seq<Round>)
    requires rounds != []
    ensures Run(s, rounds) == Run(Step(s, rounds[0]), rounds[1..])
  {
  }

  lemma {:induction false} RunEnds(s: State, rounds: seq<Round>)
    requires s.end.Some? || rounds == []
    ensures Run(s, rounds) == s
    decreases |rounds|
  {
    if rounds != [] { RunEnds(s, rounds[1..]); }
  }

  // ------------------------------------------------------------------------------------
  // Conservation
  // ------------------------------------------------------------------------------------

  /**
   * Nothing is lost, added or reordered. What was read from the client and what is still unread make
   * up what arrived; what the PC took is what was read, unless the write to the PC failed, and then
   * it is a proper prefix; the same towards the client; the totals are the delivered lengths.
   */
  predicate Conserved(s: State) {
    && s.fromClient + s.channel.unread == s.channel.arrived
    && s.toPc <= s.fromClient && (s.toPc == s.fromClient <==> s.end != Some(ToPcFailed))
    && s.toClient <= s.fromPc && (s.toClient == s.fromPc <==> s.end != Some(ToClientFailed))
    && (s.end != Some(ToPcFailed) ==> s.totalToPc == |s.toPc|) && s.totalToPc <= |s.toPc|
    && (s.end != Some(ToClientFailed) ==> s.totalToClient == |s.toClient|) && s.totalToClient <= |s.toClient|
  }

  /** The half-close happens once, after all the client's bytes, as soon as they have been passed on. */
  predicate HalfCloseInOrder(s: State) {
    && s.finAt == (if s.clientDone then [|s.toPc|] else [])
    && (s.clientDone ==> AtEof(s.channel) && s.end != Some(ToPcFailed))
    && (s.end.None? && AtEof(s.channel) ==> s.clientDone)
  }

  lemma ArriveConserves(ch: Channel, a: Arrival, read: seq<byte>)
    requires read + ch.unread == ch.arrived
    ensures read + Arrive(ch, a).unread == Arrive(ch, a).arrived
  {
    assert read + (ch.unread + a.bytes) == (read + ch.unread) + a.bytes;
  }

  lemma ReadClientConserves(s: State, r: Round)
    requires Conserved(s) && s.end.None?
    ensures Conserved(ReadClient(s, r))
  {
    hide Through, Arrive;
    if r.read.ReadUpTo? {
      var ch := Arrive(s.channel, r.atRead);
      ArriveConserves(s.channel, r.atRead, s.fromClient);
      var count := Min(r.read.n, Min(BUFFER_SIZE, |ch.unread|));
      var data := ch.unread[..count];
      assert (s.fromClient + data) + ch.unread[count..] == s.fromClient + ch.unread by {
        assert data + ch.unread[count..] == ch.unread;
      }
      var through := Through(Sends(r.toPc.replies), count, 0, r.toPc.startMs);
      assert data[..through] <= data && (through == count ==> data[..through] == data);
    }
  }

  lemma ReadPcConserves(s: State, r: Round)
    requires Conserved(s) && s.end.None?
    ensures Conserved(ReadPc(s, r))
  {
    hide Through;
    if r.recv.PcData? {
      var data := r.recv.bytes[..Min(BUFFER_SIZE, |r.recv.bytes|)];
      var through := Through(Writes(r.toClient.replies), |data|, 0, r.toClient.startMs);
      assert data[..through] <= data && (through == |data| ==> data[..through] == data);
    }
  }

  lemma StepKeeps(s: State, r: Round)
    requires Conserved(s) && HalfCloseInOrder(s)
    ensures Conserved(Step(s, r)) && HalfCloseInOrder(Step(s, r))
  {
    hide ReadClient, ReadPc, Arrive;
    if s.end.None? {
      var polled := Polled(s, r);
      ArriveConserves(s.channel, r.atPoll, s.fromClient);
      ClientHalfKeeps(polled, r);
      PcHalfKeeps(ClientHalf(polled, r), r);
    }
  }

  /** Before the client half of a turn the EOF may just have been noticed. */
  lemma ClientHalfKeeps(s: State, r: Round)
    requires Conserved(s) && s.end.None?
    requires s.finAt == (if s.clientDone then [|s.toPc|] else []) && (s.clientDone ==> AtEof(s.channel))
    ensures Conserved(ClientHalf(s, r)) && HalfCloseInOrder(ClientHalf(s, r))
  {
    hide ReadClient;
    if !s.clientDone {
      ReadClientConserves(s, r);
      ReadClientOnlyReads(s, r);
    }
  }

  lemma ReadClientOnlyReads(s: State, r: Round)
    ensures var t := ReadClient(s, r);
            t.finAt == s.finAt && t.clientDone == s.clientDone && t.fromPc == s.fromPc && t.toClient == s.toClient
  {
    hide Through, Arrive;
  }

  lemma ReadPcOnlyReads(s: State, r: Round)
    ensures var t := ReadPc(s, r);
            && t.finAt == s.finAt && t.clientDone == s.clientDone && t.channel == s.channel
            && t.fromClient == s.fromClient && t.toPc == s.toPc && t.totalToPc == s.totalToPc
            && (t.end == s.end || (t.end.Some? && t.end != Some(ToPcFailed)))
  {
    hide Through;
  }

  lemma PcHalfKeeps(s: State, r: Round)
    requires Conserved(s) && HalfCloseInOrder(s)
    ensures Conserved(PcHalf(s, r)) && HalfCloseInOrder(PcHalf(s, r))
  {
    hide ReadPc;
    if s.end.None? {
      ReadPcConserves(s, r);
      ReadPcOnlyReads(s, r);
    }
  }

  /** On every run, whatever the sockets do. */
  lemma {:induction false} RunConserves(s: State, rounds: seq<Round>)
    requires Conserved(s) && HalfCloseInOrder(s)
    ensures Conserved(Run(s, rounds)) && HalfCloseInOrder(Run(s, rounds))
    decreases |rounds|
  {
    hide Step, Conserved, HalfCloseInOrder;
    if rounds != [] {
      StepKeeps(s, rounds[0]);
      RunConserves(Step(s, rounds[0]), rounds[1..]);
    }
  }

  lemma RelayConserves(startMs: nat, rounds: seq<Round>)
    ensures var s := Run(Begin(startMs), rounds);
            && Conserved(s)
            && (s.clientDone ==> s.finAt == [|s.channel.arrived|] && s.toPc == s.channel.arrived)
            && (!s.clientDone ==> s.finAt == [])
            && (s.end.None? && AtEof(s.channel) ==> s.clientDone)
  {
    hide Run, Step;
    RunConserves(Begin(startMs), rounds);
  }

  // ------------------------------------------------------------------------------------
  // Both directions go on
  // ------------------------------------------------------------------------------------

  /** What the PC's socket offers, said without any relay state. */
  function PcStream(rounds: seq<Round>): seq<byte>
    decreases |rounds|
  {
    if rounds == [] then []
    else Offered(rounds[0]) + PcStream(rounds[1..])
  }

  function Offered(r: Round): seq<byte> {
    if PcReady(r.select) && r.recv.PcData? then r.recv.bytes[..Min(8192, |r.recv.bytes|)] else []
  }

  lemma StepReadsPc(s: State, r: Round)
    requires Step(s, r).end.None?
    ensures s.end.None? && Step(s, r).fromPc == s.fromPc + Offered(r)
  {
    hide Arrive, Through, ReadClient;
    ReadClientOnlyReads(Polled(s, r), r);
  }

  lemma {:induction false} RunStaysEnded(s: State, rounds: seq<Round>)
    requires Run(s, rounds).end.None?
    ensures s.end.None?
    decreases |rounds|
  {
    hide Step;
    if s.end.Some? { RunEnds(s, rounds); }
  }

  /**
   * A relay that is still running has delivered to the client everything the PC's socket offered,
   * whether or not the client has half-closed in the meantime.
   */
  lemma {:induction false} PcFlowContinues(s: State, rounds: seq<Round>)
    requires Conserved(s) && HalfCloseInOrder(s) && Run(s, rounds).end.None?
    ensures Run(s, rounds).toClient == s.toClient + PcStream(rounds)
    decreases |rounds|
  {
    hide Step, Offered, HalfCloseInOrder;
    RunStaysEnded(s, rounds);
    if rounds == [] {
      assert s.toClient + PcStream(rounds) == s.toClient;
    } else {
      var t := Step(s, rounds[0]);
      RunStaysEnded(t, rounds[1..]);
      StepReadsPc(s, rounds[0]);
      StepKeeps(s, rounds[0]);
      PcFlowContinues(t, rounds[1..]);
      var a, b, c := s.toClient, Offered(rounds[0]), PcStream(rounds[1..]);
      assert (a + b) + c == a + (b + c);
    }
  }

  /** Bytes the session already holds are passed on in the next turn, without waiting for the socket. */
  lemma PendingBytesMove(s: State, r: Round)
    requires Conserved(s) && HalfCloseInOrder(s) && s.channel.unread != []
    requires Step(s, r).end.None? && r.read.ReadUpTo? && r.read.n > 0
    ensures |Step(s, r).toPc| > |s.toPc|
  {
    hide Through, ReadPc;
    ReadPcOnlyReads(ClientHalf(Polled(s, r), r), r);
  }

  /** After the half-close nothing more goes to the PC. */
  lemma NothingAfterHalfClose(s: State, r: Round)
    requires s.clientDone
    ensures Step(s, r).toPc == s.toPc && Step(s, r).finAt == s.finAt && Step(s, r).clientDone
  {
    hide ReadPc;
    ReadPcOnlyReads(s, r);
  }

  /** What the answers of the two sockets mean: bytes taken, no room yet, or the end of the connection. */
  lemma AnswersMean(n: nat)
    ensures n > 0 ==> OfSend(Sent(n)) == Took(n) && OfWrite(Wrote(n)) == Took(n)
    ensures OfSend(Sent(0)) == OfSend(WouldBlock) == OfWrite(Wrote(0)) == Full
    ensures OfSend(SocketError) == OfWrite(ChannelClosed) == OfWrite(WriteError) == Broken
  {
  }

  // ------------------------------------------------------------------------------------
  // When a write gives up
  // ------------------------------------------------------------------------------------

  /** When progress was last made, after these answers. */
  function LastProgress(answers: seq<Answer>, last: nat): nat
    decreases |answers|
  {
    if answers == [] then last
    else LastProgress(answers[1..], if answers[0].outcome.Took? then answers[0].now else last)
  }

  /** The socket breaks, or has made no progress for more than 30 seconds. */
  predicate GivesUp(a: Answer, last: nat) {
    a.outcome.Broken? || (a.outcome.Full? && Sub32(a.now, last) > 30_000)
  }

  /** A write that a patient socket has not completed ends at the first answer to give up on, with what got through. */
  lemma {:induction false} WriteGivesUp(answers: seq<Answer>, bad: Answer, rest: seq<Answer>, length: nat, done: nat, last: nat)
    requires done + Capacity(answers) < length && Patient(answers, last) && GivesUp(bad, LastProgress(answers, last))
    ensures Through(answers + ([bad] + rest), length, done, last) == done + Capacity(answers)
    decreases |answers|
  {
    var all := answers + ([bad] + rest);
    if answers == [] {
      assert all == [bad] + rest;
    } else {
      assert all[0] == answers[0] && all[1..] == answers[1..] + ([bad] + rest);
      match answers[0].outcome {
        case Took(n) => WriteGivesUp(answers[1..], bad, rest, length, done + n, answers[0].now);
        case Full => WriteGivesUp(answers[1..], bad, rest, length, done, last);
      }
    }
  }

  // ------------------------------------------------------------------------------------
  // When a relay ends
  // ------------------------------------------------------------------------------------

  /** The turn comes to its select, and that does not end it. */
  predicate Polls(s: State, r: Round) { r.isOpen && !(r.pollFails && !s.clientDone) }
  predicate Selects(s: State, r: Round) { Polls(s, r) && !r.evicted && !r.select.SelectFailed? }

  /** The turn reads from the client: something is waiting, or the SSH socket stirred. */
  predicate ReadsClient(s: State, r: Round) {
    Selects(s, r) && !s.clientDone && (Polled(s, r).channel.unread != [] || SshReady(r.select))
  }

  /** The turn comes to the PC's socket. */
  predicate ReadsPc(s: State, r: Round) {
    && Selects(s, r) && PcReady(r.select)
    && !(s.clientDone && SshReady(r.select) && r.pollFails)
    && !(ReadsClient(s, r) && (r.read.ReadFailed? || ReadClient(Polled(s, r), r).end.Some?))
  }

  /** Every end has its cause, and every cause its end. */
  predicate EndsFor(s: State, r: Round, t: State) {
    && (t.end == Some(PeerClosed) <==> !r.isOpen)
    && (t.end == Some(PollError) <==> r.isOpen && r.pollFails && !s.clientDone)
    && (t.end == Some(Evicted) <==> Polls(s, r) && r.evicted)
    && (t.end == Some(SelectError) <==> Polls(s, r) && !r.evicted && r.select == SelectFailed(false))
    && (t.end == Some(ClientDisconnected) <==>
          || (Polls(s, r) && !r.evicted && r.select == SelectFailed(true))
          || (Selects(s, r) && s.clientDone && SshReady(r.select) && r.pollFails)
          || (ReadsClient(s, r) && r.read == ReadFailed(false)))
    && (t.end == Some(ReadError) <==> ReadsClient(s, r) && r.read == ReadFailed(true))
    && (t.end == Some(PcClosed) <==> ReadsPc(s, r) && r.recv == PcEof)
    && (t.end == Some(PcSocketError) <==> ReadsPc(s, r) && r.recv == PcFailed)
  }

  /** The turn itself brings nothing that ends the relay. */
  predicate Uneventful(s: State, r: Round) {
    && Selects(s, r) && !(s.clientDone && SshReady(r.select) && r.pollFails)
    && !(ReadsClient(s, r) && r.read.ReadFailed?) && !(ReadsPc(s, r) && (r.recv.PcEof? || r.recv.PcFailed?))
  }

  lemma ReadClientEnds(s: State, r: Round)
    requires s.end.None?
    ensures var end := ReadClient(s, r).end;
            if r.read.ReadFailed? then end == Some(if r.read.stillOpen then ReadError else ClientDisconnected)
            else end.None? || end == Some(ToPcFailed)
  {
    hide Through, Arrive;
  }

  lemma ReadPcEnds(s: State, r: Round)
    requires s.end.None?
    ensures var end := ReadPc(s, r).end;
            if r.recv.PcEof? then end == Some(PcClosed)
            else if r.recv.PcFailed? then end == Some(PcSocketError)
            else end.None? || end == Some(ToClientFailed)
  {
    hide Through;
  }

  lemma RestEnds(s: State, before: State, now: nat)
    ensures var end := Rest(s, before, now).end; end == s.end || (s.end.None? && end == Some(IdleTimeout))
  {
  }

  /** A turn that does not come past its select. */
  lemma EarlyEnds(s: State, r: Round)
    requires s.end.None? && (!Selects(s, r) || (s.clientDone && SshReady(r.select) && r.pollFails))
    ensures EndsFor(s, r, Step(s, r))
  {
    hide ReadClient, ReadPc, Rest, Polled, PcReady;
  }

  lemma ClientHalfEnds(s: State, r: Round)
    requires s.end.None?
    ensures var half := ClientHalf(s, r).end; var active := !s.clientDone && (s.channel.unread != [] || SshReady(r.select));
            half == if active then ReadClient(s, r).end else None
  {
    hide ReadClient, AtEof;
  }

  lemma {:induction false} RunConcat(s: State, a: seq<Round>, b: seq<Round>)
    ensures Run(s, a + b) == Run(Run(s, a), b)
    decreases |a|
  {
    hide Step;
    if a == [] {
      assert a + b == b;
    } else {
      assert (a + b)[1..] == a[1..] + b;
      RunConcat(Step(s, a[0]), a[1..], b);
    }
  }

  lemma RunOneMore(s: State, rounds: seq<Round>)
    requires rounds != []
    ensures Run(s, rounds) == Step(Run(s, rounds[..|rounds| - 1]), rounds[|rounds| - 1])
  {
    hide Step;
    var rest, last := rounds[..|rounds| - 1], rounds[|rounds| - 1];
    RunConcat(s, rest, [last]);
    assert rounds == rest + [last];
    assert Run(Run(s, rest), [last]) == Run(Step(Run(s, rest), last), []);
  }

  function Delivered(s: State): nat { |s.toPc| + |s.toClient| }

  /** The time of the last turn in which bytes got through in either direction, or of the start. */
  function LastMove(startMs: nat, rounds: seq<Round>): nat
    decreases |rounds|
  {
    if rounds == [] then startMs
    else
      var rest, last := rounds[..|rounds| - 1], rounds[|rounds| - 1];
      if Delivered(Run(Begin(startMs), rounds)) > Delivered(Run(Begin(startMs), rest)) then last.now else LastMove(startMs, rest)
  }

  lemma StepKeepsTime(s: State, r: Round)
    requires Conserved(s) && Conserved(Step(s, r)) && Step(s, r).end.None?
    ensures s.end.None?
    ensures Step(s, r).lastActivityMs == if Delivered(Step(s, r)) > Delivered(s) then r.now else s.lastActivityMs
  {
    hide ReadClient, ReadPc, Arrive, AtEof, SshReady, PcReady;
    var half := ClientHalf(Polled(s, r), r);
    ReadClientKeepsTime(Polled(s, r), r);
    ReadPcKeepsTime(half, r);
  }

  lemma ReadClientKeepsTime(s: State, r: Round)
    ensures ReadClient(s, r).lastActivityMs == s.lastActivityMs
  {
    hide Through, Arrive;
  }

  lemma ReadPcKeepsTime(s: State, r: Round)
    ensures ReadPc(s, r).lastActivityMs == s.lastActivityMs
  {
    hide Through;
  }

  lemma {:induction false} RunKeepsTime(startMs: nat, rounds: seq<Round>)
    requires Run(Begin(startMs), rounds).end.None?
    ensures Run(Begin(startMs), rounds).lastActivityMs == LastMove(startMs, rounds)
    decreases |rounds|
  {
    hide Step, Conserved;
    if rounds != [] {
      var rest := rounds[..|rounds| - 1];
      RunOneMore(Begin(startMs), rounds);
      BeginConserves(startMs);
      RunConserves(Begin(startMs), rounds);
      RunConserves(Begin(startMs), rest);
      StepKeepsTime(Run(Begin(startMs), rest), rounds[|rounds| - 1]);
      hide Run, Delivered;
      RunKeepsTime(startMs, rest);
    }
  }

  lemma BeginConserves(startMs: nat)
    ensures Conserved(Begin(startMs)) && HalfCloseInOrder(Begin(startMs))
  {
  }

  /** What a turn past its select has done before it looks at the clock. */
  function Halves(s: State, r: Round): State {
    PcHalf(ClientHalf(Polled(s, r), r), r)
  }

  lemma HalvesGoOn(s: State, r: Round)
    requires s.end.None? && Selects(s, r) && !(s.clientDone && SshReady(r.select) && r.pollFails)
    ensures var end := Halves(s, r).end;
            && (end.None? <==> Uneventful(s, r) && end != Some(ToPcFailed) && end != Some(ToClientFailed))
            && end != Some(IdleTimeout)
  {
    var polled := Polled(s, r);
    var half := ClientHalf(polled, r);
    ReadClientEnds(polled, r);
    ClientHalfEnds(polled, r);
    if half.end.None? { ReadPcEnds(half, r); }
    hide ReadClient, ReadPc, ClientHalf, PcReady, SshReady, Arrive;
  }

  lemma HalvesConserve(s: State, r: Round)
    requires s.end.None? && Conserved(s) && HalfCloseInOrder(s)
    ensures Conserved(Halves(s, r)) && Halves(s, r).lastActivityMs == s.lastActivityMs
  {
    var polled := Polled(s, r);
    ArriveConserves(s.channel, r.atPoll, s.fromClient);
    ClientHalfKeeps(polled, r);
    PcHalfKeeps(ClientHalf(polled, r), r);
    ReadClientKeepsTime(polled, r);
    ReadPcKeepsTime(ClientHalf(polled, r), r);
    hide ReadClient, ReadPc, Arrive, AtEof, SshReady, PcReady;
  }

  /** The clock is looked at only if nothing has ended the turn. */
  lemma RestIdles(p: State, s: State, now: nat)
    requires p.end != Some(IdleTimeout) && Conserved(p) && Conserved(s) && s.end.None? && p.lastActivityMs == s.lastActivityMs
    ensures var t := Rest(p, s, now);
            && t.toPc == p.toPc && t.toClient == p.toClient && t.fromClient == p.fromClient && t.fromPc == p.fromPc
            && (t.end == Some(IdleTimeout) <==>
                  p.end.None? && Delivered(p) <= Delivered(s) && Sub32(now, s.lastActivityMs) > IDLE_MS)
  {
  }

  lemma EarlyIsNotIdle(s: State, r: Round)
    requires s.end.None? && (!Selects(s, r) || (s.clientDone && SshReady(r.select) && r.pollFails))
    ensures Step(s, r).end != Some(IdleTimeout)
  {
    hide ReadClient, ReadPc, Rest, Polled, PcReady, ClientHalf;
  }

  lemma LateStep(s: State, r: Round)
    requires s.end.None? && Selects(s, r) && !(s.clientDone && SshReady(r.select) && r.pollFails)
    ensures Step(s, r) == Rest(Halves(s, r), s, r.now)
  {
    hide Rest, PcHalf, ClientHalf;
  }

  /** A turn that does. */
  lemma LateEnds(s: State, r: Round)
    requires s.end.None? && Selects(s, r) && !(s.clientDone && SshReady(r.select) && r.pollFails)
    ensures EndsFor(s, r, Step(s, r))
  {
    LateStep(s, r);
    HalvesEnd(s, r);
    RestEnds(Halves(s, r), s, r.now);
    hide Step, Halves, Rest, ReadClient, PcReady, SshReady, Polled, ReadsPc, ReadsClient;
  }

  /** The reasons that the two halves of a turn can give. */
  lemma HalvesEnd(s: State, r: Round)
    requires s.end.None? && Selects(s, r) && !(s.clientDone && SshReady(r.select) && r.pollFails)
    ensures var end := Halves(s, r).end;
            && (end == Some(ClientDisconnected) <==> ReadsClient(s, r) && r.read == ReadFailed(false))
            && (end == Some(ReadError) <==> ReadsClient(s, r) && r.read == ReadFailed(true))
            && (end == Some(PcClosed) <==> ReadsPc(s, r) && r.recv == PcEof)
            && (end == Some(PcSocketError) <==> ReadsPc(s, r) && r.recv == PcFailed)
            && (end.None? || end.value.ClientDisconnected? || end.value.ReadError? || end.value.PcClosed?
                || end.value.PcSocketError? || end.value.ToPcFailed? || end.value.ToClientFailed?)
  {
    var polled := Polled(s, r);
    var half := ClientHalf(polled, r);
    ReadClientEnds(polled, r);
    ClientHalfEnds(polled, r);
    if half.end.None? { ReadPcEnds(half, r); }
    hide ReadClient, ReadPc, ClientHalf, PcReady, SshReady, Arrive;
  }

  /** Nothing moved and the turn ends by itself. */
  lemma IdleEnds(s: State, r: Round)
    requires s.end.None? && Conserved(s) && HalfCloseInOrder(s)
    ensures var t := Step(s, r);
            t.end == Some(IdleTimeout) <==>
              && Uneventful(s, r) && Delivered(t) <= Delivered(s) && t.toPc == t.fromClient && t.toClient == t.fromPc
              && Sub32(r.now, s.lastActivityMs) > IDLE_MS
  {
    if Selects(s, r) && !(s.clientDone && SshReady(r.select) && r.pollFails) {
      LateStep(s, r);
      HalvesGoOn(s, r);
      HalvesConserve(s, r);
      RestIdles(Halves(s, r), s, r.now);
      hide Step, Halves, Uneventful, Rest, Selects, SshReady, HalfCloseInOrder, Sub32;
    } else {
      EarlyIsNotIdle(s, r);
      hide Step, Conserved, ReadsPc, ReadsClient;
    }
  }

  /**
   * Why a running relay ends in a turn, for every run before it. Each reason but two is told by what that
   * turn brings; a failed write is one that did not deliver all it had read; and the idle timeout
   * comes exactly in a turn that brings nothing and delivers nothing, more than ten minutes after bytes
   * last got through.
   */
  lemma EveryEndHasItsCause(startMs: nat, rounds: seq<Round>, r: Round)
    requires Run(Begin(startMs), rounds).end.None?
    ensures var s := Run(Begin(startMs), rounds); var t := Step(s, r);
            && EndsFor(s, r, t)
            && (t.end == Some(ToPcFailed) <==> t.toPc != t.fromClient)
            && (t.end == Some(ToClientFailed) <==> t.toClient != t.fromPc)
            && (t.end == Some(IdleTimeout) <==>
                  && Uneventful(s, r) && Delivered(t) <= Delivered(s) && t.toPc == t.fromClient && t.toClient == t.fromPc
                  && Sub32(r.now, LastMove(startMs, rounds)) > 10 * 60 * 1000)
  {
    var s := Run(Begin(startMs), rounds);
    BeginConserves(startMs);
    RunConserves(Begin(startMs), rounds);
    StepKeeps(s, r);
    RunKeepsTime(startMs, rounds);
    hide Run, Step, Uneventful, EndsFor, HalfCloseInOrder, LastMove, Sub32, Delivered;
    if !Selects(s, r) || (s.clientDone && SshReady(r.select) && r.pollFails) { EarlyEnds(s, r); } else { LateEnds(s, r); }
    IdleEnds(s, r);
  }
}
