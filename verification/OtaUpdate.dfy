/** Downloads, the release check and the installs it drives. */
module OtaUpdate {
  import opened Common
  import opened Signer
  import opened Versions
  import opened OtaSink

  /** What the network and ESP-IDF answer during one download. */
  datatype Download = Download(
    reached: bool,            // https URL, Wi-Fi up, redirects followed, HTTP 200, plausible size
    slotFound: bool,
    idfBegin: bool,
    chunks: seq<seq<byte>>,   // what the body delivered before the connection ended
    complete: bool,           // all of it, or the length was unknown
    idfEnd: bool,
    idfBoot: bool)

  /** Reads the body into a started sink and, if all of it arrived, asks for the verdict. */
  method Receive(sink: Sink, c: Crypto, net: Download) returns (outcome: Option<Outcome>, ghost fault: bool)
    requires sink.Valid() && sink.active && sink.Contents() == EMPTY
    modifies sink, sink.tail
    ensures sink.owner == old(sink.owner)
    ensures outcome.Some? <==> net.complete && !fault && !BadMagic(Flatten(net.chunks))
    ensures outcome.Some? ==>
              outcome.value == Verdict(c, AbsorbAll(EMPTY, net.chunks), old(sink.expected), net.idfEnd, net.idfBoot)
  {
    assert Stream(EMPTY) + Flatten(net.chunks) == Flatten(net.chunks);
    var ok, failed := sink.FeedAll(net.chunks);
    fault := !ok && failed;
    if !ok || !net.complete {
      sink.Abort();
      return None, fault;
    }
    StreamOfChunks(net.chunks);
    var verdict := sink.Finish(c, net.idfEnd, net.idfBoot);
    return Some(verdict), fault;
  }

  /** Whether a download comes to a verdict, unless a flash write fails. */
  predicate ComesThrough(selfTestPending: bool, inProgress: bool, net: Download) {
    && net.reached && !selfTestPending && !inProgress && net.slotFound && net.idfBegin
    && net.complete && !BadMagic(Flatten(net.chunks))
  }

  /** `otaFromUrl`: on every way out the writer token is back where it was. */
  method OtaFromUrl(flags: Flags, c: Crypto, net: Download, expected: Option<seq<byte>>)
    returns (outcome: Option<Outcome>, ghost fault: bool)
    modifies flags`inProgress
    ensures flags.inProgress == old(flags.inProgress)
    ensures outcome.Some? <==> ComesThrough(flags.selfTestPending, old(flags.inProgress), net) && !fault
    ensures outcome.Some? ==>
              outcome.value == Verdict(c, AbsorbAll(EMPTY, net.chunks), Kept(expected), net.idfEnd, net.idfBoot)
  {
    outcome, fault := None, false;
    if !net.reached { return; }
    var sink := new Sink();
    var begun := sink.Begin(flags, net.slotFound, net.idfBegin);
    if begun == Started {
      if expected.Some? {
        sink.ExpectVersion(expected.value);
      }
      outcome, fault := Receive(sink, c, net);
    }
    sink.Destroy(flags);
  }

  const TAG_BUFFER: nat := 32

  /** The answer of a release check: the tag without its v, cut to its buffer, and whether it is newer. */
  datatype UpdateInfo = UpdateInfo(checked: bool, newer: bool, latest: seq<byte>)

  /** The tag without its v, as far as it fits the buffer. */
  function LatestOf(tag: Option<seq<byte>>): seq<byte> {
    if tag.None? then [] else DropV(tag.value)[..Min(TAG_BUFFER - 1, |DropV(tag.value)|)]
  }

  method CheckForUpdate(tag: Option<seq<byte>>, assetFound: bool, running: seq<byte>) returns (info: UpdateInfo)
    ensures info.checked <==> tag.Some? && assetFound
    ensures |info.latest| < TAG_BUFFER && info.latest == LatestOf(tag)
    ensures info.newer <==> info.checked && Newer(info.latest, running)
  {
    info := UpdateInfo(false, false, []);
    if tag.Some? {
      var version := if tag.value != [] && IsV(tag.value[0]) then tag.value[1..] else tag.value;
      version := version[..Min(TAG_BUFFER - 1, |version|)];
      info := info.(latest := version);
      if assetFound {
        var newer := IsNewerVersion(version, running);
        info := info.(checked := true, newer := newer);
      }
    }
  }

  /** The expected version is enforced: a tag newer than the running release cannot install an older one. */
  lemma TagDecidesRelease(c: Crypto, chunks: seq<seq<byte>>, latest: seq<byte>, running: seq<byte>, idfEnd: bool, idfBoot: bool)
    requires Newer(latest, running) && |latest| < TAG_BUFFER
    requires Verdict(c, AbsorbAll(EMPTY, chunks), Kept(Some(latest)), idfEnd, idfBoot).Installed?
    ensures var version := Verdict(c, AbsorbAll(EMPTY, chunks), Kept(Some(latest)), idfEnd, idfBoot).version;
            && Newer(version, running) && SameRelease(version, latest)
            && CmdVerify(c, Flatten(chunks)).Verified? && version <= CmdVerify(c, Flatten(chunks)).version
  {
    var v := AbsorbAll(EMPTY, chunks);
    var field, signature := v.tail[..VERSION_FIELD], v.tail[VERSION_FIELD..];
    assert latest[..Min(VERSION_FIELD, |latest|)] == latest;
    assert field + signature == v.tail;
    NewerIsNotEmpty(latest, running);
    StreamOfChunks(chunks);
    Associates(v.flash, field, signature);
    InstalledIsVerified(c, chunks, latest, idfEnd, idfBoot, v.flash, field, signature);
    NewerIsStrictOrder(PrintablePrefix(field), latest, running);
  }

  /** The download comes through, and its stream is one that the board installs as the release it expects. */
  predicate Installs(c: Crypto, selfTestPending: bool, inProgress: bool, net: Download, latest: seq<byte>) {
    && ComesThrough(selfTestPending, inProgress, net)
    && Verdict(c, AbsorbAll(EMPTY, net.chunks), Kept(Some(latest)), net.idfEnd, net.idfBoot).Installed?
  }

  /**
   * `ota upgrade`, and the install step of the automatic update. An install that succeeds
   * carries a signed version strictly newer than the running one.
   */
  method InstallLatest(flags: Flags, c: Crypto, info: UpdateInfo, running: seq<byte>, net: Download)
    returns (installed: Option<seq<byte>>, ghost fault: bool)
    requires info.newer ==> Newer(info.latest, running)
    requires |info.latest| < TAG_BUFFER
    modifies flags`inProgress
    ensures flags.inProgress == old(flags.inProgress)
    ensures installed.Some? <==>
              info.newer && Installs(c, flags.selfTestPending, old(flags.inProgress), net, info.latest) && !fault
    ensures installed.Some? ==> Newer(installed.value, running) && SameRelease(installed.value, info.latest)
    ensures installed.Some? ==>
              CmdVerify(c, Flatten(net.chunks)).Verified? &&
              installed.value <= CmdVerify(c, Flatten(net.chunks)).version
  {
    installed, fault := None, false;
    if !info.newer { return; }
    var outcome;
    outcome, fault := OtaFromUrl(flags, c, net, Some(info.latest));
    if outcome.Some? && outcome.value.Installed? {
      installed := Some(outcome.value.version);
      TagDecidesRelease(c, net.chunks, info.latest, running, net.idfEnd, net.idfBoot);
    }
  }

  /** One reading of the world while the updater waits for the board to be idle. */
  datatype Wait = Wait(sessions: nat, autoOn: bool)

  /** The first moment without a session, with the setting still on at each look before it. */
  predicate IdleAt(waits: seq<Wait>, i: nat) {
    && i < |waits| && waits[i].sessions == 0
    && forall j | 0 <= j < i :: waits[j].sessions > 0 && waits[j].autoOn
  }

  lemma IsIdle(waits: seq<Wait>, i: nat)
    requires i < |waits| && waits[i].sessions == 0 && forall j | 0 <= j < i :: waits[j].sessions > 0 && waits[j].autoOn
    ensures IdleAt(waits, i)
  {
  }

  lemma NeverIdle(waits: seq<Wait>, busy: nat)
    requires busy <= |waits| && forall i | 0 <= i < busy :: waits[i].sessions > 0
    requires busy < |waits| ==> waits[busy].sessions > 0 && !waits[busy].autoOn
    ensures forall i: nat :: !IdleAt(waits, i)
  {
  }

  /**
   * One round of the checker task. An unattended install needs a successful check, a newer
   * release, the setting switched on, and no session at the moment the install starts; each
   * wait for sessions to end re-reads the setting.
   */
  method CheckerRound(flags: Flags, c: Crypto, tag: Option<seq<byte>>, assetFound: bool, autoOn: bool,
                      waits: seq<Wait>, running: seq<byte>, net: Download)
    returns (attempted: bool, installed: Option<seq<byte>>, used: nat, ghost fault: bool)
    modifies flags`inProgress
    ensures flags.inProgress == old(flags.inProgress)
    ensures installed.Some? ==> Newer(installed.value, running)
    ensures used <= |waits|
    ensures attempted ==> IdleAt(waits, used)
    ensures attempted <==>
              autoOn && tag.Some? && assetFound && Newer(LatestOf(tag), running) && exists i: nat :: IdleAt(waits, i)
    ensures installed.Some? <==>
              attempted && Installs(c, flags.selfTestPending, old(flags.inProgress), net, LatestOf(tag)) && !fault
  {
    hide Newer, Installs, LatestOf, SameRelease, IdleAt;
    attempted, installed, used, fault := false, None, 0, false;
    var info := CheckForUpdate(tag, assetFound, running);
    if !info.checked || !info.newer || !autoOn { return; }
    while used < |waits| && waits[used].sessions > 0
      invariant used <= |waits|
      invariant forall i | 0 <= i < used :: waits[i].sessions > 0 && waits[i].autoOn
    {
      if !waits[used].autoOn {
        NeverIdle(waits, used);
        return;
      }
      used := used + 1;
    }
    if used == |waits| {   // still waiting when the history given ends
      NeverIdle(waits, used);
      return;
    }
    attempted := true;
    IsIdle(waits, used);
    installed, fault := InstallLatest(flags, c, info, running, net);
  }

  /** The version looked for is the tag itself, a v before it aside, as far as it fits 31 bytes. */
  lemma LatestIsTheTag(v: byte, version: seq<byte>)
    requires (v == 'v' as int || v == 'V' as int) && (version != [] ==> version[0] != 'v' as int && version[0] != 'V' as int)
    ensures LatestOf(Some([v] + version)) == LatestOf(Some(version)) == version[..Min(31, |version|)]
  {
    assert ([v] + version)[1..] == version;
  }
}
