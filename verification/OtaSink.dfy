/**
 * The streaming firmware receiver. Chunks of any size go to the inactive flash slot as they
 * arrive, except the last 96 bytes seen so far, which are held back: only the end of the
 * stream decides that they were the trailer.
 */
module OtaSink {
  import opened Common
  import opened Signer
  import opened Versions

  const MIN_IMAGE: nat := 64 * 1024

  // ------------------------------------------------------------------------------------
  // What the receiver means
  // ------------------------------------------------------------------------------------

  /** The bytes written to flash (and hashed) and the bytes held back. */
  datatype View = View(flash: seq<byte>, tail: seq<byte>)

  const EMPTY := View([], [])

  predicate Held(v: View) {
    |v.tail| <= TRAILER && (v.flash != [] ==> |v.tail| == TRAILER && v.flash[0] == MAGIC)
  }

  function Stream(v: View): seq<byte> {
    v.flash + v.tail
  }

  /** The view of a whole stream: everything but its last 96 bytes is in flash. */
  function Cut(all: seq<byte>): (v: View)
    ensures Stream(v) == all
    ensures |v.tail| == Min(TRAILER, |all|)
  {
    var n := if |all| < TRAILER then 0 else |all| - TRAILER;
    assert all[..n] + all[n..] == all;
    View(all[..n], all[n..])
  }

  function Absorb(v: View, data: seq<byte>): View {
    Cut(Stream(v) + data)
  }

  function AbsorbAll(v: View, chunks: seq<seq<byte>>): View
    decreases |chunks|
  {
    if chunks == [] then v else AbsorbAll(Absorb(v, chunks[0]), chunks[1..])
  }

  /** Committing bytes is refused exactly when the first one ever is not the image magic. */
  predicate BadMagic(all: seq<byte>) {
    |all| > TRAILER && all[0] != MAGIC
  }

  /** How a stream is chunked makes no difference. */
  lemma {:induction false} ChunkingIsIrrelevant(v: View, chunks: seq<seq<byte>>)
    requires v == Cut(Stream(v))
    ensures AbsorbAll(v, chunks) == Absorb(v, Flatten(chunks))
    decreases |chunks|
  {
    if chunks == [] {
      assert Stream(v) + [] == Stream(v);
    } else {
      var v', rest := Absorb(v, chunks[0]), Flatten(chunks[1..]);
      ChunkingIsIrrelevant(v', chunks[1..]);
      Associates(Stream(v), chunks[0], rest);
    }
  }

  lemma HeldIsCut(v: View)
    requires Held(v)
    ensures v == Cut(Stream(v))
  {
    assert Stream(v)[..|v.flash|] == v.flash;
    assert Stream(v)[|v.flash|..] == v.tail;
  }

  lemma Absorbed(before: View, data: seq<byte>, after: View)
    requires Held(after) && Stream(after) == Stream(before) + data
    ensures after == Absorb(before, data)
  {
    HeldIsCut(after);
  }

  /** The version text the board reads: up to the first byte that is not printable ASCII. */
  function PrintablePrefix(field: seq<byte>): (text: seq<byte>)
    ensures text <= field
    ensures forall c | c in text :: 0x20 <= c <= 0x7e
    ensures |text| < |field| ==> !(0x20 <= field[|text|] <= 0x7e)
  {
    if field == [] || !(0x20 <= field[0] <= 0x7e) then [] else [field[0]] + PrintablePrefix(field[1..])
  }

  lemma {:induction false} PrintablePrefixIs(field: seq<byte>, n: nat)
    requires n <= |field| && forall i | 0 <= i < n :: 0x20 <= field[i] <= 0x7e
    requires n < |field| ==> !(0x20 <= field[n] <= 0x7e)
    ensures PrintablePrefix(field) == field[..n]
    decreases |field|
  {
    if n > 0 { PrintablePrefixIs(field[1..], n - 1); }
  }

  // The four ways Feed regroups the bytes of one stream.

  lemma PrefixOfWhole<T>(flash: seq<T>, tail: seq<T>, rest: seq<T>)
    ensures flash <= flash + tail + rest
  {
  }

  lemma Moves<T>(flash: seq<T>, tail: seq<T>, rest: seq<T>, n: nat)
    requires n <= |rest|
    ensures flash + tail + rest == flash + (tail + rest[..n]) + rest[n..]
  {
  }

  lemma Splits<T>(flash: seq<T>, tail: seq<T>, rest: seq<T>, n: nat)
    requires 0 < n <= |tail|
    ensures flash + tail + rest == (flash + tail[..n]) + tail[n..] + rest
    ensures flash <= flash + tail + rest
    ensures flash == [] ==> (flash + tail + rest)[0] == tail[0]
  {
  }

  lemma Straight<T>(flash: seq<T>, tail: seq<T>, rest: seq<T>, n: nat)
    requires n <= |rest| && tail == []
    ensures flash + tail + rest == (flash + rest[..n]) + tail + rest[n..]
    ensures flash <= flash + tail + rest
  {
  }

  datatype Outcome =
    | NotStarted
    | TooShort
    | SignatureFailed(version: seq<byte>)
    | WrongRelease(version: seq<byte>)
    | ImageRejected(version: seq<byte>)
    | BootNotSet(version: seq<byte>)
    | Installed(version: seq<byte>, imageBytes: nat)

  /** What `expectVersion` keeps: nothing, or a C string of at most 32 bytes. */
  function Kept(expected: Option<seq<byte>>): seq<byte> {
    if expected.None? then [] else expected.value[..Min(VERSION_FIELD, |expected.value|)]
  }

  /** The decision at the end of the stream; idfEnd and idfBoot are ESP-IDF's own two checks. */
  function Verdict(c: Crypto, v: View, expected: seq<byte>, idfEnd: bool, idfBoot: bool): Outcome {
    if |v.tail| < TRAILER || |v.flash| < MIN_IMAGE then TooShort
    else
      var field, signature := v.tail[..VERSION_FIELD], v.tail[VERSION_FIELD..];
      var version := PrintablePrefix(field);
      if !c.verify(signature, c.sha(v.flash + field)) then SignatureFailed(version)
      else if expected != [] && !SameRelease(version, expected) then WrongRelease(version)
      else if !idfEnd then ImageRejected(version)
      else if !idfBoot then BootNotSet(version)
      else Installed(version, |v.flash|)
  }

  // ------------------------------------------------------------------------------------
  // The receiver
  // ------------------------------------------------------------------------------------

  /** The two process-wide flags that guard a begin. */
  class Flags {
    var inProgress: bool
    var selfTestPending: bool

    constructor ()
      ensures !inProgress && !selfTestPending
    {
      inProgress, selfTestPending := false, false;
    }
  }

  datatype BeginOutcome = Started | SelfTestRunning | AlreadyInProgress | NoInactiveSlot | BeginFailed

  /** The first obstacle a begin meets. */
  function BeginMeets(selfTestPending: bool, inProgress: bool, slotFound: bool, idfBegin: bool): BeginOutcome {
    if selfTestPending then SelfTestRunning
    else if inProgress then AlreadyInProgress
    else if !slotFound then NoInactiveSlot
    else if !idfBegin then BeginFailed
    else Started
  }

  class Sink {
    var owner: bool
    var active: bool
    const tail: array<byte>
    var tailLength: nat
    var imageBytes: nat
    var imageStartChecked: bool
    var received: nat
    var expected: seq<byte>
    var hashed: seq<byte>   // input given to the SHA-256 context so far
    var flash: seq<byte>    // bytes the inactive slot has accepted so far

    ghost predicate Shape()
      reads this
    {
      tail.Length == TRAILER && tailLength <= TRAILER && |expected| <= VERSION_FIELD
    }

    ghost function Contents(): View
      requires Shape()
      reads this, tail
    {
      View(flash, tail[..tailLength])
    }

    ghost predicate Valid()
      reads this, tail
    {
      && Shape()
      && Held(Contents())
      && imageBytes == |flash|
      && hashed == flash
      && (imageStartChecked <==> flash != [])
    }

    constructor ()
      ensures Shape() && !owner && !active && expected == [] && fresh(tail)
    {
      tail := new byte[TRAILER](_ => 0);
      owner, active, imageStartChecked := false, false, false;
      tailLength, imageBytes, received := 0, 0, 0;
      expected, hashed, flash := [], [], [];
    }

    /** The destructor: gives the writer token back if this sink holds it. */
    method Destroy(flags: Flags)
      modifies this`active, flags`inProgress
      ensures !active
      ensures flags.inProgress == (old(flags.inProgress) && !owner)
    {
      Abort();
      if owner {
        flags.inProgress := false;
      }
    }

    method Begin(flags: Flags, slotFound: bool, idfBegin: bool) returns (outcome: BeginOutcome)
      requires Shape()
      modifies this, flags`inProgress
      ensures Shape() && expected == old(expected)
      ensures outcome == BeginMeets(old(flags.selfTestPending), old(flags.inProgress), slotFound, idfBegin)
      ensures outcome == SelfTestRunning || outcome == AlreadyInProgress ==>
                owner == old(owner) && active == old(active) && flags.inProgress == old(flags.inProgress)
      ensures outcome != SelfTestRunning && outcome != AlreadyInProgress ==> owner && flags.inProgress
      ensures outcome == Started ==> active && Valid() && Contents() == EMPTY && received == 0
      ensures outcome == NoInactiveSlot || outcome == BeginFailed ==> active == old(active)
    {
      if flags.selfTestPending { return SelfTestRunning; }
      if flags.inProgress { return AlreadyInProgress; }
      flags.inProgress := true;
      owner := true;
      if !slotFound { return NoInactiveSlot; }
      if !idfBegin { return BeginFailed; }
      active := true;
      hashed, flash := [], [];
      tailLength, imageBytes, received := 0, 0, 0;
      imageStartChecked := false;
      return Started;
    }

    /** `expectVersion`: a C string of at most 32 bytes is kept. */
    method ExpectVersion(version: seq<byte>)
      requires Shape()
      modifies this`expected
      ensures Shape() && expected == version[..Min(VERSION_FIELD, |version|)]
    {
      expected := version[..Min(VERSION_FIELD, |version|)];
    }

    /** Hash and flash a run of image bytes. The flash write may fail at any time. */
    method CommitImageBytes(data: seq<byte>) returns (ok: bool, fault: bool)
      requires hashed == flash && imageBytes == |flash| && (imageStartChecked <==> flash != [])
      modifies this`imageStartChecked, this`hashed, this`flash, this`imageBytes
      ensures ok ==> flash == old(flash) + data && hashed == flash && imageBytes == |flash|
      ensures ok ==> (imageStartChecked <==> flash != [])
      ensures ok && old(flash) == [] && data != [] ==> data[0] == MAGIC
      ensures !ok ==> flash == old(flash)
      ensures !ok && !fault ==> old(flash) == [] && data != [] && data[0] != MAGIC
    {
      if |data| == 0 { assert flash + data == flash; return true, false; }
      if !imageStartChecked {
        if data[0] != MAGIC { return false, false; }
        imageStartChecked := true;
      }
      hashed := hashed + data;
      var written: bool := *;
      if !written { return false, true; }
      flash := flash + data;
      imageBytes := imageBytes + |data|;
      return true, false;
    }

    /** Appends bytes to the held-back tail, which has room for them. */
    method Hold(bytes: seq<byte>)
      requires Shape() && tailLength + |bytes| <= TRAILER
      modifies tail, this`tailLength
      ensures tailLength == old(tailLength) + |bytes|
      ensures tail[..tailLength] == old(tail[..tailLength]) + bytes
    {
      forall i | 0 <= i < |bytes| { tail[tailLength + i] := bytes[i]; }
      tailLength := tailLength + |bytes|;
    }

    /** Commits the first n held-back bytes and moves the others to the front. */
    method Displace(n: nat) returns (ok: bool, fault: bool)
      requires Shape() && 0 < n <= TRAILER && tailLength == TRAILER
      requires hashed == flash && imageBytes == |flash| && (imageStartChecked <==> flash != [])
      modifies tail, this`tailLength, this`imageStartChecked, this`hashed, this`flash, this`imageBytes
      ensures Shape()
      ensures ok ==> hashed == flash && imageBytes == |flash| && (imageStartChecked <==> flash != [])
      ensures ok ==> flash == old(flash) + old(tail[..n]) && tailLength == TRAILER - n &&
                     tail[..tailLength] == old(tail[n..])
      ensures ok && old(flash) == [] ==> old(tail[0]) == MAGIC
      ensures !ok ==> flash == old(flash)
      ensures !ok && !fault ==> old(flash) == [] && old(tail[0]) != MAGIC
    {
      ok, fault := CommitImageBytes(tail[..n]);
      if ok {
        forall i | 0 <= i < TRAILER - n { tail[i] := tail[i + n]; }
        tailLength := TRAILER - n;
      }
    }

    /**
     * Feeds one chunk. On success the view absorbs it; it fails only on a flash fault or when
     * the first image byte is not the magic one, and then what is in flash is still a prefix
     * of the stream.
     */
    method Feed(data: seq<byte>) returns (ok: bool, fault: bool)
      requires Valid()
      modifies this, tail
      ensures Shape() && active == old(active) && owner == old(owner) && expected == old(expected)
      ensures !old(active) ==> !ok && Valid() && Contents() == old(Contents())
      ensures ok ==> Valid() && Contents() == Absorb(old(Contents()), data) && received == old(received) + |data|
      ensures old(active) && !ok && !fault ==> BadMagic(Stream(old(Contents())) + data)
      ensures old(active) && BadMagic(Stream(old(Contents())) + data) ==> !ok
      ensures flash <= Stream(old(Contents())) + data
    {
      hide Absorb, Cut;
      ghost var all := Stream(Contents()) + data;
      if !active {
        PrefixOfWhole(flash, tail[..tailLength], data);
        return false, false;
      }
      received := received + |data|;
      var rest := data;   // the pointer and remaining length of the code
      while |rest| > 0
        invariant Shape() && active && owner == old(owner) && expected == old(expected)
        invariant received == old(received) + |data|
        invariant imageBytes == |flash| && hashed == flash && (imageStartChecked <==> flash != [])
        invariant flash + tail[..tailLength] + rest == all
        invariant flash != [] ==> flash[0] == MAGIC && tailLength + |rest| >= TRAILER
        decreases |rest|, tailLength
      {
        ghost var flash0, tail0 := flash, tail[..tailLength];
        if tailLength < TRAILER {
          var take := Min(|rest|, TRAILER - tailLength);
          Hold(rest[..take]);
          Moves(flash0, tail0, rest, take);
          rest := rest[take..];
          continue;
        }
        // No room: as many held-back bytes as are pushed out turn out to be image bytes.
        var displace := Min(|rest|, TRAILER);
        Splits(flash0, tail0, rest, displace);
        assert tail[..displace] == tail0[..displace] && tail[displace..] == tail0[displace..];
        ok, fault := Displace(displace);
        if !ok { return; }
        // All but the last 96 bytes of a long chunk need not pass through the tail.
        if |rest| > TRAILER {
          var direct := |rest| - TRAILER;
          Straight(flash, tail[..tailLength], rest, direct);
          ok, fault := CommitImageBytes(rest[..direct]);
          if !ok { return; }
          rest := rest[direct..];
        }
      }
      assert flash + tail[..tailLength] == all;
      Absorbed(old(Contents()), data, Contents());
      return true, false;
    }

    /** The receive loop of a download or an upload. */
    method FeedAll(chunks: seq<seq<byte>>) returns (ok: bool, fault: bool)
      requires Valid() && active
      modifies this, tail
      ensures Shape() && active && owner == old(owner) && expected == old(expected)
      ensures ok ==> Valid() && Contents() == Absorb(old(Contents()), Flatten(chunks))
      ensures !ok && !fault ==> BadMagic(Stream(old(Contents())) + Flatten(chunks))
      ensures BadMagic(Stream(old(Contents())) + Flatten(chunks)) ==> !ok
      ensures flash <= Stream(old(Contents())) + Flatten(chunks)
    {
      ghost var all := Stream(Contents()) + Flatten(chunks);
      HeldIsCut(Contents());
      PrefixOfWhole(flash, tail[..tailLength], Flatten(chunks));
      var rest := chunks;
      while rest != []
        invariant Valid() && active && owner == old(owner) && expected == old(expected)
        invariant Stream(Contents()) + Flatten(rest) == all
        invariant flash <= all
        decreases |rest|
      {
        ghost var before := Stream(Contents());
        Associates(before, rest[0], Flatten(rest[1..]));
        ok, fault := Feed(rest[0]);
        assert before + rest[0] <= all;
        if !ok {
          assert BadMagic(before + rest[0]) ==> BadMagic(all);
          return;
        }
        rest := rest[1..];
      }
      assert Stream(Contents()) == all;
      HeldIsCut(Contents());
      return true, false;
    }

    /** The printable version text in the first 32 bytes of the trailer. */
    method ReadVersion(field: seq<byte>) returns (version: seq<byte>)
      ensures version == PrintablePrefix(field)
    {
      hide PrintablePrefix;
      var n := 0;
      while n < |field| && 0x20 <= field[n] <= 0x7e
        invariant n <= |field|
        invariant forall i | 0 <= i < n :: 0x20 <= field[i] <= 0x7e
      {
        n := n + 1;
      }
      PrintablePrefixIs(field, n);
      version := field[..n];
    }

    /** Whatever the verdict, the sink is closed and its flash contents stay as they are. */
    method Finish(c: Crypto, idfEnd: bool, idfBoot: bool) returns (outcome: Outcome)
      requires Valid()
      modifies this`active, this`hashed
      ensures Shape() && !active && Contents() == old(Contents())
      ensures outcome == if old(active) then Verdict(c, old(Contents()), expected, idfEnd, idfBoot) else NotStarted
    {
      if !active { return NotStarted; }
      if tailLength < TRAILER || imageBytes < MIN_IMAGE {
        Abort();
        return TooShort;
      }
      assert tail[..tailLength][..VERSION_FIELD] == tail[..VERSION_FIELD];
      assert tail[..tailLength][VERSION_FIELD..] == tail[VERSION_FIELD..];
      var field := tail[..VERSION_FIELD];
      var signature := tail[VERSION_FIELD..];
      var version := ReadVersion(field);
      hashed := hashed + field;
      var digest := c.sha(hashed);
      if !c.verify(signature, digest) {
        Abort();
        return SignatureFailed(version);
      }
      if expected != [] {
        var same := SameReleaseVersion(version, expected);
        if !same {
          Abort();
          return WrongRelease(version);
        }
      }
      active := false;
      if !idfEnd { return ImageRejected(version); }
      if !idfBoot { return BootNotSet(version); }
      return Installed(version, imageBytes);
    }

    method Abort()
      modifies this`active
      ensures !active
    {
      active := false;
    }
  }

  // ------------------------------------------------------------------------------------
  // Signer and receiver agree
  // ------------------------------------------------------------------------------------

  lemma {:induction false} PrintableOfPad(version: seq<byte>, zeros: nat)
    ensures PrintablePrefix(version + seq(zeros, _ => 0)) == PrintablePrefix(version)
  {
    var padded := version + seq(zeros, _ => 0);
    if version != [] {
      assert padded[1..] == version[1..] + seq(zeros, _ => 0);
      PrintableOfPad(version[1..], zeros);
    }
  }

  lemma {:induction false} PrintableIsWhole(version: seq<byte>)
    ensures PrintablePrefix(version) == version <==> forall c | c in version :: 0x20 <= c <= 0x7e
  {
    if version != [] {
      PrintableIsWhole(version[1..]);
      assert version == [version[0]] + version[1..];
      if forall c | c in version :: 0x20 <= c <= 0x7e {
        assert forall c | c in version[1..] :: c in version;
      }
      assert version[0] in version;
    }
  }

  /** The view of a file in the signed layout. */
  lemma CutOfFile(image: seq<byte>, field: seq<byte>, signature: seq<byte>)
    requires |field| == VERSION_FIELD && |signature| == SIGNATURE
    ensures Cut(image + field + signature) == View(image, field + signature)
    ensures (field + signature)[..VERSION_FIELD] == field && (field + signature)[VERSION_FIELD..] == signature
  {
    var file := image + field + signature;
    assert file[..|file| - TRAILER] == image;
    assert file[|file| - TRAILER..] == field + signature;
  }

  lemma StreamOfChunks(chunks: seq<seq<byte>>)
    ensures AbsorbAll(EMPTY, chunks) == Cut(Flatten(chunks))
  {
    assert Stream(EMPTY) == [];
    ChunkingIsIrrelevant(EMPTY, chunks);
    assert [] + Flatten(chunks) == Flatten(chunks);
  }

  /**
   * Whatever way a signed file is chunked, the board installs it exactly when the image has at
   * least 64 KiB and no other release was expected; then flash holds exactly the image and the
   * version read is the printable part of the signed one.
   */
  lemma SignedFileIsInstalled(c: Crypto, image: seq<byte>, version: seq<byte>, chunks: seq<seq<byte>>, expected: seq<byte>)
    requires SignsSoundly(c) && CmdSign(c, image, version).Signed?
    requires Flatten(chunks) == CmdSign(c, image, version).file
    ensures AbsorbAll(EMPTY, chunks).flash == image
    ensures !BadMagic(Flatten(chunks))
    ensures Verdict(c, AbsorbAll(EMPTY, chunks), expected, true, true).Installed? <==>
              |image| >= MIN_IMAGE && (expected == [] || SameRelease(PrintablePrefix(version), expected))
    ensures Verdict(c, AbsorbAll(EMPTY, chunks), expected, true, true).Installed? ==>
              Verdict(c, AbsorbAll(EMPTY, chunks), expected, true, true) == Installed(PrintablePrefix(version), |image|)
  {
    hide SameRelease, Flatten, AbsorbAll, Cut, PrintablePrefix;
    var field := Pad(version);
    var digest := c.sha(image + field);
    assert |c.sign(digest)| == SIGNATURE && c.verify(c.sign(digest), digest);
    StreamOfChunks(chunks);
    CutOfFile(image, field, c.sign(digest));
    PrintableOfPad(version, VERSION_FIELD - |version|);
    assert Flatten(chunks)[0] == image[0];
  }

  /**
   * Whatever the board installs, the release tool verifies, with the same image; and the image,
   * version field and signature are the only way to split the stream. The two read the same
   * version up to the first unprintable byte.
   */
  lemma InstalledIsVerified(c: Crypto, chunks: seq<seq<byte>>, expected: seq<byte>, idfEnd: bool, idfBoot: bool,
                            image: seq<byte>, field: seq<byte>, signature: seq<byte>)
    requires Verdict(c, AbsorbAll(EMPTY, chunks), expected, idfEnd, idfBoot).Installed?
    requires |field| == VERSION_FIELD && |signature| == SIGNATURE
    ensures Flatten(chunks) == image + field + signature <==>
              image == AbsorbAll(EMPTY, chunks).flash && field + signature == AbsorbAll(EMPTY, chunks).tail
    ensures Flatten(chunks) == image + field + signature ==>
              CmdVerify(c, Flatten(chunks)) == Verified(image, BeforeNul(field)) &&
              Verdict(c, AbsorbAll(EMPTY, chunks), expected, idfEnd, idfBoot) == Installed(PrintablePrefix(field), |image|) &&
              PrintablePrefix(field) <= BeforeNul(field) &&
              (expected != [] ==> SameRelease(PrintablePrefix(field), expected))
  {
    hide SameRelease, Flatten, AbsorbAll, Cut;
    StreamOfChunks(chunks);
    CutOfFile(image, field, signature);
    Associates(image, field, signature);
    if Flatten(chunks) == image + field + signature {
      SplitIsUnique(Flatten(chunks), image, field, signature);
      PrintableBeforeNul(field);
    }
  }

  lemma {:induction false} PrintableBeforeNul(field: seq<byte>)
    ensures PrintablePrefix(field) <= BeforeNul(field)
  {
    if field != [] && field[0] != 0 { PrintableBeforeNul(field[1..]); }
  }

  /**
   * The verdict on any stream that is long enough to hold a trailer, however it is chunked: the first of
   * the checks that fails names it, and an install needs all of them, ESP-IDF's own two included.
   */
  lemma VerdictNamesTheFirstFailure(c: Crypto, chunks: seq<seq<byte>>, expected: seq<byte>, idfEnd: bool, idfBoot: bool,
                                    image: seq<byte>, field: seq<byte>, signature: seq<byte>)
    requires |field| == VERSION_FIELD && |signature| == SIGNATURE && Flatten(chunks) == image + field + signature
    ensures var verdict, version := Verdict(c, AbsorbAll(EMPTY, chunks), expected, idfEnd, idfBoot), PrintablePrefix(field);
            var signed, wanted := c.verify(signature, c.sha(image + field)), expected == [] || SameRelease(version, expected);
            var long := |image| >= 64 * 1024;
            && (verdict == TooShort <==> !long)
            && (verdict == SignatureFailed(version) <==> long && !signed)
            && (verdict == WrongRelease(version) <==> long && signed && !wanted)
            && (verdict == ImageRejected(version) <==> long && signed && wanted && !idfEnd)
            && (verdict == BootNotSet(version) <==> long && signed && wanted && idfEnd && !idfBoot)
            && (verdict == Installed(version, |image|) <==> long && signed && wanted && idfEnd && idfBoot)
  {
    hide SameRelease, Flatten, AbsorbAll, Cut, PrintablePrefix;
    StreamOfChunks(chunks);
    CutOfFile(image, field, signature);
  }

  /** A stream too short for a trailer is too short. */
  lemma ShortStreamsAreTooShort(c: Crypto, chunks: seq<seq<byte>>, expected: seq<byte>, idfEnd: bool, idfBoot: bool)
    requires |Flatten(chunks)| < 96
    ensures Verdict(c, AbsorbAll(EMPTY, chunks), expected, idfEnd, idfBoot) == TooShort
  {
    StreamOfChunks(chunks);
    hide AbsorbAll, Flatten;
  }
}
