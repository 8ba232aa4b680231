/** The signed image layout and the release tool that writes and checks it. */
module Signer {
  import opened Common

  const VERSION_FIELD: nat := 32
  const SIGNATURE: nat := 64
  const TRAILER: nat := VERSION_FIELD + SIGNATURE
  const MAGIC: byte := 0xE9

  /**
   * SHA-256 and Ed25519 (section 5.1 of RFC 8032) with one fixed key pair. Nothing is
   * assumed of them except what `SignsSoundly` says.
   */
  datatype Crypto = Crypto(sha: seq<byte> -> seq<byte>,
                           sign: seq<byte> -> seq<byte>,
                           verify: (seq<byte>, seq<byte>) -> bool)

  ghost predicate SignsSoundly(c: Crypto) {
    forall digest: seq<byte> :: |c.sign(digest)| == SIGNATURE && c.verify(c.sign(digest), digest)
  }

  datatype SignOutcome = Signed(file: seq<byte>) | NotAnAppImage | VersionTooLong

  datatype VerifyOutcome = Verified(image: seq<byte>, version: seq<byte>) | FileTooShort | InvalidSignature

  /** `bytes.ljust(32, b"\0")`. */
  function Pad(version: seq<byte>): (field: seq<byte>)
    requires |version| <= VERSION_FIELD
    ensures |field| == VERSION_FIELD
  {
    version + seq(VERSION_FIELD - |version|, _ => 0)
  }

  /** `field.split(b"\0", 1)[0]`. */
  function BeforeNul(field: seq<byte>): (text: seq<byte>)
    ensures text <= field && 0 !in text
    ensures |text| < |field| ==> field[|text|] == 0
  {
    if field == [] || field[0] == 0 then [] else [field[0]] + BeforeNul(field[1..])
  }

  function CmdSign(c: Crypto, image: seq<byte>, version: seq<byte>): SignOutcome {
    if image == [] || image[0] != MAGIC then NotAnAppImage
    else if |version| > VERSION_FIELD - 1 then VersionTooLong
    else
      var field := Pad(version);
      Signed(image + field + c.sign(c.sha(image + field)))
  }

  function CmdVerify(c: Crypto, data: seq<byte>): VerifyOutcome {
    if |data| < TRAILER + 1 then FileTooShort
    else
      var image := data[..|data| - TRAILER];
      var field := data[|data| - TRAILER..|data| - SIGNATURE];
      var signature := data[|data| - SIGNATURE..];
      if c.verify(signature, c.sha(image + field)) then Verified(image, BeforeNul(field)) else InvalidSignature
  }

  /** A file of at least a trailer's length splits into image, version field and signature in one way. */
  lemma SplitIsUnique(data: seq<byte>, image: seq<byte>, field: seq<byte>, signature: seq<byte>)
    requires |field| == VERSION_FIELD && |signature| == SIGNATURE && data == image + field + signature
    ensures image == data[..|data| - TRAILER]
    ensures field == data[|data| - TRAILER..|data| - SIGNATURE]
    ensures signature == data[|data| - SIGNATURE..]
  {
  }

  lemma {:induction false} BeforeNulOfPad(version: seq<byte>, zeros: nat)
    requires 0 !in version
    ensures BeforeNul(version + seq(zeros, _ => 0)) == version
  {
    var padded := version + seq(zeros, _ => 0);
    if version != [] {
      assert padded[1..] == version[1..] + seq(zeros, _ => 0);
      BeforeNulOfPad(version[1..], zeros);
    }
  }

  /** What the tool signs, the tool verifies, and it reads the same image and version back. */
  lemma VerifyAfterSign(c: Crypto, image: seq<byte>, version: seq<byte>)
    requires SignsSoundly(c) && CmdSign(c, image, version).Signed? && 0 !in version
    ensures CmdVerify(c, CmdSign(c, image, version).file) == Verified(image, version)
  {
    var field := Pad(version);
    var digest := c.sha(image + field);
    assert |c.sign(digest)| == SIGNATURE;
    SplitIsUnique(CmdSign(c, image, version).file, image, field, c.sign(digest));
    BeforeNulOfPad(version, VERSION_FIELD - |version|);
  }

  /** The tool signs exactly application images, under versions of at most 31 bytes; it rejects the image first. */
  lemma SignsExactlyWhen(c: Crypto, image: seq<byte>, version: seq<byte>)
    ensures CmdSign(c, image, version).Signed? <==> image != [] && image[0] == 0xE9 && |version| <= 31
    ensures CmdSign(c, image, version) == NotAnAppImage <==> image == [] || image[0] != 0xE9
  {
  }

  /** A file verifies exactly if it is a non-empty image with a version field and a signature of their digest. */
  lemma VerifiesExactlyWhen(c: Crypto, data: seq<byte>, image: seq<byte>, field: seq<byte>, signature: seq<byte>)
    requires |field| == 32 && |signature| == 64 && data == image + field + signature
    ensures CmdVerify(c, data) == Verified(image, BeforeNul(field)) <==> image != [] && c.verify(signature, c.sha(image + field))
    ensures CmdVerify(c, data) == FileTooShort <==> image == []
  {
    SplitIsUnique(data, image, field, signature);
  }
}
