/** SSH wire-format fields (section 5 of RFC 4251) and the structural checks of an uploaded public key. */
module SshWire {
  import opened Common
  import opened CText

  type Bytes = seq<byte>

  // ------------------------------------------------------------------------------------
  // Length-prefixed strings
  // ------------------------------------------------------------------------------------

  /** A 32-bit length, most significant byte first. */
  function U32(n: nat): (b: Bytes)
    requires n < TWO32
    ensures |b| == 4
  {
    [n / 0x100_0000, n / 0x1_0000 % 256, n / 256 % 256, n % 256]
  }

  function Join(a: int, b: int, c: int, d: int): int {
    a * 0x100_0000 + b * 0x1_0000 + c * 256 + d
  }

  function ReadU32(b: Bytes): (n: nat)
    requires |b| >= 4
    ensures n < TWO32
  {
    Join(b[0], b[1], b[2], b[3])
  }

  lemma ReadOfU32(n: nat, rest: Bytes)
    requires n < TWO32
    ensures ReadU32(U32(n) + rest) == n
  {
    DigitsRejoin(n);
  }

  lemma DigitsRejoin(n: nat)
    ensures n / 0x100_0000 * 0x100_0000 + n / 0x1_0000 % 256 * 0x1_0000 + n / 256 % 256 * 256 + n % 256 == n
  {
    var a := n / 256;
    var b := a / 256;
    assert n == a * 256 + n % 256;
    assert a == b * 256 + a % 256;
    assert b == b / 256 * 256 + b % 256;
    assert n / 0x1_0000 == b && n / 0x100_0000 == b / 256;
  }

  lemma DigitsOfJoin(a: int, b: int, c: int, d: int)
    requires 0 <= a < 256 && 0 <= b < 256 && 0 <= c < 256 && 0 <= d < 256
    ensures var n := Join(a, b, c, d);
            n / 0x100_0000 == a && n / 0x1_0000 % 256 == b && n / 256 % 256 == c && n % 256 == d
  {
    var top := a * 256 + b;
    var high := top * 256 + c;
    assert Join(a, b, c, d) == high * 256 + d;
  }

  lemma U32OfRead(b: Bytes)
    requires |b| >= 4
    ensures U32(ReadU32(b)) == b[..4]
  {
    DigitsOfJoin(b[0], b[1], b[2], b[3]);
  }

  predicate Encodable(fields: seq<Bytes>) {
    forall f | f in fields :: |f| < TWO32
  }

  /** The fields one after the other, each behind its length. */
  function Encode(fields: seq<Bytes>): Bytes
    requires Encodable(fields)
    decreases |fields|
  {
    if fields == [] then [] else (U32(|fields[0]|) + fields[0]) + Encode(fields[1..])
  }

  /** The first field, if it is there in full. */
  predicate HasField(data: Bytes) {
    |data| >= 4 && ReadU32(data) <= |data| - 4
  }

  function Decode(data: Bytes): (fields: Option<seq<Bytes>>)
    decreases |data|
  {
    if data == [] then Some([])
    else if !HasField(data) then None
    else
      var n := 4 + ReadU32(data);
      match Decode(data[n..])
      case None => None
      case Some(rest) => Some([data[4..n]] + rest)
  }

  lemma {:induction false} DecodeOfEncode(fields: seq<Bytes>)
    requires Encodable(fields)
    ensures Decode(Encode(fields)) == Some(fields)
    decreases |fields|
  {
    hide U32, ReadU32;
    if fields != [] {
      var f := fields[0];
      var rest := Encode(fields[1..]);
      var data := (U32(|f|) + f) + rest;
      ReadOfU32(|f|, f + rest);
      assert data == U32(|f|) + (f + rest);
      assert data[4 + |f|..] == rest && data[4..4 + |f|] == f;
      DecodeOfEncode(fields[1..]);
      assert fields == [f] + fields[1..];
    }
  }

  lemma {:induction false} EncodeOfDecode(data: Bytes)
    requires Decode(data).Some?
    ensures Encodable(Decode(data).value) && Encode(Decode(data).value) == data
    decreases |data|
  {
    hide U32, ReadU32;
    if data != [] {
      var n := 4 + ReadU32(data);
      var f, rest := data[4..n], Decode(data[n..]).value;
      EncodeOfDecode(data[n..]);
      U32OfRead(data);
      assert ([f] + rest)[1..] == rest;
      assert (U32(|f|) + f) + data[n..] == data by {
        assert data[..4] + data[4..n] == data[..n];
      }
    }
  }

  /** The bytes are one or more fields and nothing else. */
  ghost predicate IsFieldList(data: Bytes) {
    exists fields: seq<Bytes> :: fields != [] && Encodable(fields) && Encode(fields) == data
  }

  /** There is at most one way to cut bytes into fields. */
  lemma DecompositionIsUnique(a: seq<Bytes>, b: seq<Bytes>)
    requires Encodable(a) && Encodable(b) && Encode(a) == Encode(b)
    ensures a == b
  {
    hide Encode, Decode;
    DecodeOfEncode(a);
    DecodeOfEncode(b);
  }

  lemma FieldListsDecode(data: Bytes)
    ensures IsFieldList(data) <==> data != [] && Decode(data).Some?
  {
    hide Decode, Encode;
    if data != [] && Decode(data).Some? {
      EncodeOfDecode(data);
      OnlyNothingDecodesToNothing(data);
    }
    if IsFieldList(data) {
      var fields: seq<Bytes> :| fields != [] && Encodable(fields) && Encode(fields) == data;
      DecodeOfEncode(fields);
      OnlyNothingDecodesToNothing(data);
    }
  }

  lemma OnlyNothingDecodesToNothing(data: Bytes)
    ensures Decode(data) == Some([]) <==> data == []
  {
  }

  lemma DecodeStep(data: Bytes)
    requires data != []
    ensures Decode(data).Some? <==> HasField(data) && Decode(data[4 + ReadU32(data)..]).Some?
  {
  }

  /** `isWellFormedSshWireFields`; the offset never leaves the buffer, so it cannot wrap either. */
  method IsWellFormedSshWireFields(data: Bytes) returns (ok: bool)
    ensures ok <==> IsFieldList(data)
  {
    hide Decode, Encode, ReadU32;
    FieldListsDecode(data);
    var offset, sawField := 0, false;
    assert data[0..] == data;
    while offset < |data|
      invariant offset <= |data| && (sawField <==> offset > 0)
      invariant Decode(data).Some? <==> Decode(data[offset..]).Some?
    {
      DecodeStep(data[offset..]);
      if |data| - offset < 4 { return false; }
      var fieldLength := ReadLength(data, offset);
      offset := offset + 4;
      if fieldLength > |data| - offset { return false; }
      assert data[offset - 4..][4 + fieldLength..] == data[offset + fieldLength..];
      offset := offset + fieldLength;
      sawField := true;
    }
    assert data[offset..] == [];
    OnlyNothingDecodesToNothing(data[offset..]);
    return sawField;
  }

  method ReadLength(data: Bytes, offset: nat) returns (n: nat)
    requires offset + 4 <= |data|
    ensures n == ReadU32(data[offset..])
  {
    n := Join(data[offset], data[offset + 1], data[offset + 2], data[offset + 3]);
  }

  // ------------------------------------------------------------------------------------
  // "type base64 [comment]"
  // ------------------------------------------------------------------------------------

  const TYPE_SIZE: nat := 24
  const KEY_SIZE: nat := 800

  const KEY_TYPES: seq<string> := [
    "ssh-ed25519", "ssh-rsa", "ecdsa-sha2-nistp256", "ecdsa-sha2-nistp384", "ecdsa-sha2-nistp521"]

  datatype PublicKey = PublicKey(keyType: string, base64: string)

  predicate IsBlank(c: char) { c == ' ' || c == '\t' }
  predicate NotBlank(c: char) { !IsBlank(c) }
  predicate InKey(c: char) { !IsBlank(c) && c != '\r' && c != '\n' }

  /** The longest prefix whose characters all have (or all lack) a property. */
  function SpanOf(s: string, p: char -> bool): (n: nat)
    ensures n <= |s|
    ensures forall i | 0 <= i < n :: p(s[i])
    ensures n < |s| ==> !p(s[n])
    decreases |s|
  {
    if s != [] && p(s[0]) then 1 + SpanOf(s[1..], p) else 0
  }

  lemma {:induction false} SpanIs(s: string, p: char -> bool, n: nat)
    requires n <= |s| && (forall i | 0 <= i < n :: p(s[i])) && (n < |s| ==> !p(s[n]))
    ensures SpanOf(s, p) == n
    decreases |s|
  {
    if n > 0 { SpanIs(s[1..], p, n - 1); }
  }

  /** The two words of an upload, if the first is followed by a blank. */
  function Words(text: string): Option<PublicKey> {
    var start := SpanOf(text, IsBlank);
    var typeEnd := start + SpanOf(text[start..], NotBlank);
    if typeEnd == |text| then None
    else
      var at := typeEnd + SpanOf(text[typeEnd..], IsBlank);
      var end := at + SpanOf(text[at..], InKey);
      Some(PublicKey(text[start..typeEnd], text[at..end]))
  }

  /** The characters of a text, by a property of each. */
  predicate AllHave(s: string, p: char -> bool) {
    forall i | 0 <= i < |s| :: p(s[i])
  }

  lemma SpanSplits(text: string, from: nat, p: char -> bool) returns (to: nat)
    requires from <= |text|
    ensures to == from + SpanOf(text[from..], p) <= |text| && AllHave(text[from..to], p) && (to < |text| ==> !p(text[to]))
  {
    to := from + SpanOf(text[from..], p);
    assert forall i | 0 <= i < to - from :: text[from..to][i] == text[from..][i];
  }

  lemma SpanOfPart(text: string, from: nat, to: nat, p: char -> bool)
    requires from <= to <= |text| && AllHave(text[from..to], p) && (to < |text| ==> !p(text[to]))
    ensures SpanOf(text[from..], p) == to - from
  {
    forall i | 0 <= i < to - from ensures p(text[from..][i]) { assert text[from..][i] == text[from..to][i]; }
    SpanIs(text[from..], p, to - from);
  }

  /** Blanks up to a, the type up to b, blanks up to c, the key up to d, and then whatever does not belong to it. */
  predicate IsUpload(text: string, k: PublicKey, a: nat, b: nat, c: nat, d: nat) {
    && a < b < c <= d <= |text| && k == PublicKey(text[a..b], text[c..d])
    && AllHave(text[0..a], IsBlank) && AllHave(text[a..b], NotBlank) && AllHave(text[b..c], IsBlank) && AllHave(text[c..d], InKey)
    && (c < |text| ==> !IsBlank(text[c])) && (d < |text| ==> !InKey(text[d]))
  }

  lemma Holds(text: string, from: nat, to: nat, i: nat, p: char -> bool)
    requires from <= i < to <= |text| && AllHave(text[from..to], p)
    ensures p(text[i])
  {
    assert text[from..to][i - from] == text[i];
  }

  lemma UploadIsCut(text: string, k: PublicKey, a: nat, b: nat, c: nat, d: nat)
    requires IsUpload(text, k, a, b, c, d)
    ensures Words(text) == Some(k)
  {
    hide SpanOf, AllHave, Words, IsBlank, NotBlank, InKey;
    Edges(text, k, a, b, c, d);
    SpanOfPart(text, 0, a, IsBlank);
    SpanOfPart(text, a, b, NotBlank);
    SpanOfPart(text, b, c, IsBlank);
    SpanOfPart(text, c, d, InKey);
    WordsBetween(text, a, b, c, d);
  }

  lemma Edges(text: string, k: PublicKey, a: nat, b: nat, c: nat, d: nat)
    requires IsUpload(text, k, a, b, c, d)
    ensures !IsBlank(text[a]) && !NotBlank(text[b])
  {
    Holds(text, a, b, a, NotBlank);
    Holds(text, b, c, b, IsBlank);
  }

  lemma WordsBetween(text: string, a: nat, b: nat, c: nat, d: nat)
    requires a <= b < |text| && b <= c <= d <= |text|
    requires SpanOf(text[0..], IsBlank) == a && SpanOf(text[a..], NotBlank) == b - a
    requires SpanOf(text[b..], IsBlank) == c - b && SpanOf(text[c..], InKey) == d - c
    ensures Words(text) == Some(PublicKey(text[a..b], text[c..d]))
  {
    hide SpanOf, IsBlank, NotBlank, InKey;
    assert text[0..] == text;
  }

  lemma UploadOf(text: string) returns (a: nat, b: nat, c: nat, d: nat)
    requires Words(text).Some?
    ensures IsUpload(text, Words(text).value, a, b, c, d)
  {
    hide SpanOf, AllHave;
    assert text[0..] == text;
    a := SpanSplits(text, 0, IsBlank);
    b := SpanSplits(text, a, NotBlank);
    c := SpanSplits(text, b, IsBlank);
    d := SpanSplits(text, c, InKey);
  }

  /**
   * A text has its two words exactly if it is blanks, a word, blanks, and a key that ends at a blank, a line
   * end or the end: whatever comment follows, the words are the same.
   */
  lemma WordsExactlyWhen(text: string, k: PublicKey)
    ensures Words(text) == Some(k) <==> exists a: nat, b: nat, c: nat, d: nat :: IsUpload(text, k, a, b, c, d)
  {
    hide Words, IsUpload;
    if Words(text) == Some(k) {
      var a, b, c, d := UploadOf(text);
    }
    if a: nat, b: nat, c: nat, d: nat :| IsUpload(text, k, a, b, c, d) {
      UploadIsCut(text, k, a, b, c, d);
    }
  }

  /** Words end at blanks and tabs, keys also at a line end. */
  lemma UploadCharacters(c: char)
    ensures IsBlank(c) <==> c == ' ' || c == '\t'
    ensures InKey(c) <==> c != ' ' && c != '\t' && c != '\r' && c != '\n'
  {
  }

  lemma KeyTypesAreAscii(t: string)
    requires t in KEY_TYPES
    ensures 0 < |t| < TYPE_SIZE && forall i | 0 <= i < |t| :: t[i] < 128 as char
  {
  }

  predicate Spells(bytes: Bytes, name: string) {
    |bytes| == |name| && forall i | 0 <= i < |name| :: bytes[i] == name[i] as int
  }

  /**
   * What is asked of a key: a known type, base64 that fits and decodes, and a blob that is a list
   * of fields whose first one spells the type.
   */
  ghost predicate NamesItsType(k: PublicKey, blob: Bytes) {
    && k.keyType in KEY_TYPES
    && exists fields: seq<Bytes> ::
         fields != [] && Encodable(fields) && Encode(fields) == blob && Spells(fields[0], k.keyType)
  }

  ghost predicate GoodKey(k: PublicKey, decode: string -> Option<Bytes>, importable: PublicKey -> bool) {
    && 0 < |k.base64| < KEY_SIZE && decode(k.base64).Some?
    && NamesItsType(k, decode(k.base64).value) && importable(k)
  }

  lemma FirstField(fields: seq<Bytes>)
    requires fields != [] && Encodable(fields)
    ensures var blob, n := Encode(fields), |fields[0]|;
            |blob| >= 4 + n && ReadU32(blob) == n && blob[4..4 + n] == fields[0]
  {
    hide U32, ReadU32;
    var f, rest := fields[0], Encode(fields[1..]);
    assert Encode(fields) == U32(|f|) + (f + rest);
    ReadOfU32(|f|, f + rest);
  }

  /** The embedded length and name of a list of fields are its first field. */
  predicate Embeds(blob: Bytes, name: string) {
    |blob| >= 4 + |name| && ReadU32(blob) == |name| && Spells(blob[4..4 + |name|], name)
  }

  lemma FirstFieldIsEmbedded(k: PublicKey, blob: Bytes)
    requires k.keyType in KEY_TYPES
    ensures NamesItsType(k, blob) <==> IsFieldList(blob) && Embeds(blob, k.keyType)
  {
    hide Encode, ReadU32, Spells, Encodable, Embeds;
    if NamesItsType(k, blob) {
      var fields: seq<Bytes> :| fields != [] && Encodable(fields) && Encode(fields) == blob && Spells(fields[0], k.keyType);
      FieldEmbeds(fields, k.keyType);
    }
    if IsFieldList(blob) {
      var fields: seq<Bytes> :| fields != [] && Encodable(fields) && Encode(fields) == blob;
      FieldEmbeds(fields, k.keyType);
    }
  }

  lemma FieldEmbeds(fields: seq<Bytes>, name: string)
    requires fields != [] && Encodable(fields)
    ensures Embeds(Encode(fields), name) <==> Spells(fields[0], name)
  {
    FirstField(fields);
    hide Encode, ReadU32;
  }

  method SkipWhile(text: string, from: nat, p: char -> bool) returns (at: nat)
    requires from <= |text|
    ensures at == from + SpanOf(text[from..], p)
  {
    at := from;
    while at < |text| && p(text[at])
      invariant from <= at <= |text|
      invariant forall i | from <= i < at :: p(text[i])
    {
      at := at + 1;
    }
    SpanIs(text[from..], p, at - from);
  }

  method CutWords(text: string) returns (words: Option<PublicKey>)
    ensures words == Words(text)
  {
    hide SpanOf;
    assert text[0..] == text;
    var start := SkipWhile(text, 0, IsBlank);
    var typeEnd := SkipWhile(text, start, NotBlank);
    if typeEnd == |text| { return None; }
    var at := SkipWhile(text, typeEnd, IsBlank);
    var end := SkipWhile(text, at, InKey);
    return Some(PublicKey(text[start..typeEnd], text[at..end]));
  }

  /** `memcmp`. */
  method SameBytes(bytes: Bytes, name: string) returns (same: bool)
    requires |bytes| == |name|
    ensures same <==> Spells(bytes, name)
  {
    var i := 0;
    while i < |name|
      invariant i <= |name| && forall j | 0 <= j < i :: bytes[j] == name[j] as int
    {
      if bytes[i] != name[i] as int { return false; }
      i := i + 1;
    }
    return true;
  }

  /** The embedded length, the embedded name, and the fields. */
  method CheckBlob(k: PublicKey, blob: Bytes) returns (ok: bool)
    requires k.keyType in KEY_TYPES
    ensures ok <==> NamesItsType(k, blob)
  {
    hide ReadU32, NamesItsType, IsFieldList, Spells;
    FirstFieldIsEmbedded(k, blob);
    var n := |k.keyType|;
    if |blob| < 4 + n { return false; }
    var embedded := ReadLength(blob, 0);
    assert blob[0..] == blob;
    if embedded != n { return false; }
    var same := SameBytes(blob[4..4 + n], k.keyType);
    if !same { return false; }
    ok := IsWellFormedSshWireFields(blob);
  }

  /** `parseSshPublicKey`; `decode` is the base64 decoder with its 640-byte buffer, `importable` libssh's own verdict. */
  method ParseSshPublicKey(text: string, decode: string -> Option<Bytes>, importable: PublicKey -> bool)
    returns (key: Option<PublicKey>)
    ensures match key
            case Some(k) => Words(text) == Some(k) && GoodKey(k, decode, importable)
            case None => Words(text).None? || !GoodKey(Words(text).value, decode, importable)
  {
    hide Words, NamesItsType;
    key := CutWords(text);
    if key.None? { return; }
    var k := key.value;
    if |k.keyType| == 0 || |k.keyType| >= TYPE_SIZE || k.keyType !in KEY_TYPES {
      NamedTypesAreKnown(k, decode);
      return None;
    }
    if |k.base64| == 0 || |k.base64| >= KEY_SIZE { return None; }
    var blob := decode(k.base64);
    if blob.None? { return None; }
    var ok := CheckBlob(k, blob.value);
    if !ok || !importable(k) { return None; }
  }

  lemma NamedTypesAreKnown(k: PublicKey, decode: string -> Option<Bytes>)
    ensures k.keyType in KEY_TYPES ==> 0 < |k.keyType| < TYPE_SIZE
    ensures decode(k.base64).Some? && NamesItsType(k, decode(k.base64).value) ==> k.keyType in KEY_TYPES
  {
    if k.keyType in KEY_TYPES { KeyTypesAreAscii(k.keyType); }
  }

  /**
   * A key is good exactly if it names one of the five types, its base64 fits and decodes to fields of which
   * the first spells that type, and the library can import it.
   */
  lemma GoodKeysAre(k: PublicKey, decode: string -> Option<Bytes>, importable: PublicKey -> bool)
    ensures GoodKey(k, decode, importable) <==>
              && (|| k.keyType == "ssh-ed25519" || k.keyType == "ssh-rsa" || k.keyType == "ecdsa-sha2-nistp256"
                  || k.keyType == "ecdsa-sha2-nistp384" || k.keyType == "ecdsa-sha2-nistp521")
              && 1 <= |k.base64| <= 799 && importable(k)
              && exists fields: seq<Bytes> ::
                   fields != [] && Encodable(fields) && decode(k.base64) == Some(Encode(fields)) && Spells(fields[0], k.keyType)
  {
    hide Encode, Spells, Encodable;
    assert KEY_TYPES[0] == "ssh-ed25519" && KEY_TYPES[1] == "ssh-rsa" && KEY_TYPES[2] == "ecdsa-sha2-nistp256";
    assert KEY_TYPES[3] == "ecdsa-sha2-nistp384" && KEY_TYPES[4] == "ecdsa-sha2-nistp521";
  }
}
