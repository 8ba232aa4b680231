/** Release versions: "v1.4.0", "1.4.0+ota1", "1.4.0-rc1" all name release 1.4.0. */
module Versions {
  import opened Common

  datatype Release = Release(major: nat, minor: nat, patch: nat)

  predicate IsDigit(c: byte) { 48 <= c <= 57 }
  predicate IsV(c: byte) { c == 118 || c == 86 }
  const DOT: byte := 46

  // ------------------------------------------------------------------------------------
  // The grammar
  // ------------------------------------------------------------------------------------

  /** Length of the longest prefix made of digits. */
  function Digits(text: seq<byte>): (n: nat)
    decreases |text|
    ensures n <= |text|
    ensures forall i | 0 <= i < n :: IsDigit(text[i])
    ensures n < |text| ==> !IsDigit(text[n])
  {
    if text != [] && IsDigit(text[0]) then 1 + Digits(text[1..]) else 0
  }

  /** The decimal number that continues `acc` with a run of digits. */
  function Number(acc: nat, digits: seq<byte>): nat
    requires forall c | c in digits :: IsDigit(c)
    decreases |digits|
  {
    if digits == [] then acc
    else
      assert IsDigit(digits[0]);
      Number(acc * 10 + (digits[0] - 48), digits[1..])
  }

  function Leading(text: seq<byte>): nat {
    Number(0, text[..Digits(text)])
  }

  /** What follows "number." when the number is not empty. */
  function AfterDot(text: seq<byte>): Option<seq<byte>> {
    var n := Digits(text);
    if n > 0 && n < |text| && text[n] == DOT then Some(text[n + 1..]) else None
  }

  /** The number after the first dot, if any, and the one after the second. */
  function Second(t: seq<byte>): nat {
    match AfterDot(t) case None => 0 case Some(u) => Leading(u)
  }

  function Third(t: seq<byte>): nat {
    match AfterDot(t) case None => 0 case Some(u) => Second(u)
  }

  function DropV(text: seq<byte>): seq<byte> {
    if text != [] && IsV(text[0]) then text[1..] else text
  }

  /** major[.minor[.patch]]: a leading v is dropped, missing or empty parts are 0, the rest is ignored. */
  function Parse(text: seq<byte>): Option<Release> {
    var t := DropV(text);
    if Digits(t) == 0 then None else Some(Release(Leading(t), Second(t), Third(t)))
  }

  // ------------------------------------------------------------------------------------
  // The loop of the code
  // ------------------------------------------------------------------------------------

  /** The loop's result from a given point: the parts so far, which one is open, what is left to read. */
  function Scan(r: Release, part: nat, digits: bool, text: seq<byte>): Option<Release>
    decreases |text|
  {
    if text != [] && IsDigit(text[0]) then
      var d := text[0] - 48;
      var r' := if part == 0 then r.(major := r.major * 10 + d)
                else if part == 1 then r.(minor := r.minor * 10 + d)
                else r.(patch := r.patch * 10 + d);
      Scan(r', part, true, text[1..])
    else if text != [] && text[0] == DOT && part < 2 && digits then Scan(r, part + 1, false, text[1..])
    else if part >= 1 || digits then Some(r) else None
  }

  /** A run of digits goes into the open part. */
  lemma {:induction false} ScanDigits(r: Release, part: nat, digits: bool, text: seq<byte>)
    ensures var n := Digits(text);
            Scan(r, part, digits, text) ==
            Scan(if part == 0 then r.(major := Number(r.major, text[..n]))
                 else if part == 1 then r.(minor := Number(r.minor, text[..n]))
                 else r.(patch := Number(r.patch, text[..n])),
                 part, digits || n > 0, text[n..])
    decreases |text|
  {
    var n := Digits(text);
    if n == 0 {
      assert text[n..] == text;
    } else {
      var d := text[0] - 48;
      var r' := if part == 0 then r.(major := r.major * 10 + d)
                else if part == 1 then r.(minor := r.minor * 10 + d)
                else r.(patch := r.patch * 10 + d);
      ScanDigits(r', part, true, text[1..]);
      assert text[1..][..n - 1] == text[..n][1..];
      assert text[1..][n - 1..] == text[n..];
    }
  }

  lemma ScanThird(r: Release, w: seq<byte>)
    requires r.patch == 0
    ensures Scan(r, 2, false, w) == Some(r.(patch := Leading(w)))
  {
    ScanDigits(r, 2, false, w);
  }

  lemma ScanSecond(r: Release, u: seq<byte>)
    requires r.minor == r.patch == 0
    ensures Scan(r, 1, false, u) == Some(r.(minor := Leading(u), patch := Second(u)))
  {
    ScanDigits(r, 1, false, u);
    if AfterDot(u).Some? {
      assert u[Digits(u)..][1..] == AfterDot(u).value;
      ScanThird(r.(minor := Leading(u)), AfterDot(u).value);
    }
  }

  lemma ScanIsParse(text: seq<byte>)
    ensures Scan(Release(0, 0, 0), 0, false, DropV(text)) == Parse(text)
  {
    var t := DropV(text);
    ScanDigits(Release(0, 0, 0), 0, false, t);
    if AfterDot(t).Some? {
      assert t[Digits(t)..][1..] == AfterDot(t).value;
      ScanSecond(Release(Leading(t), 0, 0), AfterDot(t).value);
    }
  }

  /** Every part is a 32-bit `int`. */
  predicate Fits(r: Release) {
    r.major < TWO31 && r.minor < TWO31 && r.patch < TWO31
  }

  /**
   * `parseVersion`. `fits` says whether every value the loop computes stays inside the code's 32-bit
   * `int`, beyond which the code is undefined: exactly when the parts of the result do.
   */
  method ParseVersion(text: seq<byte>) returns (r: Option<Release>, ghost fits: bool)
    ensures r == Parse(text)
    ensures fits <==> (r.Some? ==> Fits(r.value))
  {
    hide Scan, Parse;
    var start := if text != [] && IsV(text[0]) then 1 else 0;
    var out := new nat[3];
    out[0], out[1], out[2] := 0, 0, 0;
    var part, digits, i := 0, false, start;
    fits := true;
    while i < |text|
      invariant start <= i <= |text| && 0 <= part <= 2
      invariant Scan(Release(out[0], out[1], out[2]), part, digits, text[i..]) ==
                Scan(Release(0, 0, 0), 0, false, text[start..])
      invariant fits <==> Fits(Release(out[0], out[1], out[2]))
      invariant part == 0 && !digits ==> out[0] == out[1] == out[2] == 0
    {
      ScanStep(Release(out[0], out[1], out[2]), part, digits, text, i);
      if IsDigit(text[i]) {
        out[part] := out[part] * 10 + (text[i] - 48);
        fits := fits && out[part] < TWO31;
        digits := true;
      } else if text[i] == DOT && part < 2 && digits {
        part := part + 1;
        digits := false;
      } else {
        break;
      }
      i := i + 1;
    }
    ScanEnds(Release(out[0], out[1], out[2]), part, digits, text[i..]);
    ScanIsParse(text);
    assert text[0..] == text;
    r := if part >= 1 || digits then Some(Release(out[0], out[1], out[2])) else None;
  }

  /** One turn of the loop. */
  lemma ScanStep(r: Release, part: nat, digits: bool, text: seq<byte>, i: nat)
    requires i < |text|
    ensures Scan(r, part, digits, text[i..]) ==
              if IsDigit(text[i]) then
                Scan(var d := text[i] - 48;
                     if part == 0 then r.(major := r.major * 10 + d)
                     else if part == 1 then r.(minor := r.minor * 10 + d)
                     else r.(patch := r.patch * 10 + d), part, true, text[i + 1..])
              else if text[i] == DOT && part < 2 && digits then Scan(r, part + 1, false, text[i + 1..])
              else if part >= 1 || digits then Some(r) else None
  {
    assert text[i..][1..] == text[i + 1..];
  }

  lemma ScanEnds(r: Release, part: nat, digits: bool, rest: seq<byte>)
    requires rest == [] || !(IsDigit(rest[0]) || (rest[0] == DOT && part < 2 && digits))
    ensures Scan(r, part, digits, rest) == if part >= 1 || digits then Some(r) else None
  {
  }

  /** Runs of up to nine digits keep every part below 10^9, inside the code's 32-bit `int`. */
  lemma {:induction false} NumberBound(acc: nat, digits: seq<byte>, k: nat)
    requires forall c | c in digits :: IsDigit(c)
    requires acc < Pow10(k)
    ensures Number(acc, digits) < Pow10(k + |digits|)
    decreases |digits|
  {
    if digits != [] {
      assert forall c | c in digits[1..] :: c in digits;
      assert digits[0] in digits;
      NumberBound(acc * 10 + (digits[0] - 48), digits[1..], k + 1);
    }
  }

  function Pow10(n: nat): (p: nat)
    ensures p > 0
  {
    if n == 0 then 1 else 10 * Pow10(n - 1)
  }

  lemma NineDigitsFit(text: seq<byte>)
    requires Digits(text) <= 9
    ensures Leading(text) < 0x8000_0000
  {
    var n := Digits(text);
    NumberBound(0, text[..n], 0);
    assert Pow10(9) == 1_000_000_000;
    Pow10Monotone(n, 9);
  }

  lemma {:induction false} Pow10Monotone(m: nat, n: nat)
    requires m <= n
    ensures Pow10(m) <= Pow10(n)
    decreases n
  {
    if m < n { Pow10Monotone(m, n - 1); }
  }

  // ------------------------------------------------------------------------------------
  // Ordering
  // ------------------------------------------------------------------------------------

  /** Lexicographic order of releases. */
  predicate Below(a: Release, b: Release) {
    a.major < b.major ||
    (a.major == b.major && (a.minor < b.minor || (a.minor == b.minor && a.patch < b.patch)))
  }

  function Part(r: Release, i: nat): nat
    requires i < 3
  {
    if i == 0 then r.major else if i == 1 then r.minor else r.patch
  }

  /** Lifted to texts that may not parse: those are newer than nothing and the same as nothing. */
  predicate Above(a: Option<Release>, b: Option<Release>) {
    a.Some? && b.Some? && Below(b.value, a.value)
  }

  predicate Same(a: Option<Release>, b: Option<Release>) {
    a.Some? && a == b
  }

  predicate Newer(candidate: seq<byte>, current: seq<byte>) {
    Above(Parse(candidate), Parse(current))
  }

  predicate SameRelease(a: seq<byte>, b: seq<byte>) {
    Same(Parse(a), Parse(b))
  }

  method IsNewerVersion(candidate: seq<byte>, current: seq<byte>) returns (newer: bool)
    ensures newer == Newer(candidate, current)
  {
    var a, _ := ParseVersion(candidate);
    var b, _ := ParseVersion(current);
    if a.None? || b.None? { return false; }
    for i := 0 to 3
      invariant forall j | 0 <= j < i :: Part(a.value, j) == Part(b.value, j)
    {
      assert (i >= 1 ==> Part(a.value, 0) == Part(b.value, 0)) && (i >= 2 ==> Part(a.value, 1) == Part(b.value, 1));
      if Part(a.value, i) != Part(b.value, i) {
        return Part(a.value, i) > Part(b.value, i);
      }
    }
    assert Part(a.value, 0) == Part(b.value, 0) && Part(a.value, 1) == Part(b.value, 1) && Part(a.value, 2) == Part(b.value, 2);
    return false;
  }

  method SameReleaseVersion(a: seq<byte>, b: seq<byte>) returns (same: bool)
    ensures same == SameRelease(a, b)
  {
    var va, _ := ParseVersion(a);
    var vb, _ := ParseVersion(b);
    same := va.Some? && vb.Some? &&
            va.value.major == vb.value.major && va.value.minor == vb.value.minor && va.value.patch == vb.value.patch;
  }

  /** Newer is a strict order whose ties, on texts that parse, are exactly SameRelease. */
  lemma NewerIsStrictOrder(a: seq<byte>, b: seq<byte>, c: seq<byte>)
    ensures !Newer(a, a)
    ensures Newer(a, b) ==> !Newer(b, a)
    ensures Newer(a, b) && Newer(b, c) ==> Newer(a, c)
    ensures Parse(a).Some? && Parse(b).Some? ==> (SameRelease(a, b) <==> !Newer(a, b) && !Newer(b, a))
    ensures SameRelease(a, b) ==> SameRelease(b, a)
    ensures SameRelease(a, b) && SameRelease(b, c) ==> SameRelease(a, c)
    ensures SameRelease(a, b) ==> (Newer(a, c) <==> Newer(b, c)) && (Newer(c, a) <==> Newer(c, b))
  {
    AboveIsStrictOrder(Parse(a), Parse(b), Parse(c));
  }

  lemma AboveIsStrictOrder(a: Option<Release>, b: Option<Release>, c: Option<Release>)
    ensures !Above(a, a)
    ensures Above(a, b) ==> !Above(b, a)
    ensures Above(a, b) && Above(b, c) ==> Above(a, c)
    ensures a.Some? && b.Some? ==> (Same(a, b) <==> !Above(a, b) && !Above(b, a))
    ensures Same(a, b) ==> (Above(a, c) <==> Above(b, c)) && (Above(c, a) <==> Above(c, b))
  {
  }

  /** What does not parse is neither newer nor older nor the same as anything. */
  lemma JunkIsNothing(a: seq<byte>, b: seq<byte>)
    requires Parse(a).None?
    ensures !Newer(a, b) && !Newer(b, a) && !SameRelease(a, b) && !SameRelease(b, a)
  {
  }

  /** A release tag that is newer than anything is not the empty string. */
  lemma NewerIsNotEmpty(candidate: seq<byte>, current: seq<byte>)
    requires Newer(candidate, current)
    ensures candidate != []
  {
  }

  // ------------------------------------------------------------------------------------
  // Printed versions
  // ------------------------------------------------------------------------------------

  /** The decimal digits of a number. */
  function Printed(n: nat): (digits: seq<byte>)
    ensures digits != [] && forall c | c in digits :: IsDigit(c)
  {
    (if n < 10 then [] else Printed(n / 10)) + [48 + n % 10]
  }

  lemma {:induction false} NumberAppend(acc: nat, digits: seq<byte>, d: byte)
    requires (forall c | c in digits :: IsDigit(c)) && IsDigit(d)
    ensures (forall c | c in digits + [d] :: IsDigit(c)) && Number(acc, digits + [d]) == Number(acc, digits) * 10 + (d - 48)
    decreases |digits|
  {
    var all := digits + [d];
    if digits == [] {
      assert all == [d] && all[1..] == [];
    } else {
      assert digits[0] in digits && all[0] == digits[0] && all[1..] == digits[1..] + [d];
      assert forall c | c in digits[1..] :: c in digits;
      NumberAppend(acc * 10 + (digits[0] - 48), digits[1..], d);
    }
  }

  lemma {:induction false} NumberOfPrinted(n: nat)
    ensures Number(0, Printed(n)) == n
  {
    var rest: seq<byte> := if n < 10 then [] else Printed(n / 10);
    NumberAppend(0, rest, 48 + n % 10);
    if n >= 10 { NumberOfPrinted(n / 10); }
  }

  lemma {:induction false} DigitsOf(digits: seq<byte>, rest: seq<byte>)
    requires (forall c | c in digits :: IsDigit(c)) && (rest != [] ==> !IsDigit(rest[0]))
    ensures Digits(digits + rest) == |digits|
    decreases |digits|
  {
    if digits == [] {
      assert digits + rest == rest;
    } else {
      assert digits[0] in digits && (digits + rest)[1..] == digits[1..] + rest;
      assert forall c | c in digits[1..] :: c in digits;
      DigitsOf(digits[1..], rest);
    }
  }

  lemma LeadingOfPrinted(n: nat, rest: seq<byte>)
    requires rest != [] ==> !IsDigit(rest[0])
    ensures Digits(Printed(n) + rest) == |Printed(n)| > 0 && Leading(Printed(n) + rest) == n
    ensures AfterDot(Printed(n) + rest) == if rest != [] && rest[0] == DOT then Some(rest[1..]) else None
  {
    hide Printed, Number, Digits;
    DigitsOf(Printed(n), rest);
    NumberOfPrinted(n);
    var text := Printed(n) + rest;
    assert text[..|Printed(n)|] == Printed(n) && text[|Printed(n)|..] == rest;
    if rest != [] { assert text[|Printed(n)|] == rest[0] && text[|Printed(n)| + 1..] == rest[1..]; }
  }

  /** "major.minor.patch". */
  function PrintedRelease(r: Release): seq<byte> {
    Printed(r.major) + ([DOT] + (Printed(r.minor) + ([DOT] + Printed(r.patch))))
  }

  /** "minor.patch" and "patch" before a suffix. */
  lemma PartsAreRead(r: Release, suffix: seq<byte>)
    requires suffix != [] ==> !IsDigit(suffix[0])
    ensures var t := Printed(r.major) + ([DOT] + (Printed(r.minor) + ([DOT] + (Printed(r.patch) + suffix))));
            Digits(t) > 0 && Leading(t) == r.major && Second(t) == r.minor && Third(t) == r.patch
  {
    hide Printed, Leading, Digits, AfterDot;
    var w := Printed(r.patch) + suffix;
    var u := Printed(r.minor) + ([DOT] + w);
    LeadingOfPrinted(r.patch, suffix);
    LeadingOfPrinted(r.minor, [DOT] + w);
    LeadingOfPrinted(r.major, [DOT] + u);
    assert ([DOT] + w)[1..] == w && ([DOT] + u)[1..] == u;
  }

  /** A printed release is read back, with or without a v before it, whatever follows that is no digit. */
  lemma PrintedReleaseIsRead(r: Release, suffix: seq<byte>, v: byte)
    requires (suffix != [] ==> !IsDigit(suffix[0])) && (v == 'v' as int || v == 'V' as int)
    ensures Parse(PrintedRelease(r) + suffix) == Some(r) && Parse([v] + (PrintedRelease(r) + suffix)) == Some(r)
  {
    var t := Printed(r.major) + ([DOT] + (Printed(r.minor) + ([DOT] + (Printed(r.patch) + suffix))));
    SuffixInside(r, suffix);
    PartsAreRead(r, suffix);
    hide *;
    ParsesAs(t, r, v);
  }

  lemma SuffixInside(r: Release, suffix: seq<byte>)
    ensures PrintedRelease(r) + suffix == Printed(r.major) + ([DOT] + (Printed(r.minor) + ([DOT] + (Printed(r.patch) + suffix))))
  {
    hide Printed;
    var u, w := Printed(r.minor) + ([DOT] + Printed(r.patch)), [DOT] + Printed(r.patch);
    Associates(Printed(r.major), [DOT] + u, suffix);
    Associates([DOT], u, suffix);
    Associates(Printed(r.minor), w, suffix);
    Associates([DOT], Printed(r.patch), suffix);
  }

  lemma ParsesAs(t: seq<byte>, r: Release, v: byte)
    requires Digits(t) > 0 && Leading(t) == r.major && Second(t) == r.minor && Third(t) == r.patch && IsV(v)
    ensures Parse(t) == Some(r) && Parse([v] + t) == Some(r)
  {
    hide Leading, Second, Third;
    assert IsDigit(t[0]) && ([v] + t)[1..] == t;
  }

  /** Parts that are not there are 0. */
  lemma MissingPartsAreZero(major: nat, minor: nat, suffix: seq<byte>)
    requires suffix != [] ==> !IsDigit(suffix[0]) && suffix[0] != DOT
    ensures Parse(Printed(major) + suffix) == Some(Release(major, 0, 0))
    ensures Parse(Printed(major) + ([DOT] + (Printed(minor) + suffix))) == Some(Release(major, minor, 0))
  {
    LeadingOfPrinted(major, suffix);
    LeadingOfPrinted(minor, suffix);
    LeadingOfPrinted(major, [DOT] + (Printed(minor) + suffix));
    assert ([DOT] + (Printed(minor) + suffix))[1..] == Printed(minor) + suffix;
    assert Printed(major)[0] in Printed(major);
    hide Printed, Leading, Digits, AfterDot;
  }

  /** And a text is no version exactly if no digit stands first, after a v that may be there. */
  lemma NoVersionExactlyWhen(text: seq<byte>)
    ensures Parse(text).None? <==>
              var t := if text != [] && IsV(text[0]) then text[1..] else text;
              t == [] || !IsDigit(t[0])
  {
  }

  /** Raising one part, those before it unchanged, makes a version newer, whatever happens to those after it. */
  lemma RaisingAPartIsNewer(r: Release, q: Release, i: nat, suffix: seq<byte>, suffix': seq<byte>)
    requires i < 3 && Part(q, i) > Part(r, i) && forall j: nat | j < i :: Part(q, j) == Part(r, j)
    requires (suffix != [] ==> !IsDigit(suffix[0])) && (suffix' != [] ==> !IsDigit(suffix'[0]))
    ensures Newer(PrintedRelease(q) + suffix, PrintedRelease(r) + suffix')
    ensures !Newer(PrintedRelease(r) + suffix', PrintedRelease(q) + suffix)
  {
    PrintedReleaseIsRead(r, suffix', 118);
    PrintedReleaseIsRead(q, suffix, 118);
    assert i > 0 ==> Part(q, 0) == Part(r, 0);
    assert i > 1 ==> Part(q, 1) == Part(r, 1);
    hide Parse, PrintedRelease;
  }
}
