/** The C string helpers that the parsers use. Strings hold no NUL; the end of the string plays its part. */
module CText {
  import opened Common

  predicate IsSpace(c: char) {
    c == ' ' || '\t' <= c <= '\r'
  }

  predicate IsDigit(c: char) { '0' <= c <= '9' }

  predicate IsAlnum(c: char) {
    IsDigit(c) || 'a' <= c <= 'z' || 'A' <= c <= 'Z'
  }

  function Digit(c: char): (d: nat)
    requires IsDigit(c)
    ensures d < 10
  {
    (c - '0') as nat
  }

  function Lower(c: char): (l: char)
    ensures !('A' <= l <= 'Z')
  {
    if 'A' <= c <= 'Z' then c - 'A' + 'a' else c
  }

  function LowerAll(s: string): (l: string)
    ensures |l| == |s|
    ensures forall i | 0 <= i < |s| :: l[i] == Lower(s[i])
  {
    seq(|s|, i requires 0 <= i < |s| => Lower(s[i]))
  }

  /** `strcasecmp(a, b) == 0`. */
  predicate SameIgnoringCase(a: string, b: string) {
    LowerAll(a) == LowerAll(b)
  }

  // ------------------------------------------------------------------------------------
  // Searching
  // ------------------------------------------------------------------------------------

  /** `strchr` and `memchr`: the first occurrence. */
  function IndexOf(s: string, c: char): (i: Option<nat>)
    ensures i.Some? ==> i.value < |s| && s[i.value] == c && c !in s[..i.value]
    ensures i.None? <==> c !in s
    decreases |s|
  {
    if s == [] then None
    else if s[0] == c then Some(0)
    else
      assert s == [s[0]] + s[1..];
      match IndexOf(s[1..], c)
      case None => None
      case Some(j) =>
        assert s[..j + 1] == [s[0]] + s[1..][..j];
        Some(j + 1)
  }

  /** `strrchr`: the last occurrence. */
  function LastIndexOf(s: string, c: char): (i: Option<nat>)
    ensures i.Some? ==> i.value < |s| && s[i.value] == c && c !in s[i.value + 1..]
    ensures i.None? <==> c !in s
    decreases |s|
  {
    if s == [] then None
    else if s[|s| - 1] == c then Some(|s| - 1)
    else
      assert s == s[..|s| - 1] + [s[|s| - 1]];
      match LastIndexOf(s[..|s| - 1], c)
      case None => None
      case Some(j) =>
        assert s[j + 1..] == s[..|s| - 1][j + 1..] + [s[|s| - 1]];
        Some(j)
  }

  /** The pieces that a cursor visits: it stops at the end, so a final separator adds no empty piece. */
  function Pieces(s: string, c: char): (ps: seq<string>)
    decreases |s|
  {
    if s == [] then []
    else match IndexOf(s, c)
      case None => [s]
      case Some(i) => [s[..i]] + Pieces(s[i + 1..], c)
  }

  lemma PiecesStep(s: string, c: char)
    requires c in s
    ensures Pieces(s, c) == [s[..IndexOf(s, c).value]] + Pieces(s[IndexOf(s, c).value + 1..], c)
  {
  }

  lemma NoPieces(c: char)
    ensures Pieces([], c) == []
  {
  }

  /** The next piece and where the cursor goes after it. */
  method NextPiece(text: string, at: nat, c: char) returns (end: nat, next: nat)
    requires at < |text|
    ensures at <= end <= |text| && at < next <= |text|
    ensures Pieces(text[at..], c) == [text[at..end]] + Pieces(text[next..], c)
  {
    hide Pieces;
    var s := text[at..];
    match IndexOf(s, c) {
      case None =>
        end, next := |text|, |text|;
        OnePiece(s, c);
        NoPieces(c);
        assert text[at..end] == s && text[next..] == [] && [s] + [] == [s];
      case Some(i) =>
        end, next := at + i, at + i + 1;
        PiecesStep(s, c);
        assert s[..i] == text[at..end] && s[i + 1..] == text[next..];
    }
  }

  /** Text that ends in a separator can be cut there. */
  lemma {:induction false} PiecesOfConcat(a: string, b: string, c: char)
    requires a != [] ==> a[|a| - 1] == c
    ensures Pieces(a + b, c) == Pieces(a, c) + Pieces(b, c)
    decreases |a|
  {
    hide IndexOf, Pieces;
    if a == [] {
      assert a + b == b;
      NoPieces(c);
      assert Pieces(a, c) + Pieces(b, c) == Pieces(b, c);
    } else {
      var i := IndexOf(a, c).value;
      FirstStays(a, b, c);
      PiecesStep(a, c);
      PiecesStep(a + b, c);
      var head, p, q := [a[..i]], Pieces(a[i + 1..], c), Pieces(b, c);
      assert (a + b)[..i] == a[..i] && (a + b)[i + 1..] == a[i + 1..] + b;
      PiecesOfConcat(a[i + 1..], b, c);
      assert head + (p + q) == (head + p) + q;
    }
  }

  lemma {:induction false} FirstStays(a: string, b: string, c: char)
    requires c in a
    ensures IndexOf(a + b, c) == IndexOf(a, c)
    decreases |a|
  {
    if a[0] != c {
      assert a == [a[0]] + a[1..];
      assert (a + b)[1..] == a[1..] + b;
      FirstStays(a[1..], b, c);
    }
  }

  lemma {:induction false} FirstSeparator(s: string, c: char)
    requires c !in s
    ensures c in s + [c] && IndexOf(s + [c], c) == Some(|s|)
    decreases |s|
  {
    assert (s + [c])[|s|] == c;
    if s != [] {
      assert (s + [c])[1..] == s[1..] + [c];
      FirstSeparator(s[1..], c);
    }
  }

  lemma OnePiece(s: string, c: char)
    requires c !in s
    ensures Pieces(s + [c], c) == [s]
    ensures s != "" ==> Pieces(s, c) == [s]
  {
    hide IndexOf;
    FirstSeparator(s, c);
    PiecesStep(s + [c], c);
    assert (s + [c])[..|s|] == s && (s + [c])[|s| + 1..] == [];
    NoPieces(c);
  }

  // ------------------------------------------------------------------------------------
  // Trimming
  // ------------------------------------------------------------------------------------

  function TrimLeft(s: string): (t: string)
    ensures |t| <= |s| && t == s[|s| - |t|..]
    ensures t != [] ==> !IsSpace(t[0])
    ensures forall i | 0 <= i < |s| - |t| :: IsSpace(s[i])
    decreases |s|
  {
    if s != [] && IsSpace(s[0]) then TrimLeft(s[1..]) else s
  }

  function TrimRight(s: string): (t: string)
    ensures t <= s
    ensures t != [] ==> !IsSpace(t[|t| - 1])
    ensures forall i | |t| <= i < |s| :: IsSpace(s[i])
    decreases |s|
  {
    if s != [] && IsSpace(s[|s| - 1]) then TrimRight(s[..|s| - 1]) else s
  }

  function Trim(s: string): string {
    TrimRight(TrimLeft(s))
  }

  lemma NothingToTrim(s: string)
    requires s != [] ==> !IsSpace(s[0]) && !IsSpace(s[|s| - 1])
    ensures Trim(s) == s
  {
  }

  /** Text between visible characters loses exactly the spaces around it. */
  lemma TrimPadded(s: string)
    requires s != [] && !IsSpace(s[0]) && !IsSpace(s[|s| - 1])
    ensures Trim(" " + s) == s && Trim(s + " ") == s
  {
    NothingToTrim(s);
    assert (" " + s)[1..] == s;
    assert (s + " ")[..|s|] == s && (s + " ")[0] == s[0];
  }

  /** One step of each trimming loop, on a slice. */
  lemma LeftStep(text: string, b: nat, e: nat)
    requires b <= e <= |text|
    ensures TrimLeft(text[b..e]) == if b < e && IsSpace(text[b]) then TrimLeft(text[b + 1..e]) else text[b..e]
  {
    if b < e { assert text[b..e][1..] == text[b + 1..e]; }
  }

  lemma RightStep(text: string, b: nat, e: nat)
    requires b <= e <= |text|
    ensures TrimRight(text[b..e]) == if b < e && IsSpace(text[e - 1]) then TrimRight(text[b..e - 1]) else text[b..e]
  {
    var s := text[b..e];
    if b < e {
      assert s[|s| - 1] == text[e - 1] && s[..|s| - 1] == text[b..e - 1];
    }
  }

  method SkipLeft(text: string, begin: nat, end: nat) returns (b: nat)
    requires begin <= end <= |text|
    ensures begin <= b <= end && text[b..end] == TrimLeft(text[begin..end])
  {
    hide TrimLeft, IsSpace;
    b := begin;
    LeftStep(text, b, end);
    while b < end && IsSpace(text[b])
      invariant begin <= b <= end
      invariant TrimLeft(text[b..end]) == TrimLeft(text[begin..end])
    {
      LeftStep(text, b, end);
      b := b + 1;
    }
    LeftStep(text, b, end);
  }

  method SkipRight(text: string, begin: nat, end: nat) returns (e: nat)
    requires begin <= end <= |text|
    ensures begin <= e <= end && text[begin..e] == TrimRight(text[begin..end])
  {
    hide TrimRight, IsSpace;
    e := end;
    while e > begin && IsSpace(text[e - 1])
      invariant begin <= e <= end
      invariant TrimRight(text[begin..e]) == TrimRight(text[begin..end])
    {
      RightStep(text, begin, e);
      e := e - 1;
    }
    RightStep(text, begin, e);
  }

  /** `[begin, end)` of `text` without surrounding whitespace. */
  method TrimBounds(text: string, begin: nat, end: nat) returns (b: nat, e: nat)
    requires begin <= end <= |text|
    ensures begin <= b <= e <= end
    ensures text[b..e] == Trim(text[begin..end])
  {
    hide TrimRight, TrimLeft;
    b := SkipLeft(text, begin, end);
    e := SkipRight(text, b, end);
  }

  /** What `copyTrimmed` leaves in a buffer of outSize bytes, or nothing if it does not fit. */
  function Fitted(s: string, outSize: nat): (r: Option<string>)
    ensures r.Some? <==> |Trim(s)| < outSize
    ensures r.Some? ==> r.value == Trim(s)
  {
    if |Trim(s)| >= outSize then None else Some(Trim(s))
  }

  method CopyTrimmed(text: string, begin: nat, end: nat, outSize: nat) returns (r: Option<string>)
    requires begin <= end <= |text|
    ensures r == Fitted(text[begin..end], outSize)
  {
    var b, e := TrimBounds(text, begin, end);
    r := if e - b >= outSize then None else Some(text[b..e]);
  }

  // ------------------------------------------------------------------------------------
  // Numbers
  // ------------------------------------------------------------------------------------

  const LONG_MAX: int := 0x7FFF_FFFF

  function DigitRun(s: string): (n: nat)
    ensures n <= |s|
    ensures forall i | 0 <= i < n :: IsDigit(s[i])
    ensures n < |s| ==> !IsDigit(s[n])
    decreases |s|
  {
    if s != [] && IsDigit(s[0]) then 1 + DigitRun(s[1..]) else 0
  }

  /** The decimal value of a run of digits, after `acc`. */
  function Value(acc: nat, s: string): nat
    requires forall i | 0 <= i < |s| :: IsDigit(s[i])
    decreases |s|
  {
    if s == [] then acc else Value(acc * 10 + Digit(s[0]), s[1..])
  }

  /** `strtol(s, &end, 10)` on a 32-bit long: whitespace, a sign, digits; `None` if there are no digits. */
  datatype Number = Number(value: int, end: nat)

  function StrTol(s: string): Option<Number> {
    var t := TrimLeft(s);
    SignedNumber(t, |s| - |t|)
  }

  /** What is left of the whitespace starts `at` characters into the text. */
  function SignedNumber(t: string, at: nat): Option<Number> {
    if t != "" && (t[0] == '-' || t[0] == '+') then Digits(t[1..], at + 1, t[0] == '-') else Digits(t, at, false)
  }

  function Digits(d: string, at: nat, minus: bool): Option<Number> {
    var n := DigitRun(d);
    if n == 0 then None else Some(Number(Spelled(minus, d[..n]), at + n))
  }

  /** The number that a sign and digits spell, cut off at the ends of a 32-bit long. */
  function Spelled(minus: bool, digits: string): int
    requires AllAreDigits(digits)
  {
    var v: int := if minus then 0 - Value(0, digits) else Value(0, digits);
    if v > LONG_MAX then LONG_MAX else if v < -LONG_MAX - 1 then -LONG_MAX - 1 else v
  }

  predicate AllAreDigits(s: string) {
    forall i | 0 <= i < |s| :: IsDigit(s[i])
  }

  /** A number with nothing after it, within bounds. */
  function BoundedNumber(s: string, minimum: int, maximum: int): (r: Option<int>)
    ensures r.Some? ==> minimum <= r.value <= maximum
  {
    match StrTol(s)
    case None => None
    case Some(n) => if n.end != |s| || n.value < minimum || n.value > maximum then None else Some(n.value)
  }

  /** Plain digits are the number they spell, if that is within the bounds. */
  lemma NumberOfDigits(s: string, minimum: int, maximum: int)
    requires s != [] && (forall i | 0 <= i < |s| :: IsDigit(s[i])) && maximum < LONG_MAX
    ensures BoundedNumber(s, minimum, maximum) ==
              if minimum <= Value(0, s) <= maximum then Some(Value(0, s)) else None
  {
    hide Value;
    AllDigits(s);
    assert !IsSpace(s[0]) && s[..|s|] == s;
  }

  lemma {:induction false} AllDigits(s: string)
    requires forall i | 0 <= i < |s| :: IsDigit(s[i])
    ensures DigitRun(s) == |s|
    decreases |s|
  {
    if s != [] { AllDigits(s[1..]); }
  }

  // ------------------------------------------------------------------------------------
  // What these functions are, by the characters
  // ------------------------------------------------------------------------------------

  predicate Spaces(s: string) {
    forall i | 0 <= i < |s| :: IsSpace(s[i])
  }

  /** No whitespace at either end. */
  predicate Bare(s: string) {
    s != "" ==> !IsSpace(s[0]) && !IsSpace(s[|s| - 1])
  }

  /** `isspace` in the C locale: blank, tab, line feed, vertical tab, form feed, carriage return. */
  lemma SpaceCharacters(c: char)
    ensures IsSpace(c) <==> c == ' ' || c == '\t' || c == '\n' || c == 11 as char || c == 12 as char || c == '\r'
  {
  }

  lemma {:induction false} TrimLeftOf(pad: string, t: string)
    requires Spaces(pad) && (t != "" ==> !IsSpace(t[0]))
    ensures TrimLeft(pad + t) == t
    decreases |pad|
  {
    if pad == "" {
      assert pad + t == t;
    } else {
      assert (pad + t)[1..] == pad[1..] + t;
      TrimLeftOf(pad[1..], t);
    }
  }

  lemma {:induction false} TrimRightOf(t: string, pad: string)
    requires Spaces(pad) && (t != "" ==> !IsSpace(t[|t| - 1]))
    ensures TrimRight(t + pad) == t
    decreases |pad|
  {
    if pad == "" {
      assert t + pad == t;
    } else {
      assert (t + pad)[..|t + pad| - 1] == t + pad[..|pad| - 1];
      TrimRightOf(t, pad[..|pad| - 1]);
    }
  }

  /** Trimming takes away the whitespace around a text, all of it and nothing else. */
  lemma TrimExactlyWhen(s: string, t: string)
    ensures Trim(s) == t <==> Bare(t) && exists a: string, b: string :: Spaces(a) && Spaces(b) && s == a + (t + b)
  {
    TrimSplits(s);
    hide TrimLeft, TrimRight, Trim, IsSpace;
    if a: string, b: string :| Bare(t) && Spaces(a) && Spaces(b) && s == a + (t + b) {
      TrimOf(a, t, b);
    }
  }

  lemma LeftSplits(s: string) returns (a: string)
    ensures Spaces(a) && s == a + TrimLeft(s)
  {
    hide IsSpace, TrimLeft;
    a := s[..|s| - |TrimLeft(s)|];
  }

  lemma RightSplits(s: string) returns (b: string)
    ensures Spaces(b) && s == TrimRight(s) + b
  {
    hide IsSpace, TrimRight;
    b := s[|TrimRight(s)|..];
  }

  lemma TrimSplits(s: string)
    ensures Bare(Trim(s)) && exists a: string, b: string :: Spaces(a) && Spaces(b) && s == a + (Trim(s) + b)
  {
    var a := LeftSplits(s);
    var b := RightSplits(TrimLeft(s));
    hide TrimLeft, TrimRight, Spaces, IsSpace;
    assert s == a + (Trim(s) + b);
  }

  lemma TrimOf(a: string, t: string, b: string)
    requires Bare(t) && Spaces(a) && Spaces(b)
    ensures Trim(a + (t + b)) == t
  {
    if t == "" {
      assert a + (t + b) == (a + b) + "" && Spaces(a + b);
      TrimLeftOf(a + b, "");
    } else {
      TrimLeftOf(a, t + b);
      TrimRightOf(t, b);
    }
  }

  predicate IsSign(sign: string) { sign == "" || sign == "-" || sign == "+" }

  lemma {:induction false} RunOfDigits(digits: string, rest: string)
    requires AllAreDigits(digits) && (rest != "" ==> !IsDigit(rest[0]))
    ensures DigitRun(digits + rest) == |digits|
    decreases |digits|
  {
    if digits == "" {
      assert digits + rest == rest;
    } else {
      assert (digits + rest)[1..] == digits[1..] + rest;
      RunOfDigits(digits[1..], rest);
    }
  }

  lemma SignedReads(sign: string, digits: string, at: nat)
    requires IsSign(sign) && digits != "" && AllAreDigits(digits)
    ensures SignedNumber(sign + digits, at) == Some(Number(Spelled(sign == "-", digits), at + |sign| + |digits|))
  {
    hide Value;
    var t := sign + digits;
    RunOfDigits(digits, "");
    assert digits + "" == digits && digits[..|digits|] == digits;
    if sign == "" { assert t == digits && IsDigit(t[0]); } else { assert t[0] == sign[0] && t[1..] == digits; }
  }

  /** `strtol` on whitespace, a sign and digits. */
  lemma StrTolReads(pad: string, sign: string, digits: string)
    requires Spaces(pad) && IsSign(sign) && digits != "" && AllAreDigits(digits)
    ensures StrTol(pad + (sign + digits)) == Some(Number(Spelled(sign == "-", digits), |pad| + |sign| + |digits|))
  {
    hide TrimLeft, SignedNumber, Spelled, Spaces;
    StartsBare(sign, digits);
    hide *;
    SignedReads(sign, digits, |pad|);
    TrimLeftOf(pad, sign + digits);
    StrTolTrims(pad + (sign + digits));
  }

  lemma StrTolTrims(s: string)
    ensures StrTol(s) == SignedNumber(TrimLeft(s), |s| - |TrimLeft(s)|)
  {
  }

  lemma StartsBare(sign: string, digits: string)
    requires IsSign(sign) && digits != "" && AllAreDigits(digits)
    ensures !IsSpace((sign + digits)[0])
  {
    assert (sign + digits)[0] == (if sign == "" then digits[0] else sign[0]) && IsDigit(digits[0]);
  }

  /** A number is read exactly from whitespace, at most one sign and at least one digit, with nothing after them. */
  lemma BoundedNumberExactlyWhen(s: string, minimum: int, maximum: int, n: int)
    ensures BoundedNumber(s, minimum, maximum) == Some(n) <==>
              minimum <= n <= maximum &&
              exists pad: string, sign: string, digits: string ::
                && Spaces(pad) && IsSign(sign) && digits != "" && AllAreDigits(digits)
                && s == pad + (sign + digits) && n == Spelled(sign == "-", digits)
  {
    hide StrTol, Spelled;
    if BoundedNumber(s, minimum, maximum) == Some(n) {
      var _, _, _ := NumberSplits(s);
    }
    if pad: string, sign: string, digits: string :|
      && Spaces(pad) && IsSign(sign) && digits != "" && AllAreDigits(digits)
      && s == pad + (sign + digits) && n == Spelled(sign == "-", digits)
    {
      StrTolReads(pad, sign, digits);
    }
  }

  lemma SignedSplits(t: string, at: nat) returns (sign: string, digits: string)
    requires SignedNumber(t, at).Some? && SignedNumber(t, at).value.end == at + |t|
    ensures IsSign(sign) && digits != "" && AllAreDigits(digits) && t == sign + digits
    ensures SignedNumber(t, at).value.value == Spelled(sign == "-", digits)
  {
    hide Value;
    if t != "" && (t[0] == '-' || t[0] == '+') {
      sign, digits := [t[0]], t[1..];
    } else {
      sign, digits := "", t;
    }
    assert digits[..|digits|] == digits && t == sign + digits;
  }

  lemma NumberSplits(s: string) returns (pad: string, sign: string, digits: string)
    requires StrTol(s).Some? && StrTol(s).value.end == |s|
    ensures Spaces(pad) && IsSign(sign) && digits != "" && AllAreDigits(digits) && s == pad + (sign + digits)
    ensures StrTol(s).value.value == Spelled(sign == "-", digits)
  {
    var t := TrimLeft(s);
    pad := s[..|s| - |t|];
    assert s == pad + t;
    sign, digits := SignedSplits(t, |s| - |t|);
    hide SignedNumber, Spelled, IsSpace, IsDigit;
  }
}
