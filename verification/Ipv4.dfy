/** IPv4 addresses as 32-bit words: parsing, printing, prefixes and masks. */
module Ipv4 {
  import opened Common
  import opened CText

  // ------------------------------------------------------------------------------------
  // Words and octets
  // ------------------------------------------------------------------------------------

  /** `(a >> 8 * (3 - i)) & 0xff`. */
  function Octet(a: bv32, i: nat): bv8
    requires i < 4
  {
    (if i == 0 then (a >> 24) & 0xff
     else if i == 1 then (a >> 16) & 0xff
     else if i == 2 then (a >> 8) & 0xff
     else a & 0xff) as bv8
  }

  /** `(value << 8) | part`. */
  function Shift(value: bv32, part: bv8): bv32 {
    (value << 8) | (part as bv32)
  }

  lemma OctetsRejoin(a: bv32)
    ensures Shift(Shift(Shift(Shift(0, Octet(a, 0)), Octet(a, 1)), Octet(a, 2)), Octet(a, 3)) == a
  {
  }

  // ------------------------------------------------------------------------------------
  // Decimal octets
  // ------------------------------------------------------------------------------------

  function DecimalOf(n: nat): (s: string)
    requires n < 256
    ensures 1 <= |s| <= 3 && forall i | 0 <= i < |s| :: IsDigit(s[i])
  {
    if n < 10 then [Char(n)]
    else if n < 100 then [Char(n / 10), Char(n % 10)]
    else [Char(n / 100), Char(n / 10 % 10), Char(n % 10)]
  }

  function Decimal(o: bv8): (s: string)
    ensures 1 <= |s| <= 3 && forall i | 0 <= i < |s| :: IsDigit(s[i])
  {
    DecimalOf(o as nat)
  }

  lemma ValueOfDecimal(n: nat)
    requires n < 256
    ensures Value(0, DecimalOf(n)) == n
  {
    hide Value;
    var s := DecimalOf(n);
    ValueStep(0, s);
    if 10 <= n < 100 {
      ValueStep(n / 10, s[1..]);
    } else if n >= 100 {
      ValueStep(n / 100, s[1..]);
      ValueStep(n / 100 * 10 + n / 10 % 10, s[2..]);
    }
  }

  lemma ValueStep(acc: nat, s: string)
    requires s != [] && forall i | 0 <= i < |s| :: IsDigit(s[i])
    ensures Value(acc, s) == Value(acc * 10 + Digit(s[0]), s[1..])
    ensures |s| == 1 ==> Value(acc, s) == acc * 10 + Digit(s[0])
    ensures |s| > 1 ==> s[1..][1..] == s[2..]
  {
  }

  function Char(d: nat): (c: char)
    requires d < 10
    ensures IsDigit(c) && Digit(c) == d
  {
    '0' + d as char
  }

  /** The longest run of digits at the front, at most three. */
  function OctetLength(s: string): nat {
    Min(3, DigitRun(s))
  }

  // ------------------------------------------------------------------------------------
  // Dotted quads
  // ------------------------------------------------------------------------------------

  datatype Parsed = Parsed(address: bv32, rest: string)

  /** k more octets, the first one read next, with dots between them; `value` holds those before. */
  function ParseOctets(s: string, k: nat, value: bv32): Option<Parsed>
    requires k <= 4
    decreases k
  {
    if k == 0 then Some(Parsed(value, s))
    else
      var n := OctetLength(s);
      if n == 0 || Value(0, s[..n]) > 255 then None
      else
        var value' := Shift(value, Value(0, s[..n]) as bv8);
        if k == 1 then Some(Parsed(value', s[n..]))
        else if n < |s| && s[n] == '.' then ParseOctets(s[n + 1..], k - 1, value')
        else None
  }

  function Parse(s: string): Option<Parsed> {
    ParseOctets(s, 4, 0)
  }

  /** Octet i and those after it, with dots between them, then `rest`. */
  function FormatFrom(a: bv32, i: nat, rest: string): string
    requires i < 4
    decreases 4 - i
  {
    Decimal(Octet(a, i)) + if i == 3 then rest else "." + FormatFrom(a, i + 1, rest)
  }

  /** `"%u.%u.%u.%u"`. */
  function Format(a: bv32): string {
    FormatFrom(a, 0, "")
  }

  lemma {:induction false} FormatAppend(a: bv32, i: nat, rest: string)
    requires i < 4
    ensures FormatFrom(a, i, "") + rest == FormatFrom(a, i, rest)
    ensures 7 - 2 * i <= |FormatFrom(a, i, "")| <= 15 - 4 * i
    decreases 4 - i
  {
    hide Octet, Decimal;
    if i < 3 { FormatAppend(a, i + 1, rest); }
  }

  lemma FormatFits(a: bv32)
    ensures 7 <= |Format(a)| <= 15
  {
    FormatAppend(a, 0, "");
  }

  function JoinFrom(a: bv32, i: nat, value: bv32): bv32
    requires i <= 4
    decreases 4 - i
  {
    if i == 4 then value else JoinFrom(a, i + 1, Shift(value, Octet(a, i)))
  }

  lemma {:induction false} RunOf(s: string, rest: string)
    requires forall i | 0 <= i < |s| :: IsDigit(s[i])
    requires rest != [] ==> !IsDigit(rest[0])
    ensures DigitRun(s + rest) == |s|
    decreases |s|
  {
    if s == [] {
      assert s + rest == rest;
    } else {
      assert (s + rest)[1..] == s[1..] + rest;
      RunOf(s[1..], rest);
    }
  }

  /** One unfolding of the parser. */
  lemma ParseStep(s: string, k: nat, value: bv32)
    requires 1 <= k <= 4
    ensures ParseOctets(s, k, value) ==
              var n := OctetLength(s);
              if n == 0 || Value(0, s[..n]) > 255 then None
              else if k == 1 then Some(Parsed(Shift(value, Value(0, s[..n]) as bv8), s[n..]))
              else if n < |s| && s[n] == '.' then ParseOctets(s[n + 1..], k - 1, Shift(value, Value(0, s[..n]) as bv8))
              else None
  {
  }

  lemma ReadsNumber(n: nat, rest: string, k: nat, value: bv32)
    requires 1 <= k <= 4 && n < 256
    requires if k == 1 then rest != [] ==> !IsDigit(rest[0]) else rest != [] && rest[0] == '.'
    ensures ParseOctets(DecimalOf(n) + rest, k, value) ==
              if k == 1 then Some(Parsed(Shift(value, n as bv8), rest))
              else ParseOctets(rest[1..], k - 1, Shift(value, n as bv8))
  {
    hide DecimalOf, Value, DigitRun, Shift, ParseOctets;
    var d := DecimalOf(n);
    var s := d + rest;
    RunOf(d, rest);
    ValueOfDecimal(n);
    ParseStep(s, k, value);
    assert s[..|d|] == d && s[|d|..] == rest;
    if k > 1 { assert s[|d|] == '.' && s[|d| + 1..] == rest[1..]; }
  }

  /** Reading one printed octet back. */
  lemma ReadsOctet(o: bv8, rest: string, k: nat, value: bv32)
    requires 1 <= k <= 4
    requires if k == 1 then rest != [] ==> !IsDigit(rest[0]) else rest != [] && rest[0] == '.'
    ensures ParseOctets(Decimal(o) + rest, k, value) ==
              if k == 1 then Some(Parsed(Shift(value, o), rest)) else ParseOctets(rest[1..], k - 1, Shift(value, o))
  {
    hide DecimalOf, Shift, ParseOctets;
    assert (o as nat) as bv8 == o;
    ReadsNumber(o as nat, rest, k, value);
  }

  lemma {:induction false} ParseFormatted(a: bv32, i: nat, rest: string, value: bv32)
    requires i < 4 && (rest != [] ==> !IsDigit(rest[0]))
    ensures ParseOctets(FormatFrom(a, i, rest), 4 - i, value) == Some(Parsed(JoinFrom(a, i, value), rest))
    decreases 4 - i
  {
    hide ParseOctets, Decimal, Shift, Octet;
    var o := Octet(a, i);
    if i == 3 {
      ReadsOctet(o, rest, 1, value);
      assert JoinFrom(a, 4, Shift(value, o)) == Shift(value, o);
    } else {
      var t := FormatFrom(a, i + 1, rest);
      assert ("." + t)[1..] == t;
      ReadsOctet(o, "." + t, 4 - i, value);
      ParseFormatted(a, i + 1, rest, Shift(value, o));
    }
  }

  /** Every address is read back from its printed form, whatever non-digit follows. */
  lemma ParseAfterFormat(a: bv32, rest: string)
    requires rest != [] ==> !IsDigit(rest[0])
    ensures Parse(Format(a) + rest) == Some(Parsed(a, rest))
  {
    hide ParseOctets, FormatFrom, Shift, Octet;
    FormatAppend(a, 0, rest);
    ParseFormatted(a, 0, rest, 0);
    JoinUnfolds(a);
    OctetsRejoin(a);
  }

  lemma JoinUnfolds(a: bv32)
    ensures JoinFrom(a, 0, 0) == Shift(Shift(Shift(Shift(0, Octet(a, 0)), Octet(a, 1)), Octet(a, 2)), Octet(a, 3))
  {
    hide Shift, Octet;
    assert forall v: bv32 :: JoinFrom(a, 4, v) == v;
    assert forall v: bv32 :: JoinFrom(a, 3, v) == Shift(v, Octet(a, 3));
    assert forall v: bv32 :: JoinFrom(a, 2, v) == JoinFrom(a, 3, Shift(v, Octet(a, 2)));
  }

  lemma FormatIsInjective(a: bv32, b: bv32)
    ensures Format(a) == Format(b) <==> a == b
  {
    hide Format, Parse;
    ParseAfterFormat(a, "");
    ParseAfterFormat(b, "");
    assert Format(a) + "" == Format(a) && Format(b) + "" == Format(b);
  }

  /** The inner loop: up to three digits. */
  method ReadOctet(text: string, at: nat) returns (digits: nat, part: nat)
    requires at <= |text|
    ensures digits == OctetLength(text[at..]) && part == Value(0, text[at..][..digits])
  {
    hide DigitRun, Value;
    ghost var s := text[at..];
    digits, part := 0, 0;
    NoDigits(s);
    while at + digits < |text| && IsDigit(text[at + digits]) && digits < 3
      invariant digits <= OctetLength(s)
      invariant part == Value(0, s[..digits])
    {
      OneMoreDigit(s, digits);
      part := part * 10 + Digit(text[at + digits]);
      digits := digits + 1;
    }
  }

  /** `parseIpv4`. */
  method ParseIpv4(text: string) returns (r: Option<Parsed>)
    ensures r == Parse(text)
  {
    hide DigitRun, Value, Shift, ParseOctets;
    var value: bv32 := 0;
    var at := 0;
    var octet := 0;
    assert text[0..] == text;
    while octet < 4
      invariant octet <= 4 && at <= |text|
      invariant Parse(text) == ParseOctets(text[at..], 4 - octet, value)
    {
      ghost var s := text[at..];
      ParseStep(s, 4 - octet, value);
      if at == |text| || !IsDigit(text[at]) {
        NoRun(s);
        return None;
      }
      var digits, part := ReadOctet(text, at);
      OneMoreDigit(s, 0);
      if part > 255 { return None; }
      value := Shift(value, part as bv8);
      at := at + digits;
      assert s[digits..] == text[at..];
      if octet < 3 {
        if at == |text| || text[at] != '.' { return None; }
        at := at + 1;
        assert s[digits + 1..] == text[at..];
      }
      else {
        ParseEnd(text[at..], value);
      }
      octet := octet + 1;
    }
    ParseEnd(text[at..], value);
    return Some(Parsed(value, text[at..]));
  }

  lemma ParseEnd(s: string, value: bv32)
    ensures ParseOctets(s, 0, value) == Some(Parsed(value, s))
  {
  }

  lemma NoRun(s: string)
    requires s == [] || !IsDigit(s[0])
    ensures OctetLength(s) == 0
  {
  }

  lemma NoDigits(s: string)
    ensures Value(0, s[..0]) == 0
  {
  }

  lemma OneMoreDigit(s: string, n: nat)
    requires n < 3 && n <= OctetLength(s) && n < |s| && IsDigit(s[n])
    ensures n < OctetLength(s)
    ensures Value(0, s[..n + 1]) == Value(0, s[..n]) * 10 + Digit(s[n])
  {
    AppendDigit(0, s[..n], s[n]);
    assert s[..n + 1] == s[..n] + [s[n]];
  }

  lemma {:induction false} AppendDigit(acc: nat, s: string, c: char)
    requires (forall i | 0 <= i < |s| :: IsDigit(s[i])) && IsDigit(c)
    ensures Value(acc, s + [c]) == Value(acc, s) * 10 + Digit(c)
    decreases |s|
  {
    if s != [] {
      assert (s + [c])[1..] == s[1..] + [c];
      AppendDigit(acc * 10 + Digit(s[0]), s[1..], c);
    } else {
      assert s + [c] == [c] && [c][1..] == [];
    }
  }

  // ------------------------------------------------------------------------------------
  // Prefixes and masks (section 3.1 of RFC 4632)
  // ------------------------------------------------------------------------------------

  function Mask(prefix: nat): bv32
    requires prefix <= 32
  {
    if prefix == 0 then 0 else 0xFFFF_FFFF << (32 - prefix)
  }

  /** A mask is ones followed by 32 - prefix zeros: its complement is one less than a power of two. */
  lemma MaskIsContiguous(prefix: nat)
    requires 0 < prefix <= 32
    ensures !Mask(prefix) == (1 << (32 - prefix)) - 1
  {
  }

  /** Masks grow with their prefix. */
  lemma MasksAreNested(p: nat, q: nat)
    requires p <= q <= 32
    ensures Mask(p) & Mask(q) == Mask(p)
  {
    if p > 0 { ShiftsAreNested(32 - p, 32 - q); }
  }

  lemma ShiftsAreNested(m: nat, n: nat)
    requires n <= m < 32
    ensures (0xFFFF_FFFF as bv32 << m) & (0xFFFF_FFFF as bv32 << n) == 0xFFFF_FFFF as bv32 << m
  {
  }

  lemma OnlyPrefixZeroHasZeroMask(prefix: nat)
    requires prefix <= 32
    ensures Mask(prefix) == 0 <==> prefix == 0
  {
  }

  lemma MaskedIsCanonical(a: bv32, prefix: nat)
    requires prefix <= 32
    ensures (a & Mask(prefix)) & Mask(prefix) == a & Mask(prefix)
    ensures prefix == 32 ==> a & Mask(prefix) == a
    ensures prefix == 0 ==> a & Mask(prefix) == 0
  {
  }

  /** An address with a prefix length. */
  datatype Net = Net(address: bv32, prefix: nat)

  /** "a.b.c.d" or "a.b.c.d/nn" and nothing else. */
  function ParseNet(s: string): (r: Option<Net>)
    ensures r.Some? ==> r.value.prefix <= 32
  {
    match Parse(s)
    case None => None
    case Some(p) =>
      if p.rest == [] then Some(Net(p.address, 32))
      else if p.rest[0] != '/' then None
      else match BoundedNumber(p.rest[1..], 0, 32)
        case None => None
        case Some(n) => Some(Net(p.address, n))
  }

  method ParseIpv4WithPrefix(s: string) returns (r: Option<Net>)
    ensures r == ParseNet(s)
  {
    var p := ParseIpv4(s);
    if p.None? { return None; }
    if p.value.rest == [] { return Some(Net(p.value.address, 32)); }
    if p.value.rest[0] != '/' { return None; }
    var n := BoundedNumber(p.value.rest[1..], 0, 32);
    if n.None? { return None; }
    return Some(Net(p.value.address, n.value));
  }

  /** The usual notation of a network. */
  function PrintNet(net: Net): string
    requires net.prefix <= 32
  {
    Format(net.address) + ("/" + DecimalOf(net.prefix))
  }

  /** Every address with every prefix length is read back from its notation. */
  lemma ParsePrintedNet(net: Net)
    requires net.prefix <= 32
    ensures ParseNet(PrintNet(net)) == Some(net)
  {
    hide Parse, Format, DecimalOf;
    var digits := DecimalOf(net.prefix);
    ParseAfterFormat(net.address, "/" + digits);
    NumberOfDigits(digits, 0, 32);
    ValueOfDecimal(net.prefix);
    assert ("/" + digits)[1..] == digits;
  }

  predicate InNet(c: char) { IsDigit(c) || c == '.' || c == '/' }

  lemma {:induction false} FormatCharacters(a: bv32, i: nat)
    requires i < 4
    ensures forall k | 0 <= k < |FormatFrom(a, i, "")| :: InNet(FormatFrom(a, i, "")[k])
    decreases 4 - i
  {
    hide Octet;
    if i < 3 { FormatCharacters(a, i + 1); }
  }

  lemma PrintedNetCharacters(net: Net)
    requires net.prefix <= 32
    ensures 7 < |PrintNet(net)| <= 19 && forall k | 0 <= k < |PrintNet(net)| :: InNet(PrintNet(net)[k])
  {
    hide FormatFrom, DecimalOf;
    FormatCharacters(net.address, 0);
    FormatFits(net.address);
  }

  // ------------------------------------------------------------------------------------
  // Exactly which texts are addresses and networks
  // ------------------------------------------------------------------------------------

  /** One to three digits, leading zeros allowed, worth at most 255. */
  predicate IsOctet(t: string) {
    1 <= |t| <= 3 && AllAreDigits(t) && Value(0, t) <= 255
  }

  function OctetValue(t: string): bv8
    requires IsOctet(t)
  {
    Value(0, t) as bv8
  }

  /** After an octet its next digit would belong to it, unless it has three. */
  predicate EndsOctet(t: string, rest: string) {
    |t| == 3 || rest == "" || !IsDigit(rest[0])
  }

  lemma {:induction false} RunAtLeast(t: string, rest: string)
    requires AllAreDigits(t)
    ensures DigitRun(t + rest) >= |t|
    decreases |t|
  {
    if t != "" {
      assert (t + rest)[1..] == t[1..] + rest;
      RunAtLeast(t[1..], rest);
    }
  }

  lemma OctetStep(t: string, rest: string, k: nat, value: bv32)
    requires 1 <= k <= 4 && IsOctet(t) && EndsOctet(t, rest) && (k > 1 ==> rest != "" && rest[0] == '.')
    ensures ParseOctets(t + rest, k, value) ==
              if k == 1 then Some(Parsed(Shift(value, OctetValue(t)), rest))
              else ParseOctets(rest[1..], k - 1, Shift(value, OctetValue(t)))
  {
    hide Value, DigitRun, Shift, ParseOctets;
    RunAtLeast(t, rest);
    if rest == "" || !IsDigit(rest[0]) { RunOf(t, rest); }
    ParseStep(t + rest, k, value);
    assert (t + rest)[..|t|] == t && (t + rest)[|t|..] == rest;
    if k > 1 { assert (t + rest)[|t|] == '.' && (t + rest)[|t| + 1..] == rest[1..]; }
  }

  /** The first octet of a text that parses. */
  lemma OctetOf(s: string, k: nat, value: bv32) returns (t: string, rest: string)
    requires 1 <= k <= 4 && ParseOctets(s, k, value).Some?
    ensures s == t + rest && IsOctet(t) && EndsOctet(t, rest) && (k > 1 ==> rest != "" && rest[0] == '.')
  {
    hide Value, Shift, ParseOctets;
    ParseStep(s, k, value);
    var n := OctetLength(s);
    t, rest := s[..n], s[n..];
  }

  function Quad(a: string, b: string, c: string, d: string): string { a + ("." + (b + ("." + (c + ("." + d))))) }

  function Joined(a: string, b: string, c: string, d: string): bv32
    requires IsOctet(a) && IsOctet(b) && IsOctet(c) && IsOctet(d)
  {
    Shift(Shift(Shift(Shift(0, OctetValue(a)), OctetValue(b)), OctetValue(c)), OctetValue(d))
  }

  lemma DotsEnd(t: string, rest: string)
    ensures EndsOctet(t, "." + rest)
  {
  }

  lemma QuadIsRead(a: string, b: string, c: string, d: string, rest: string)
    requires IsOctet(a) && IsOctet(b) && IsOctet(c) && IsOctet(d) && EndsOctet(d, rest)
    ensures Parse(Quad(a, b, c, d) + rest) == Some(Parsed(Joined(a, b, c, d), rest))
  {
    hide IsOctet, OctetValue, EndsOctet, Shift, ParseOctets;
    var s3 := d + rest;
    var s2 := c + ("." + s3);
    var s1 := b + ("." + s2);
    assert Quad(a, b, c, d) + rest == a + ("." + s1);
    DotsEnd(a, s1);
    DotsEnd(b, s2);
    DotsEnd(c, s3);
    assert ("." + s1)[1..] == s1 && ("." + s2)[1..] == s2 && ("." + s3)[1..] == s3;
    var va, vb, vc := OctetValue(a), OctetValue(b), OctetValue(c);
    OctetStep(a, "." + s1, 4, 0);
    OctetStep(b, "." + s2, 3, Shift(0, va));
    OctetStep(c, "." + s3, 2, Shift(Shift(0, va), vb));
    OctetStep(d, rest, 1, Shift(Shift(Shift(0, va), vb), vc));
  }

  lemma QuadOf(s: string) returns (a: string, b: string, c: string, d: string, rest: string)
    requires Parse(s).Some?
    ensures IsOctet(a) && IsOctet(b) && IsOctet(c) && IsOctet(d) && EndsOctet(d, rest) && s == Quad(a, b, c, d) + rest
  {
    hide IsOctet, OctetValue, EndsOctet, Shift, ParseOctets;
    var r1, r2, r3;
    a, r1 := OctetOf(s, 4, 0);
    OctetStep(a, r1, 4, 0);
    b, r2 := OctetOf(r1[1..], 3, Shift(0, OctetValue(a)));
    OctetStep(b, r2, 3, Shift(0, OctetValue(a)));
    c, r3 := OctetOf(r2[1..], 2, Shift(Shift(0, OctetValue(a)), OctetValue(b)));
    OctetStep(c, r3, 2, Shift(Shift(0, OctetValue(a)), OctetValue(b)));
    d, rest := OctetOf(r3[1..], 1, Shift(Shift(Shift(0, OctetValue(a)), OctetValue(b)), OctetValue(c)));
    assert r1 == "." + r1[1..] && r2 == "." + r2[1..] && r3 == "." + r3[1..];
    assert s == Quad(a, b, c, d) + rest;
  }

  /** A text starts with an address exactly if it starts with four octets and the dots between them. */
  lemma ParseExactlyWhen(s: string, address: bv32, rest: string)
    ensures Parse(s) == Some(Parsed(address, rest)) <==>
              exists a: string, b: string, c: string, d: string ::
                && IsOctet(a) && IsOctet(b) && IsOctet(c) && IsOctet(d) && EndsOctet(d, rest)
                && s == Quad(a, b, c, d) + rest && address == Joined(a, b, c, d)
  {
    hide Parse, IsOctet, EndsOctet, Quad, Joined;
    if Parse(s) == Some(Parsed(address, rest)) {
      var a, b, c, d, r := QuadOf(s);
      QuadIsRead(a, b, c, d, r);
    }
    if a: string, b: string, c: string, d: string :|
      && IsOctet(a) && IsOctet(b) && IsOctet(c) && IsOctet(d) && EndsOctet(d, rest)
      && s == Quad(a, b, c, d) + rest && address == Joined(a, b, c, d)
    {
      QuadIsRead(a, b, c, d, rest);
    }
  }

  /** A network is exactly an address alone, or an address, a slash and a number up to 32. */
  lemma ParseNetExactlyWhen(s: string, net: Net)
    ensures ParseNet(s) == Some(net) <==>
              exists rest: string ::
                && Parse(s) == Some(Parsed(net.address, rest))
                && (if rest == "" then net.prefix == 32
                    else rest[0] == '/' && BoundedNumber(rest[1..], 0, 32) == Some(net.prefix))
  {
    hide Parse, BoundedNumber;
    if ParseNet(s) == Some(net) {
      var rest := Parse(s).value.rest;
      assert Parse(s) == Some(Parsed(net.address, rest));
    }
  }
}
