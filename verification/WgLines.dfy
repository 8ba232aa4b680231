/** What a line of a wg-quick text is, and what the values in it are, by their characters. */
module WgLines {
  import opened Common
  import opened CText
  import opened WgConf

  // ------------------------------------------------------------------------------------
  // Blank lines and comments
  // ------------------------------------------------------------------------------------

  /** The first visible character stands at i. */
  predicate StartsAt(line: string, i: nat) {
    i < |line| && !IsSpace(line[i]) && Spaces(line[..i])
  }

  /** Whitespace only, or a '#' or ';' before anything else. */
  ghost predicate SaysNothing(line: string) {
    Spaces(line) || exists i: nat :: StartsAt(line, i) && (line[i] == '#' || line[i] == ';')
  }

  lemma TrimStarts(line: string, i: nat)
    requires StartsAt(line, i)
    ensures Trim(line) != "" && Trim(line)[0] == line[i]
  {
    TrimSplits(line);
    hide Trim, IsSpace;
    var t := Trim(line);
    var a: string, b: string :| Spaces(a) && Spaces(b) && line == a + (t + b);
    VisibleInside(line, i);
    PadsAreSpaces(a, b);
    if t != "" {
      assert StartsAt(line, |a|) by { assert line[..|a|] == a && line[|a|] == t[0]; }
      OneStart(line, i, |a|);
    }
  }

  lemma PadsAreSpaces(a: string, b: string)
    requires Spaces(a) && Spaces(b)
    ensures Spaces(a + ("" + b))
  {
    hide IsSpace;
  }

  lemma VisibleInside(line: string, i: nat)
    requires StartsAt(line, i)
    ensures !Spaces(line)
  {
  }

  lemma FirstVisible(line: string) returns (i: nat)
    requires !Spaces(line)
    ensures StartsAt(line, i)
  {
    hide IsSpace;
    i := 0;
    while IsSpace(line[i])
      invariant i < |line| && Spaces(line[..i])
      decreases |line| - i
    {
      assert line[..i + 1] == line[..i] + [line[i]];
      assert line[..|line|] == line;
      i := i + 1;
    }
  }

  /** A line is passed over exactly if it holds nothing but whitespace or its first visible character starts a comment. */
  lemma BlankExactlyWhen(line: string)
    ensures ReadLine(line) == Blank <==> SaysNothing(line)
  {
    hide *;
    LineIsTrimmed(line);
    BlankTrimmed(Trim(line));
    if Spaces(line) {
      SpacesSayNothing(line);
    } else {
      var i := FirstVisible(line);
      TrimStarts(line, i);
      SaysNothingAt(line, i);
    }
  }

  lemma SpacesSayNothing(line: string)
    requires Spaces(line)
    ensures SaysNothing(line) && Trim(line) == ""
  {
    TrimOf(line, "", "");
    assert line + ("" + "") == line;
  }

  lemma SaysNothingAt(line: string, i: nat)
    requires StartsAt(line, i)
    ensures SaysNothing(line) <==> line[i] == '#' || line[i] == ';'
  {
    VisibleInside(line, i);
    hide IsSpace, Spaces;
    forall j: nat | StartsAt(line, j) ensures j == i { OneStart(line, i, j); }
  }

  lemma BlankTrimmed(t: string)
    ensures ReadTrimmed(t) == Blank <==> t == "" || t[0] == '#' || t[0] == ';'
  {
    hide Trim, IndexOf, SectionNamed;
  }

  lemma LineIsTrimmed(line: string)
    ensures ReadLine(line) == ReadTrimmed(Trim(line))
  {
  }

  lemma OneStart(line: string, i: nat, j: nat)
    requires StartsAt(line, i) && StartsAt(line, j)
    ensures i == j
  {
    if i < j { SpaceBefore(line, j, i); }
    if j < i { SpaceBefore(line, i, j); }
  }

  lemma SpaceBefore(line: string, i: nat, j: nat)
    requires StartsAt(line, i) && j < i
    ensures IsSpace(line[j])
  {
    assert line[..i][j] == line[j];
  }

  // ------------------------------------------------------------------------------------
  // Headers and assignments
  // ------------------------------------------------------------------------------------

  /** A header is exactly a name in brackets that fits its buffer. */
  lemma HeaderExactlyWhen(line: string, section: Section)
    ensures ReadLine(line) == Header(section) <==>
              exists name: string ::
                Trim(line) == ['['] + name + [']'] && |Trim(name)| <= 23 && section == SectionNamed(Trim(name))
  {
    hide *;
    LineIsTrimmed(line);
    var t := Trim(line);
    if ReadTrimmed(t) == Header(section) {
      var _ := HeaderSplits(t, section);
    }
    if name: string :| t == ['['] + name + [']'] && |Trim(name)| <= 23 && section == SectionNamed(Trim(name)) {
      HeaderOf(t, name);
    }
  }

  lemma HeaderSplits(t: string, section: Section) returns (name: string)
    requires ReadTrimmed(t) == Header(section)
    ensures t == ['['] + name + [']'] && |Trim(name)| <= 23 && section == SectionNamed(Trim(name))
  {
    hide Trim, SectionNamed, ReadAssignment;
    AssignmentIsAssignment(t);
    name := t[1..|t| - 1];
    assert t == ['['] + name + [']'];
  }

  lemma HeaderOf(t: string, name: string)
    requires t == ['['] + name + [']'] && |Trim(name)| <= 23
    ensures ReadTrimmed(t) == Header(SectionNamed(Trim(name)))
  {
    hide Trim, SectionNamed, ReadAssignment;
    assert t[0] == '[' && t[|t| - 1] == ']' && t[1..|t| - 1] == name;
  }

  /** Sections are told apart by their names, in any letter case; all others are unknown. */
  lemma SectionsByName(name: string)
    ensures SectionNamed(name) == Interface <==> SameIgnoringCase(name, "Interface")
    ensures SectionNamed(name) == Peer <==> SameIgnoringCase(name, "Peer")
    ensures SectionNamed(name) != NoSection
  {
    assert |LowerAll(name)| == |name| && |LowerAll("Interface")| == 9 && |LowerAll("Peer")| == 4;
  }

  /** Letter case is what is ignored, and nothing else. */
  lemma OnlyCaseIsIgnored(a: string, b: string)
    ensures SameIgnoringCase(a, b) <==>
              |a| == |b| && forall i | 0 <= i < |a| ::
                a[i] == b[i] || (IsLetter(a[i]) && IsLetter(b[i]) && Lower(a[i]) == Lower(b[i]))
  {
    if SameIgnoringCase(a, b) {
      forall i | 0 <= i < |a| ensures a[i] == b[i] || (IsLetter(a[i]) && IsLetter(b[i]) && Lower(a[i]) == Lower(b[i])) {
        assert LowerAll(a)[i] == LowerAll(b)[i];
      }
    }
  }

  predicate IsLetter(c: char) { 'a' <= c <= 'z' || 'A' <= c <= 'Z' }

  /** Headers and comments come before assignments. */
  predicate IsKeyText(k: string) {
    k != "" && k[0] != '[' && k[0] != '#' && k[0] != ';' && '=' !in k && 0 < |Trim(k)| <= 31
  }

  /** An assignment is exactly a key that fits, the first equals sign, and a value. */
  lemma AssignmentExactlyWhen(line: string, key: string, value: string)
    ensures ReadLine(line) == Assignment(key, value) <==>
              exists k: string, v: string ::
                Trim(line) == k + (['='] + v) && IsKeyText(k) && key == Trim(k) && value == Trim(v)
  {
    hide *;
    LineIsTrimmed(line);
    var t := Trim(line);
    if ReadTrimmed(t) == Assignment(key, value) {
      var k, v := AssignmentSplits(t, key, value);
    }
    if k: string, v: string :| t == k + (['='] + v) && IsKeyText(k) && key == Trim(k) && value == Trim(v) {
      AssignmentOf(t, k, v);
    }
  }

  lemma AssignmentSplits(t: string, key: string, value: string) returns (k: string, v: string)
    requires ReadTrimmed(t) == Assignment(key, value)
    ensures t == k + (['='] + v) && IsKeyText(k) && key == Trim(k) && value == Trim(v)
  {
    hide Trim, IndexOf, SectionNamed;
    var i := IndexOf(t, '=').value;
    k, v := t[..i], t[i + 1..];
    KeyIsNotEmpty(k);
  }

  lemma AssignmentOf(t: string, k: string, v: string)
    requires t == k + (['='] + v) && IsKeyText(k)
    ensures ReadTrimmed(t) == Assignment(Trim(k), Trim(v))
  {
    hide *;
    KeyStarts(t, k, v);
    NoHeader(t);
    KeyAndValue(t, k, v);
  }

  lemma KeyStarts(t: string, k: string, v: string)
    requires t == k + (['='] + v) && IsKeyText(k)
    ensures IndexOf(t, '=') == Some(|k|) && t != "" && t[0] != '[' && t[0] != '#' && t[0] != ';' && 0 < |Trim(k)| < KEY_SIZE
  {
    hide Trim, IndexOf;
    FirstSeparator(k, '=');
    FirstStays(k + ['='], v, '=');
    assert (k + ['=']) + v == t && t[0] == k[0];
  }

  lemma NoHeader(t: string)
    requires t != "" && t[0] != '[' && t[0] != '#' && t[0] != ';'
    ensures ReadTrimmed(t) == ReadAssignment(t)
  {
  }

  lemma KeyAndValue(t: string, k: string, v: string)
    requires t == k + (['='] + v) && IndexOf(t, '=') == Some(|k|) && 0 < |Trim(k)| < KEY_SIZE
    ensures ReadAssignment(t) == Assignment(Trim(k), Trim(v))
  {
    hide IndexOf, Trim;
    assert t[..|k|] == k && t[|k| + 1..] == v;
  }

  lemma KeyIsNotEmpty(k: string)
    ensures Trim(k) != "" ==> k != ""
  {
  }

  // ------------------------------------------------------------------------------------
  // Values
  // ------------------------------------------------------------------------------------

  /** An entry of a list is passed over exactly if it is empty or holds a colon, as IPv6 addresses do. */
  lemma SkippedExactlyWhen(piece: string)
    ensures Skipped(Trim(piece)) <==> Spaces(piece) || ':' in piece
  {
    TrimSplits(piece);
    hide Trim;
    var t := Trim(piece);
    var a: string, b: string :| Spaces(a) && Spaces(b) && piece == a + (t + b);
    NoColon(a);
    NoColon(b);
    assert ':' in piece <==> ':' in t;
    if t == "" { assert piece == a + b; }
    if t != "" { assert piece[|a|] == t[0]; }
  }

  lemma NoColon(pad: string)
    requires Spaces(pad)
    ensures ':' !in pad
  {
  }

  /** Letters, digits, dots and hyphens. */
  predicate IsHostName(host: string) {
    forall i | 0 <= i < |host| :: IsLetter(host[i]) || '0' <= host[i] <= '9' || host[i] == '.' || host[i] == '-'
  }

  lemma HostNamesAre(host: string)
    ensures IsHostName(host) <==> HostCharacters(host)
  {
  }

  /** An endpoint is exactly a host of the allowed characters, the last colon and a port. */
  lemma EndpointExactlyWhen(value: string, host: string, port: nat)
    ensures ParseEndpoint(value) == Ok(HostPort(host, port)) <==>
              && value != "" && value[0] != '['
              && exists h: string, p: string ::
                   && value == h + ([':'] + p) && ':' !in p && host == Trim(h) && 1 <= |host| <= 63
                   && IsHostName(host) && BoundedNumber(p, 1, 65535) == Some(port)
  {
    HostNamesAre(host);
    hide *;
    if ParseEndpoint(value) == Ok(HostPort(host, port)) {
      var h, p := EndpointSplits(value, host, port);
    }
    if value != "" && value[0] != '[' {
      if h: string, p: string :|
        && value == h + ([':'] + p) && ':' !in p && host == Trim(h) && 1 <= |host| <= 63
        && IsHostName(host) && BoundedNumber(p, 1, 65535) == Some(port)
      {
        EndpointOf(value, h, p, port);
      }
    }
  }

  lemma EndpointSplits(value: string, host: string, port: nat) returns (h: string, p: string)
    requires ParseEndpoint(value) == Ok(HostPort(host, port))
    ensures value != "" && value[0] != '[' && value == h + ([':'] + p) && ':' !in p && host == Trim(h)
    ensures 1 <= |host| <= 63 && HostCharacters(host) && BoundedNumber(p, 1, 65535) == Some(port)
  {
    hide Trim, BoundedNumber, HostCharacters, LastIndexOf;
    var i := LastIndexOf(value, ':').value;
    h, p := value[..i], value[i + 1..];
  }

  lemma EndpointOf(value: string, h: string, p: string, port: nat)
    requires value != "" && value[0] != '[' && value == h + ([':'] + p) && ':' !in p
    requires 1 <= |Trim(h)| <= 63 && HostCharacters(Trim(h)) && BoundedNumber(p, 1, 65535) == Some(port)
    ensures ParseEndpoint(value) == Ok(HostPort(Trim(h), port))
  {
    hide Trim, BoundedNumber, HostCharacters, LastIndexOf;
    LastSeparator(h, p, ':');
    assert value[..|h|] == h && value[|h| + 1..] == p;
    KeyIsNotEmpty(h);
  }

  lemma {:induction false} LastSeparator(a: string, b: string, c: char)
    requires c !in b
    ensures c in a + ([c] + b) && LastIndexOf(a + ([c] + b), c) == Some(|a|)
    decreases |b|
  {
    var s := a + ([c] + b);
    assert s[|a|] == c;
    if b != [] {
      assert s[..|s| - 1] == a + ([c] + b[..|b| - 1]);
      LastSeparator(a, b[..|b| - 1], c);
    }
  }
}
