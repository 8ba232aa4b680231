/** A profile written out in the usual layout is read back as it was. */
module WgLayout {
  import opened Common
  import opened CText
  import opened Ipv4
  import opened WgConf
  import opened WgAccepted
  import opened WgLines

  // ------------------------------------------------------------------------------------
  // Lines
  // ------------------------------------------------------------------------------------

  function Unlines(lines: seq<string>): string
    decreases |lines|
  {
    if lines == [] then "" else (lines[0] + ['\n']) + Unlines(lines[1..])
  }

  predicate Unbroken(lines: seq<string>) {
    forall i | 0 <= i < |lines| :: '\n' !in lines[i]
  }

  lemma UnbrokenCons(line: string, rest: seq<string>)
    requires '\n' !in line && Unbroken(rest)
    ensures Unbroken([line] + rest)
  {
  }

  lemma {:induction false} PiecesOfLines(lines: seq<string>)
    requires Unbroken(lines)
    ensures Pieces(Unlines(lines), '\n') == lines
    decreases |lines|
  {
    hide Pieces;
    if lines == [] {
      NoPieces('\n');
    } else {
      PiecesOfConcat(lines[0] + ['\n'], Unlines(lines[1..]), '\n');
      OnePiece(lines[0], '\n');
      PiecesOfLines(lines[1..]);
      assert [lines[0]] + lines[1..] == lines;
    }
  }

  predicate Visible(s: string) {
    s != "" && forall i | 0 <= i < |s| :: !IsSpace(s[i])
  }

  predicate IsName(s: string) {
    0 < |s| < KEY_SIZE && forall i | 0 <= i < |s| :: IsAlnum(s[i])
  }

  function SettingLine(key: string, value: string): string { (key + " ") + (['='] + (" " + value)) }

  lemma AssignmentIsRead(key: string, value: string)
    requires IsName(key) && Visible(value)
    ensures ReadLine(SettingLine(key, value)) == Assignment(key, value)
  {
    hide Trim, ReadAssignment;
    IsAssignment(key, value);
    AssignmentIsSplit(key, value);
  }

  lemma IsAssignment(key: string, value: string)
    requires IsName(key) && Visible(value)
    ensures ReadLine(SettingLine(key, value)) == ReadAssignment(SettingLine(key, value))
  {
    hide Trim, ReadAssignment;
    var s := SettingLine(key, value);
    assert s[0] == key[0] && IsAlnum(key[0]);
    assert s[|s| - 1] == value[|value| - 1];
    NothingToTrim(s);
  }

  lemma AssignmentIsSplit(key: string, value: string)
    requires IsName(key) && Visible(value)
    ensures ReadAssignment(SettingLine(key, value)) == Assignment(key, value)
  {
    hide Trim, IndexOf;
    var s := SettingLine(key, value);
    NoEquals(key);
    FirstSeparator(key + " ", '=');
    assert s == ((key + " ") + ['=']) + (" " + value);
    FirstStays((key + " ") + ['='], " " + value, '=');
    assert s[..|key| + 1] == key + " " && s[|key| + 2..] == " " + value;
    assert IsAlnum(key[0]) && IsAlnum(key[|key| - 1]);
    TrimPadded(key);
    TrimPadded(value);
  }

  lemma NoEquals(key: string)
    requires IsName(key)
    ensures '=' !in key + " "
  {
    forall i | 0 <= i < |key| + 1 ensures (key + " ")[i] != '=' {
      if i < |key| { assert IsAlnum(key[i]); }
    }
  }

  lemma InterfaceHeader()
    ensures ReadLine("[" + "Interface" + "]") == Header(Interface)
  {
    HeaderIsRead("Interface");
    hide ReadLine;
  }

  lemma PeerHeader()
    ensures ReadLine("[" + "Peer" + "]") == Header(Peer)
  {
    HeaderIsRead("Peer");
    hide ReadLine;
    assert |LowerAll("Peer")| != |LowerAll("Interface")|;
  }

  lemma HeaderIsRead(name: string)
    requires 0 < |name| < NAME_SIZE && forall i | 0 <= i < |name| :: IsAlnum(name[i])
    ensures ReadLine("[" + name + "]") == Header(SectionNamed(name))
  {
    hide SectionNamed;
    var s := "[" + name + "]";
    NothingToTrim(s);
    NothingToTrim(name);
    assert s[1..|s| - 1] == name;
  }

  // ------------------------------------------------------------------------------------
  // Names
  // ------------------------------------------------------------------------------------

  /** Each section knows its own keys, in any letter case, and no others. */
  lemma KeysOfSections(key: string)
    ensures SettingOf(Interface, key) == PrivateKey <==> SameIgnoringCase(key, "PrivateKey")
    ensures SettingOf(Interface, key) == Address <==> SameIgnoringCase(key, "Address")
    ensures SettingOf(Interface, key) == Mtu <==> SameIgnoringCase(key, "MTU")
    ensures SettingOf(Peer, key) == PublicKey <==> SameIgnoringCase(key, "PublicKey")
    ensures SettingOf(Peer, key) == PresharedKey <==> SameIgnoringCase(key, "PresharedKey")
    ensures SettingOf(Peer, key) == Endpoint <==> SameIgnoringCase(key, "Endpoint")
    ensures SettingOf(Peer, key) == Keepalive <==> SameIgnoringCase(key, "PersistentKeepalive")
    ensures SettingOf(Peer, key) == AllowedIps <==> SameIgnoringCase(key, "AllowedIPs")
    ensures SettingOf(NoSection, key) == SettingOf(Other, key) == Ignored
  {
    assert |LowerAll(key)| == |key|;
    assert LowerAll("PublicKey")[1] == 'u' && LowerAll("Endpoint")[0] == 'e';
    assert |LowerAll("PrivateKey")| == 10 && |LowerAll("Address")| == 7 && |LowerAll("MTU")| == 3;
    assert |LowerAll("PublicKey")| == 9 && |LowerAll("PresharedKey")| == 12 && |LowerAll("Endpoint")| == 8;
    assert |LowerAll("PersistentKeepalive")| == 19 && |LowerAll("AllowedIPs")| == 10;
  }

  // ------------------------------------------------------------------------------------
  // Lists of networks
  // ------------------------------------------------------------------------------------

  predicate AreNets(nets: seq<Net>) {
    forall i | 0 <= i < |nets| :: nets[i].prefix <= 32
  }

  function Listed(nets: seq<Net>): string
    requires nets != [] && AreNets(nets)
    decreases |nets|
  {
    if |nets| == 1 then PrintNet(nets[0]) else (PrintNet(nets[0]) + [',']) + Listed(nets[1..])
  }

  predicate InList(c: char) { InNet(c) || c == ',' }

  lemma {:induction false} ListedCharacters(nets: seq<Net>)
    requires nets != [] && AreNets(nets)
    ensures 0 < |Listed(nets)| <= 20 * |nets|
    ensures forall i | 0 <= i < |Listed(nets)| :: InList(Listed(nets)[i])
    decreases |nets|
  {
    hide PrintNet;
    PrintedNetCharacters(nets[0]);
    if |nets| > 1 { ListedCharacters(nets[1..]); }
  }

  lemma PrintedEntry(net: Net)
    requires net.prefix <= 32
    ensures EntryNets(PrintNet(net)) == [net] && LegalEntry(PrintNet(net)) && ',' !in PrintNet(net) && PrintNet(net) != ""
  {
    hide PrintNet, ParseNet, Trim;
    var s := PrintNet(net);
    PrintedNetCharacters(net);
    assert InNet(s[0]) && InNet(s[|s| - 1]);
    NothingToTrim(s);
    ParsePrintedNet(net);
    assert forall i | 0 <= i < |s| :: InNet(s[i]) && s[i] != ':' && s[i] != ',';
  }

  /** A printed list of networks is read back as that list. */
  lemma {:induction false} ListedIsRead(nets: seq<Net>)
    requires nets != [] && AreNets(nets)
    ensures NetsOf(Pieces(Listed(nets), ',')) == nets && AllEntries(Pieces(Listed(nets), ','))
    decreases |nets|
  {
    hide Pieces, PrintNet, EntryNets, LegalEntry;
    var first := PrintNet(nets[0]);
    PrintedEntry(nets[0]);
    OnePiece(first, ',');
    if |nets| == 1 {
      OnlyEntry(first, nets[0]);
      assert nets == [nets[0]];
    } else {
      var rest := Pieces(Listed(nets[1..]), ',');
      PiecesOfConcat(first + [','], Listed(nets[1..]), ',');
      ListedIsRead(nets[1..]);
      assert ([first] + rest)[1..] == rest;
      AllEntriesStep([first] + rest);
      assert [nets[0]] + nets[1..] == nets;
    }
  }

  lemma OnlyEntry(piece: string, net: Net)
    requires EntryNets(piece) == [net] && LegalEntry(piece)
    ensures NetsOf([piece]) == [net] && AllEntries([piece])
  {
    hide EntryNets, LegalEntry;
    assert [piece][1..] == [] && NetsOf([]) == [];
  }

  // ------------------------------------------------------------------------------------
  // The endpoint
  // ------------------------------------------------------------------------------------

  predicate AreDigits(s: string) {
    s != "" && forall i | 0 <= i < |s| :: IsDigit(s[i])
  }

  function EndpointText(host: string, port: string): string { host + ([':'] + port) }

  lemma EndpointIsRead(host: string, port: string)
    requires 0 < |host| < ENDPOINT_SIZE && HostCharacters(host) && AreDigits(port) && 1 <= Value(0, port) <= 65535
    ensures ParseEndpoint(EndpointText(host, port)) == Ok(HostPort(host, Value(0, port)))
    ensures Visible(EndpointText(host, port))
  {
    hide Trim, BoundedNumber, Value, LastIndexOf;
    var s := EndpointText(host, port);
    assert s[|host|] == ':' && s[|host| + 1..] == port && s[..|host|] == host;
    assert forall i | 0 <= i < |port| :: IsDigit(port[i]) && port[i] != ':';
    LastSeparator(host, port, ':');
    assert HostCharacters(host) && s[0] == host[0];
    NothingToTrim(host);
    NumberOfDigits(port, 1, 65535);
    assert forall k | 0 <= k < |s| :: !IsSpace(s[k]);
  }

  // ------------------------------------------------------------------------------------
  // The whole profile
  // ------------------------------------------------------------------------------------

  datatype Plan = Plan(privateKey: string, publicKey: string, endpoint: string, port: string, host: Net, routes: seq<Net>)

  /** Two keys, a host that can be reached, an address a host can have, and routes that include the default one. */
  ghost predicate Sensible(isKey: string -> bool, p: Plan) {
    && KeyContract(isKey) && isKey(p.privateKey) && isKey(p.publicKey) && Visible(p.privateKey) && Visible(p.publicKey)
    && 0 < |p.endpoint| < ENDPOINT_SIZE && HostCharacters(p.endpoint)
    && AreDigits(p.port) && |p.port| <= 5 && 1 <= Value(0, p.port) <= 65535
    && p.host.prefix <= 32 && HostProblem(p.host).None?
    && 1 <= |p.routes| <= MAX_ROUTES && AreNets(p.routes) && exists i | 0 <= i < |p.routes| :: p.routes[i].prefix == 0
  }

  function PeerLines(p: Plan): seq<string>
    requires p.routes != [] && AreNets(p.routes)
  {
    ["[" + "Peer" + "]"] +
    ([SettingLine("PublicKey", p.publicKey)] +
     ([SettingLine("Endpoint", EndpointText(p.endpoint, p.port))] +
      ([SettingLine("AllowedIPs", Listed(p.routes))] + [])))
  }

  function Lines(p: Plan): seq<string>
    requires p.host.prefix <= 32 && p.routes != [] && AreNets(p.routes)
  {
    ["[" + "Interface" + "]"] +
    ([SettingLine("PrivateKey", p.privateKey)] +
     ([SettingLine("Address", PrintNet(p.host))] + PeerLines(p)))
  }

  lemma SetsOne(isKey: string -> bool, key: string, value: string, rest: seq<string>, st: State)
    requires IsName(key) && Visible(value)
    requires Assign(isKey, SettingOf(st.section, key), value, st.draft).Ok?
    ensures RunLines(isKey, [SettingLine(key, value)] + rest, st)
         == RunLines(isKey, rest, st.(draft := Assign(isKey, SettingOf(st.section, key), value, st.draft).value))
  {
    hide Assign, SettingOf, Trim, ReadTrimmed, SettingLine, RunLines;
    AssignmentIsRead(key, value);
    FirstLine(isKey, SettingLine(key, value), rest, st);
  }

  lemma EntersOne(isKey: string -> bool, line: string, section: Section, rest: seq<string>, st: State)
    requires ReadLine(line) == Header(section) && Enter(st, section).Ok?
    ensures RunLines(isKey, [line] + rest, st) == RunLines(isKey, rest, Enter(st, section).value)
  {
    hide Trim, ReadTrimmed, RunLines, Enter;
    FirstLine(isKey, line, rest, st);
  }

  lemma OneAddress(p: Net, d: Draft)
    requires p.prefix <= 32 && HostProblem(p).None? && !d.addressSeen
    ensures Visible(PrintNet(p)) && |PrintNet(p)| < VALUE_SIZE
    ensures AddressEntries(Pieces(PrintNet(p), ','), d) == Ok(AddHost(d, p))
  {
    hide Pieces, PrintNet, EntryNets, LegalEntry, AddressEntries, HostProblem, AddHost;
    PrintedEntry(p);
    PrintedNetCharacters(p);
    OnePiece(PrintNet(p), ',');
    OnlyEntry(PrintNet(p), p);
    AddressEntriesMean([PrintNet(p)], d);
    assert forall k | 0 <= k < |PrintNet(p)| :: InNet(PrintNet(p)[k]) && !IsSpace(PrintNet(p)[k]);
    assert LegalHost(PrintNet(p));
  }

  lemma AllRoutes(nets: seq<Net>, p: Profile)
    requires 1 <= |nets| <= MAX_ROUTES && AreNets(nets) && p.routes == []
    ensures Visible(Listed(nets)) && |Listed(nets)| < VALUE_SIZE
    ensures RouteEntries(Pieces(Listed(nets), ','), p) == Ok(p.(routes := RoutesOf(nets)))
  {
    hide Pieces, Listed, RouteEntries, RoutesOf, NetsOf, AllEntries, InList, Visible;
    ListedIsRead(nets);
    ListedCharacters(nets);
    RouteEntriesMean(Pieces(Listed(nets), ','), p);
    ListIsVisible(Listed(nets));
    assert [] + RoutesOf(nets) == RoutesOf(nets);
  }

  lemma ListIsVisible(s: string)
    requires s != "" && forall k | 0 <= k < |s| :: InList(s[k])
    ensures Visible(s)
  {
    assert forall k | 0 <= k < |s| :: InList(s[k]) && !IsSpace(s[k]);
  }

  function Expected(p: Plan): Profile
    requires p.host.prefix <= 32 && AreNets(p.routes) && AreDigits(p.port)
  {
    Profile(p.privateKey, p.publicKey, "", Format(p.host.address), Format(Mask(p.host.prefix)), p.endpoint,
            Value(0, p.port), 0, 1420, RoutesOf(p.routes))
  }

  lemma InterfaceKeys()
    ensures IsName("PrivateKey") && SettingOf(Interface, "PrivateKey") == PrivateKey
    ensures IsName("Address") && SettingOf(Interface, "Address") == Address
  {
    NamesAreNames();
    hide SettingOf, SameIgnoringCase, IsName;
    KeysOfSections("PrivateKey");
    KeysOfSections("Address");
    SameAsItself("PrivateKey");
    SameAsItself("Address");
  }

  lemma SameAsItself(s: string)
    ensures SameIgnoringCase(s, s)
  {
  }

  lemma NamesAreNames()
    ensures IsName("PrivateKey") && IsName("Address") && IsName("PublicKey") && IsName("Endpoint") && IsName("AllowedIPs")
  {
  }

  lemma PeerKeys()
    ensures IsName("PublicKey") && SettingOf(Peer, "PublicKey") == PublicKey
    ensures IsName("Endpoint") && SettingOf(Peer, "Endpoint") == Endpoint
    ensures IsName("AllowedIPs") && SettingOf(Peer, "AllowedIPs") == AllowedIps
  {
    NamesAreNames();
    hide SettingOf, SameIgnoringCase, IsName;
    KeysOfSections("PublicKey");
    KeysOfSections("Endpoint");
    KeysOfSections("AllowedIPs");
    SameAsItself("PublicKey");
    SameAsItself("Endpoint");
    SameAsItself("AllowedIPs");
  }

  lemma InterfaceIsRead(isKey: string -> bool, p: Plan)
    requires Sensible(isKey, p)
    ensures RunLines(isKey, Lines(p), START) ==
              var own := EMPTY.(privateKey := p.privateKey, address := Format(p.host.address), netmask := Format(Mask(p.host.prefix)));
              RunLines(isKey, PeerLines(p), State(Interface, true, false, Draft(own, true)))
  {
    hide RunLines, SettingLine, SettingOf, Format, Mask, PrintNet, Listed, HostProblem, ReadLine, PeerLines, IsName;
    hide Visible, AddressEntries, RouteEntries, ParseEndpoint, Pieces;
    InterfaceHeader();
    InterfaceKeys();
    var entered := State(Interface, true, false, START.draft);
    var keyed := entered.(draft := Draft(EMPTY.(privateKey := p.privateKey), false));
    var address := [SettingLine("Address", PrintNet(p.host))] + PeerLines(p);
    EntersOne(isKey, "[" + "Interface" + "]", Interface, [SettingLine("PrivateKey", p.privateKey)] + address, START);
    SetsOne(isKey, "PrivateKey", p.privateKey, address, entered);
    OneAddress(p.host, keyed.draft);
    SetsOne(isKey, "Address", PrintNet(p.host), PeerLines(p), keyed);
  }

  lemma PeerIsRead(isKey: string -> bool, p: Plan, own: Profile)
    requires Sensible(isKey, p) && own.routes == []
    ensures RunLines(isKey, PeerLines(p), State(Interface, true, false, Draft(own, true))) ==
              Ok(State(Peer, true, true,
                       Draft(own.(publicKey := p.publicKey, endpoint := p.endpoint, port := Value(0, p.port), routes := RoutesOf(p.routes)), true)))
  {
    hide RunLines, SettingLine, SettingOf, Format, Mask, PrintNet, Listed, HostProblem, ReadLine, IsName, Visible;
    hide AddressEntries, RouteEntries, ParseEndpoint, Pieces, Value, EndpointText, RoutesOf;
    PeerHeader();
    PeerKeys();
    var start := State(Interface, true, false, Draft(own, true));
    var entered := start.(section := Peer, peerSeen := true);
    var keyed := entered.(draft := Draft(own.(publicKey := p.publicKey), true));
    var reached := keyed.(draft := Draft(keyed.draft.profile.(endpoint := p.endpoint, port := Value(0, p.port)), true));
    var routes := [SettingLine("AllowedIPs", Listed(p.routes))] + [];
    var endpoint := [SettingLine("Endpoint", EndpointText(p.endpoint, p.port))] + routes;
    EntersOne(isKey, "[" + "Peer" + "]", Peer, [SettingLine("PublicKey", p.publicKey)] + endpoint, start);
    SetsOne(isKey, "PublicKey", p.publicKey, endpoint, entered);
    EndpointIsRead(p.endpoint, p.port);
    EndpointFits(p);
    SetsOne(isKey, "Endpoint", EndpointText(p.endpoint, p.port), routes, keyed);
    AllRoutes(p.routes, reached.draft.profile);
    SetsOne(isKey, "AllowedIPs", Listed(p.routes), [], reached);
    NoMoreLines(isKey, reached.(draft := Draft(reached.draft.profile.(routes := RoutesOf(p.routes)), true)));
  }

  lemma EndpointFits(p: Plan)
    requires |p.endpoint| < ENDPOINT_SIZE && |p.port| <= 5
    ensures |EndpointText(p.endpoint, p.port)| < VALUE_SIZE
  {
  }

  lemma NoBreaks(s: string)
    requires Visible(s)
    ensures '\n' !in s
  {
    assert forall i | 0 <= i < |s| :: !IsSpace(s[i]) && s[i] != '\n';
  }

  lemma SettingIsUnbroken(key: string, value: string, rest: seq<string>)
    requires IsName(key) && Visible(value) && Unbroken(rest)
    ensures Unbroken([SettingLine(key, value)] + rest)
  {
    NoBreaks(value);
    assert forall i | 0 <= i < |key| :: IsAlnum(key[i]) && key[i] != '\n';
    UnbrokenCons(SettingLine(key, value), rest);
  }

  lemma HeadersAreUnbroken()
    ensures '\n' !in "[" + "Interface" + "]" && '\n' !in "[" + "Peer" + "]"
  {
  }

  lemma ValuesAreVisible(isKey: string -> bool, p: Plan)
    requires Sensible(isKey, p)
    ensures Visible(p.privateKey) && Visible(p.publicKey) && Visible(PrintNet(p.host)) && Visible(Listed(p.routes))
    ensures Visible(EndpointText(p.endpoint, p.port))
  {
    hide PrintNet, Listed, EndpointText, Visible, Value, HostCharacters, HostProblem;
    NetIsVisible(p.host);
    ListedCharacters(p.routes);
    ListIsVisible(Listed(p.routes));
    EndpointIsRead(p.endpoint, p.port);
  }

  lemma NetIsVisible(net: Net)
    requires net.prefix <= 32
    ensures Visible(PrintNet(net))
  {
    hide PrintNet;
    PrintedNetCharacters(net);
    assert forall k | 0 <= k < |PrintNet(net)| :: InNet(PrintNet(net)[k]) && !IsSpace(PrintNet(net)[k]);
  }

  lemma LinesAreUnbroken(isKey: string -> bool, p: Plan)
    requires Sensible(isKey, p)
    ensures Unbroken(Lines(p))
  {
    ValuesAreVisible(isKey, p);
    InterfaceKeys();
    PeerKeys();
    HeadersAreUnbroken();
    hide SettingLine, SettingOf, PrintNet, Listed, EndpointText, Visible, IsName, Unbroken, Sensible;
    var routes := [SettingLine("AllowedIPs", Listed(p.routes))] + [];
    var endpoint := [SettingLine("Endpoint", EndpointText(p.endpoint, p.port))] + routes;
    var peer := [SettingLine("PublicKey", p.publicKey)] + endpoint;
    var address := [SettingLine("Address", PrintNet(p.host))] + PeerLines(p);
    NothingIsUnbroken();
    SettingIsUnbroken("AllowedIPs", Listed(p.routes), []);
    SettingIsUnbroken("Endpoint", EndpointText(p.endpoint, p.port), routes);
    SettingIsUnbroken("PublicKey", p.publicKey, endpoint);
    UnbrokenCons("[" + "Peer" + "]", peer);
    SettingIsUnbroken("Address", PrintNet(p.host), PeerLines(p));
    SettingIsUnbroken("PrivateKey", p.privateKey, address);
    UnbrokenCons("[" + "Interface" + "]", [SettingLine("PrivateKey", p.privateKey)] + address);
  }

  lemma NothingIsUnbroken()
    ensures Unbroken([])
  {
  }

  /** A sensible profile written out in the usual layout is accepted, and read back as it was. */
  lemma WrittenProfileIsRead(isKey: string -> bool, p: Plan)
    requires Sensible(isKey, p)
    ensures ParseText(isKey, Unlines(Lines(p))) == Ok(Expected(p))
  {
    hide RunLines, Lines, PeerLines, Unlines, Pieces, Format, Mask, HostProblem, Value, RouteOf, IsDefaultRoute;
    LinesAreUnbroken(isKey, p);
    PiecesOfLines(Lines(p));
    InterfaceIsRead(isKey, p);
    PeerIsRead(isKey, p, EMPTY.(privateKey := p.privateKey, address := Format(p.host.address), netmask := Format(Mask(p.host.prefix))));
    DefaultRouteAmong(p.routes);
  }
}
