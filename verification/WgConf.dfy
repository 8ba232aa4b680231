/**
 * The wg-quick parser. `ParseWireGuardConf` moves cursors over the text and fills the profile in
 * place; `ParseText` says line by line what it computes; `AcceptedExactlyWhen` says what the
 * accepted texts are without any state at all.
 */
module WgConf {
  import opened Common
  import opened CText
  import opened Ipv4

  const MAX_ROUTES := 4
  const NAME_SIZE := 24
  const KEY_SIZE := 32
  const VALUE_SIZE := 128
  const ALLOWED_SIZE := 256
  const ENTRY_SIZE := 64
  const ENDPOINT_SIZE := 64
  const WG_KEY_SIZE := 46
  const ADDRESS_SIZE := 16

  datatype Problem =
    | MalformedHeader | ManyInterfaces | ManyPeers | NotKeyValue
    | BadPrivateKey | AddressListTooLong | AddressTooLong | AddressNotIpv4 | ManyAddresses
    | AddressReserved | AddressNotHost | BadMtu
    | BadPublicKey | BadPresharedKey
    | EndpointTooLong | EndpointIpv6 | EndpointNotHostPort | EndpointHostSize | EndpointHostCharacters | EndpointPort
    | BadKeepalive | RoutesTooLong | RouteTooLong | RouteNotIpv4 | TooManyRoutes
    | MissingSection | MissingPrivateKey | MissingPublicKey | MissingAddress | MissingEndpoint | MissingRoute
    | NoDefaultRoute

  datatype Result<+T> = Ok(value: T) | Err(problem: Problem)

  datatype Route = Route(address: string, netmask: string)

  datatype Profile = Profile(
    privateKey: string, publicKey: string, presharedKey: string,
    address: string, netmask: string, endpoint: string,
    port: nat, keepalive: nat, mtu: nat, routes: seq<Route>)

  /** After `memset` and the default MTU. */
  const EMPTY: Profile := Profile("", "", "", "", "", "", 0, 0, 1420, [])

  /**
   * `isWgKey` is base64 decoding to 32 bytes, a library call on a value without line breaks. All that is used of it is that
   * 32 bytes take 44 characters.
   */
  ghost predicate KeyContract(isKey: string -> bool) {
    forall v :: isKey(v) ==> |v| == 44
  }

  // ------------------------------------------------------------------------------------
  // Lists of addresses
  // ------------------------------------------------------------------------------------

  /** What `handleAddress` fills in. */
  datatype Draft = Draft(profile: Profile, addressSeen: bool)

  /** Empty entries and IPv6 entries are passed over. */
  predicate Skipped(entry: string) {
    entry == "" || ':' in entry
  }

  function Top(a: bv32): bv32 { a >> 24 }

  predicate HostBitsZero(a: bv32, mask: bv32) { a & !mask == 0 }
  predicate HostBitsOnes(a: bv32, mask: bv32) { a & !mask == !mask }

  /** An address one host can have: not 0/8, not 224/3, not its subnet's first or last address. */
  function HostProblem(net: Net): Option<Problem>
    requires net.prefix <= 32
  {
    if Top(net.address) == 0 || Top(net.address) >= 224 then Some(AddressReserved)
    else if net.prefix < 32 &&
            (HostBitsZero(net.address, Mask(net.prefix)) || HostBitsOnes(net.address, Mask(net.prefix)))
    then Some(AddressNotHost)
    else None
  }

  function AddHost(draft: Draft, net: Net): Draft
    requires net.prefix <= 32
  {
    Draft(draft.profile.(address := Format(net.address), netmask := Format(Mask(net.prefix))), true)
  }

  /** One entry of an Address list. */
  function AddressEntry(piece: string, draft: Draft): Result<Draft> {
    match Fitted(piece, ENTRY_SIZE)
    case None => Err(AddressTooLong)
    case Some(entry) =>
      if Skipped(entry) then Ok(draft)
      else match ParseNet(entry)
        case None => Err(AddressNotIpv4)
        case Some(net) =>
          if draft.addressSeen then Err(ManyAddresses)
          else match HostProblem(net)
            case Some(problem) => Err(problem)
            case None => Ok(AddHost(draft, net))
  }

  function AddressEntries(pieces: seq<string>, draft: Draft): Result<Draft>
    decreases |pieces|
  {
    if pieces == [] then Ok(draft)
    else match AddressEntry(pieces[0], draft)
      case Err(problem) => Err(problem)
      case Ok(next) => AddressEntries(pieces[1..], next)
  }

  /** The canonical form that is stored. */
  function RouteOf(net: Net): (r: Route)
    requires net.prefix <= 32
  {
    Route(Format(net.address & Mask(net.prefix)), Format(Mask(net.prefix)))
  }

  function RouteEntry(piece: string, profile: Profile): Result<Profile> {
    match Fitted(piece, ENTRY_SIZE)
    case None => Err(RouteTooLong)
    case Some(entry) =>
      if Skipped(entry) then Ok(profile)
      else match ParseNet(entry)
        case None => Err(RouteNotIpv4)
        case Some(net) =>
          if |profile.routes| >= MAX_ROUTES then Err(TooManyRoutes)
          else Ok(profile.(routes := profile.routes + [RouteOf(net)]))
  }

  function RouteEntries(pieces: seq<string>, profile: Profile): Result<Profile>
    decreases |pieces|
  {
    if pieces == [] then Ok(profile)
    else match RouteEntry(pieces[0], profile)
      case Err(problem) => Err(problem)
      case Ok(next) => RouteEntries(pieces[1..], next)
  }

  // ------------------------------------------------------------------------------------
  // Endpoint
  // ------------------------------------------------------------------------------------

  predicate HostCharacters(host: string) {
    forall i | 0 <= i < |host| :: IsAlnum(host[i]) || host[i] == '.' || host[i] == '-'
  }

  datatype HostPort = HostPort(host: string, port: nat)

  /** The text before the last colon is the host, the text after it the port. */
  function ParseEndpoint(value: string): (r: Result<HostPort>)
    ensures r.Ok? ==> 0 < |r.value.host| < ENDPOINT_SIZE && HostCharacters(r.value.host) && 1 <= r.value.port <= 65535
  {
    if value != "" && value[0] == '[' then Err(EndpointIpv6)
    else match LastIndexOf(value, ':')
      case None => Err(EndpointNotHostPort)
      case Some(i) =>
        if i == 0 then Err(EndpointNotHostPort)
        else match Fitted(value[..i], ENDPOINT_SIZE)
          case None => Err(EndpointHostSize)
          case Some(host) =>
            if host == "" then Err(EndpointHostSize)
            else if !HostCharacters(host) then Err(EndpointHostCharacters)
            else match BoundedNumber(value[i + 1..], 1, 65535)
              case None => Err(EndpointPort)
              case Some(port) => Ok(HostPort(host, port))
  }

  // ------------------------------------------------------------------------------------
  // Lines
  // ------------------------------------------------------------------------------------

  datatype Section = NoSection | Interface | Peer | Other

  datatype Setting =
    | PrivateKey | Address | Mtu
    | PublicKey | PresharedKey | Endpoint | Keepalive | AllowedIps
    | Ignored

  datatype Line =
    | Blank
    | Bad(problem: Problem)
    | Header(section: Section)
    | Assignment(key: string, value: string)

  function SectionNamed(name: string): Section {
    if SameIgnoringCase(name, "Interface") then Interface
    else if SameIgnoringCase(name, "Peer") then Peer
    else Other
  }

  /** Which setting a key names depends on the section it is in. */
  function SettingOf(section: Section, key: string): Setting {
    match section
    case Interface =>
      if SameIgnoringCase(key, "PrivateKey") then PrivateKey
      else if SameIgnoringCase(key, "Address") then Address
      else if SameIgnoringCase(key, "MTU") then Mtu
      else Ignored
    case Peer =>
      if SameIgnoringCase(key, "PublicKey") then PublicKey
      else if SameIgnoringCase(key, "PresharedKey") then PresharedKey
      else if SameIgnoringCase(key, "Endpoint") then Endpoint
      else if SameIgnoringCase(key, "PersistentKeepalive") then Keepalive
      else if SameIgnoringCase(key, "AllowedIPs") then AllowedIps
      else Ignored
    case _ => Ignored
  }

  /** A line without surrounding whitespace. */
  function ReadTrimmed(t: string): Line {
    if t == "" || t[0] == '#' || t[0] == ';' then Blank
    else if t[0] == '[' then ReadHeader(t)
    else ReadAssignment(t)
  }

  function ReadHeader(t: string): Line
    requires t != "" && t[0] == '['
  {
    if t[|t| - 1] != ']' then Bad(MalformedHeader)
    else match Fitted(t[1..|t| - 1], NAME_SIZE)
      case None => Bad(MalformedHeader)
      case Some(name) => Header(SectionNamed(name))
  }

  function ReadAssignment(t: string): Line {
    match IndexOf(t, '=')
    case None => Bad(NotKeyValue)
    case Some(i) =>
      match Fitted(t[..i], KEY_SIZE)
      case None => Bad(NotKeyValue)
      case Some(key) => if key == "" then Bad(NotKeyValue) else Assignment(key, Trim(t[i + 1..]))
  }

  function ReadLine(line: string): Line {
    ReadTrimmed(Trim(line))
  }

  // ------------------------------------------------------------------------------------
  // The whole text
  // ------------------------------------------------------------------------------------

  datatype State = State(section: Section, interfaceSeen: bool, peerSeen: bool, draft: Draft)

  const START: State := State(NoSection, false, false, Draft(EMPTY, false))

  function Enter(st: State, section: Section): Result<State> {
    match section
    case Interface => if st.interfaceSeen then Err(ManyInterfaces) else Ok(st.(section := section, interfaceSeen := true))
    case Peer => if st.peerSeen then Err(ManyPeers) else Ok(st.(section := section, peerSeen := true))
    case _ => Ok(st.(section := section))
  }

  function Assign(isKey: string -> bool, setting: Setting, value: string, d: Draft): Result<Draft> {
    match setting
    case Ignored => Ok(d)
    case PrivateKey =>
      if |value| < VALUE_SIZE && isKey(value) then Ok(d.(profile := d.profile.(privateKey := value)))
      else Err(BadPrivateKey)
    case Address =>
      if |value| >= VALUE_SIZE then Err(AddressListTooLong) else AddressEntries(Pieces(value, ','), d)
    case Mtu =>
      if |value| >= VALUE_SIZE then Err(BadMtu)
      else match BoundedNumber(value, 576, 1420) {
        case None => Err(BadMtu)
        case Some(n) => Ok(d.(profile := d.profile.(mtu := n)))
      }
    case PublicKey =>
      if |value| < VALUE_SIZE && isKey(value) then Ok(d.(profile := d.profile.(publicKey := value)))
      else Err(BadPublicKey)
    case PresharedKey =>
      if |value| < VALUE_SIZE && isKey(value) then Ok(d.(profile := d.profile.(presharedKey := value)))
      else Err(BadPresharedKey)
    case Endpoint =>
      if |value| >= VALUE_SIZE then Err(EndpointTooLong)
      else match ParseEndpoint(value) {
        case Err(problem) => Err(problem)
        case Ok(e) => Ok(d.(profile := d.profile.(endpoint := e.host, port := e.port)))
      }
    case Keepalive =>
      if |value| >= VALUE_SIZE then Err(BadKeepalive)
      else match BoundedNumber(value, 0, 65535) {
        case None => Err(BadKeepalive)
        case Some(n) => Ok(d.(profile := d.profile.(keepalive := n)))
      }
    case AllowedIps =>
      if |value| >= ALLOWED_SIZE then Err(RoutesTooLong)
      else match RouteEntries(Pieces(value, ','), d.profile) {
        case Err(problem) => Err(problem)
        case Ok(profile) => Ok(d.(profile := profile))
      }
  }

  function Step(isKey: string -> bool, line: Line, st: State): Result<State> {
    match line
    case Blank => Ok(st)
    case Bad(problem) => Err(problem)
    case Header(section) => Enter(st, section)
    case Assignment(key, value) =>
      match Assign(isKey, SettingOf(st.section, key), value, st.draft)
      case Err(problem) => Err(problem)
      case Ok(draft) => Ok(st.(draft := draft))
  }

  function RunLines(isKey: string -> bool, lines: seq<string>, st: State): Result<State>
    decreases |lines|
  {
    if lines == [] then Ok(st)
    else match Step(isKey, ReadLine(lines[0]), st)
      case Err(problem) => Err(problem)
      case Ok(next) => RunLines(isKey, lines[1..], next)
  }

  predicate IsDefaultRoute(r: Route) {
    r.address == "0.0.0.0" && r.netmask == "0.0.0.0"
  }

  function Missing(st: State): Option<Problem> {
    var p := st.draft.profile;
    if !st.interfaceSeen || !st.peerSeen then Some(MissingSection)
    else if p.privateKey == "" then Some(MissingPrivateKey)
    else if p.publicKey == "" then Some(MissingPublicKey)
    else if !st.draft.addressSeen then Some(MissingAddress)
    else if p.endpoint == "" then Some(MissingEndpoint)
    else if p.routes == [] then Some(MissingRoute)
    else if forall i | 0 <= i < |p.routes| :: !IsDefaultRoute(p.routes[i]) then Some(NoDefaultRoute)
    else None
  }

  function Finish(r: Result<State>): Result<Profile> {
    match r
    case Err(problem) => Err(problem)
    case Ok(st) =>
      match Missing(st)
      case Some(problem) => Err(problem)
      case None => Ok(st.draft.profile)
  }

  function ParseText(isKey: string -> bool, text: string): Result<Profile> {
    Finish(RunLines(isKey, Pieces(text, '\n'), START))
  }

  // ------------------------------------------------------------------------------------
  // The parser itself
  // ------------------------------------------------------------------------------------

  /** `WgProfileConfig`. */
  class WgProfile {
    var privateKey: string
    var publicKey: string
    var presharedKey: string
    var address: string
    var netmask: string
    var endpoint: string
    var port: nat
    var keepalive: nat
    var mtu: nat
    var routes: seq<Route>

    function Contents(): Profile
      reads this
    {
      Profile(privateKey, publicKey, presharedKey, address, netmask, endpoint, port, keepalive, mtu, routes)
    }

    constructor ()
      ensures Contents() == EMPTY.(mtu := 0)
    {
      privateKey, publicKey, presharedKey := "", "", "";
      address, netmask, endpoint := "", "", "";
      port, keepalive, mtu, routes := 0, 0, 0, [];
    }

    method Clear()
      modifies this
      ensures Contents() == EMPTY
    {
      privateKey, publicKey, presharedKey := "", "", "";
      address, netmask, endpoint := "", "", "";
      port, keepalive, mtu, routes := 0, 0, 1420, [];
    }
  }

  /** A method failed with the specification's problem, or succeeded with its value. */
  ghost predicate Reports<T>(specified: Result<T>, failed: Option<Problem>, value: T) {
    match specified
    case Err(problem) => failed == Some(problem)
    case Ok(v) => failed == None && value == v
  }

  method HandleAddress(value: string, profile: WgProfile, addressSeen: bool)
    returns (failed: Option<Problem>, seen: bool)
    modifies profile
    ensures Reports(AddressEntries(Pieces(value, ','), Draft(old(profile.Contents()), addressSeen)),
                    failed, Draft(profile.Contents(), seen))
  {
    hide Format, ParseNet, HostProblem, Pieces, Skipped;
    seen := addressSeen;
    var cursor := 0;
    assert value[0..] == value;
    while cursor < |value|
      invariant cursor <= |value|
      invariant AddressEntries(Pieces(value, ','), Draft(old(profile.Contents()), addressSeen))
             == AddressEntries(Pieces(value[cursor..], ','), Draft(profile.Contents(), seen))
    {
      var end, next := NextPiece(value, cursor, ',');
      ghost var rest := Pieces(value[next..], ',');
      assert ([value[cursor..end]] + rest)[1..] == rest;
      var fitted := CopyTrimmed(value, cursor, end, ENTRY_SIZE);
      if fitted.None? { return Some(AddressTooLong), seen; }
      cursor := next;
      var entry := fitted.value;
      if Skipped(entry) { continue; }
      var net := ParseIpv4WithPrefix(entry);
      if net.None? { return Some(AddressNotIpv4), seen; }
      if seen { return Some(ManyAddresses), seen; }
      var problem := HostProblem(net.value);
      if problem.Some? { return problem, seen; }
      seen := true;
      profile.address := Format(net.value.address);
      profile.netmask := Format(Mask(net.value.prefix));
    }
    NoPieces(',');
    assert value[cursor..] == [];
    return None, seen;
  }

  method HandleAllowedIps(value: string, profile: WgProfile) returns (failed: Option<Problem>)
    modifies profile
    ensures Reports(RouteEntries(Pieces(value, ','), old(profile.Contents())), failed, profile.Contents())
  {
    hide Format, ParseNet, Pieces, Skipped;
    var cursor := 0;
    assert value[0..] == value;
    while cursor < |value|
      invariant cursor <= |value|
      invariant RouteEntries(Pieces(value, ','), old(profile.Contents()))
             == RouteEntries(Pieces(value[cursor..], ','), profile.Contents())
    {
      var end, next := NextPiece(value, cursor, ',');
      ghost var rest := Pieces(value[next..], ',');
      assert ([value[cursor..end]] + rest)[1..] == rest;
      var fitted := CopyTrimmed(value, cursor, end, ENTRY_SIZE);
      if fitted.None? { return Some(RouteTooLong); }
      cursor := next;
      var entry := fitted.value;
      if Skipped(entry) { continue; }
      var net := ParseIpv4WithPrefix(entry);
      if net.None? { return Some(RouteNotIpv4); }
      if |profile.routes| >= MAX_ROUTES { return Some(TooManyRoutes); }
      var mask := Mask(net.value.prefix);
      profile.routes := profile.routes + [Route(Format(net.value.address & mask), Format(mask))];
    }
    NoPieces(',');
    assert value[cursor..] == [];
    return None;
  }

  method ScanHost(host: string) returns (legal: bool)
    ensures legal == HostCharacters(host)
  {
    var c := 0;
    while c < |host|
      invariant c <= |host|
      invariant forall k | 0 <= k < c :: IsAlnum(host[k]) || host[k] == '.' || host[k] == '-'
    {
      if !IsAlnum(host[c]) && host[c] != '.' && host[c] != '-' { return false; }
      c := c + 1;
    }
    return true;
  }

  method HandleEndpoint(value: string, profile: WgProfile) returns (failed: Option<Problem>)
    modifies profile
    ensures Reports(ParseEndpoint(value), failed, HostPort(profile.endpoint, profile.port))
    ensures profile.Contents() == old(profile.Contents()).(endpoint := profile.endpoint, port := profile.port)
  {
    hide BoundedNumber, HostCharacters, Trim;
    if value != "" && value[0] == '[' { return Some(EndpointIpv6); }
    var separator := LastIndexOf(value, ':');
    if separator.None? || separator.value == 0 { return Some(EndpointNotHostPort); }
    var i := separator.value;
    assert value[0..i] == value[..i];
    var fitted := CopyTrimmed(value, 0, i, ENDPOINT_SIZE);
    if fitted.None? || fitted.value == "" { return Some(EndpointHostSize); }
    var host := fitted.value;
    profile.endpoint := host;
    var legal := ScanHost(host);
    if !legal { return Some(EndpointHostCharacters); }
    var port := BoundedNumber(value[i + 1..], 1, 65535);
    if port.None? { return Some(EndpointPort); }
    profile.port := port.value;
    return None;
  }

  /** The branches on section and key. */
  method HandleSetting(isKey: string -> bool, setting: Setting, value: string, profile: WgProfile, addressSeen: bool)
    returns (failed: Option<Problem>, seen: bool)
    modifies profile
    ensures Reports(Assign(isKey, setting, value, Draft(old(profile.Contents()), addressSeen)),
                    failed, Draft(profile.Contents(), seen))
  {
    hide AddressEntries, RouteEntries, ParseEndpoint, BoundedNumber, Pieces;
    seen, failed := addressSeen, None;
    var valueFits := |value| < VALUE_SIZE;
    match setting {
      case Ignored =>
      case PrivateKey =>
        if !valueFits || !isKey(value) { return Some(BadPrivateKey), seen; }
        profile.privateKey := value;
      case Address =>
        if !valueFits { return Some(AddressListTooLong), seen; }
        failed, seen := HandleAddress(value, profile, addressSeen);
      case Mtu =>
        var n := BoundedNumber(value, 576, 1420);
        if !valueFits || n.None? { return Some(BadMtu), seen; }
        profile.mtu := n.value;
      case PublicKey =>
        if !valueFits || !isKey(value) { return Some(BadPublicKey), seen; }
        profile.publicKey := value;
      case PresharedKey =>
        if !valueFits || !isKey(value) { return Some(BadPresharedKey), seen; }
        profile.presharedKey := value;
      case Endpoint =>
        if !valueFits { return Some(EndpointTooLong), seen; }
        failed := HandleEndpoint(value, profile);
      case Keepalive =>
        var n := BoundedNumber(value, 0, 65535);
        if !valueFits || n.None? { return Some(BadKeepalive), seen; }
        profile.keepalive := n.value;
      case AllowedIps =>
        if |value| >= ALLOWED_SIZE { return Some(RoutesTooLong), seen; }
        failed := HandleAllowedIps(value, profile);
    }
  }

  /** One line without surrounding whitespace: header, assignment or neither. */
  method HandleLine(isKey: string -> bool, line: string, profile: WgProfile,
                    section0: Section, interfaceSeen0: bool, peerSeen0: bool, addressSeen0: bool)
    returns (failed: Option<Problem>, section: Section, interfaceSeen: bool, peerSeen: bool, addressSeen: bool)
    modifies profile
    ensures Reports(Step(isKey, ReadTrimmed(line),
                         State(section0, interfaceSeen0, peerSeen0, Draft(old(profile.Contents()), addressSeen0))),
                    failed, State(section, interfaceSeen, peerSeen, Draft(profile.Contents(), addressSeen)))
  {
    hide Assign, ReadHeader, ReadAssignment, SettingOf;
    failed := None;
    section, interfaceSeen, peerSeen, addressSeen := section0, interfaceSeen0, peerSeen0, addressSeen0;
    if line == "" || line[0] == '#' || line[0] == ';' { return; }
    if line[0] == '[' {
      HeaderIsHeader(line);
      var header := ReadHeader(line);
      if header.Bad? { failed := Some(header.problem); return; }
      section := header.section;
      match section {
        case Interface =>
          if interfaceSeen { failed := Some(ManyInterfaces); }
          interfaceSeen := true;
        case Peer =>
          if peerSeen { failed := Some(ManyPeers); }
          peerSeen := true;
        case _ =>
      }
      return;
    }
    AssignmentIsAssignment(line);
    var assignment := ReadAssignment(line);
    if assignment.Bad? { failed := Some(assignment.problem); return; }
    failed, addressSeen :=
      HandleSetting(isKey, SettingOf(section, assignment.key), assignment.value, profile, addressSeen);
  }

  /** The loop over the lines, from a freshly cleared profile. */
  method ReadLines(isKey: string -> bool, text: string, profile: WgProfile)
    returns (failed: Option<Problem>, section: Section, interfaceSeen: bool, peerSeen: bool, addressSeen: bool)
    requires profile.Contents() == EMPTY
    modifies profile
    ensures Reports(RunLines(isKey, Pieces(text, '\n'), START), failed,
                    State(section, interfaceSeen, peerSeen, Draft(profile.Contents(), addressSeen)))
  {
    hide Step, Pieces, ReadTrimmed, RunLines, Trim, profile.Contents;
    section, interfaceSeen, peerSeen, addressSeen := NoSection, false, false, false;
    failed := None;
    var cursor := 0;
    assert text[0..] == text;
    while cursor < |text|
      invariant cursor <= |text| && failed == None
      invariant RunLines(isKey, Pieces(text, '\n'), START)
             == RunLines(isKey, Pieces(text[cursor..], '\n'),
                         State(section, interfaceSeen, peerSeen, Draft(profile.Contents(), addressSeen)))
    {
      var end, next := NextPiece(text, cursor, '\n');
      FirstLine(isKey, text[cursor..end], Pieces(text[next..], '\n'),
                State(section, interfaceSeen, peerSeen, Draft(profile.Contents(), addressSeen)));
      var b, e := TrimBounds(text, cursor, end);
      cursor := next;
      failed, section, interfaceSeen, peerSeen, addressSeen :=
        HandleLine(isKey, text[b..e], profile, section, interfaceSeen, peerSeen, addressSeen);
      if failed.Some? { return; }
    }
    NoPieces('\n');
    assert text[cursor..] == [];
    NoMoreLines(isKey, State(section, interfaceSeen, peerSeen, Draft(profile.Contents(), addressSeen)));
  }

  /** `parseWireGuardConf`. */
  method ParseWireGuardConf(isKey: string -> bool, text: string, profile: WgProfile) returns (failed: Option<Problem>)
    modifies profile
    ensures Reports(ParseText(isKey, text), failed, profile.Contents())
  {
    hide Pieces, RunLines, Missing, profile.Contents;
    profile.Clear();
    var section, interfaceSeen, peerSeen, addressSeen;
    failed, section, interfaceSeen, peerSeen, addressSeen := ReadLines(isKey, text, profile);
    if failed.Some? { return; }
    failed := CheckComplete(interfaceSeen, peerSeen, addressSeen, profile.Contents(), section);
  }

  lemma FirstLine(isKey: string -> bool, line: string, rest: seq<string>, st: State)
    ensures RunLines(isKey, [line] + rest, st) ==
              var r := Step(isKey, ReadTrimmed(Trim(line)), st);
              if r.Err? then r else RunLines(isKey, rest, r.value)
  {
    hide Step, ReadTrimmed, Trim;
    assert ([line] + rest)[1..] == rest;
  }

  lemma NoMoreLines(isKey: string -> bool, st: State)
    ensures RunLines(isKey, [], st) == Ok(st)
  {
  }

  lemma HeaderIsHeader(t: string)
    requires t != "" && t[0] == '['
    ensures ReadHeader(t).Bad? || ReadHeader(t).Header?
  {
  }

  lemma AssignmentIsAssignment(t: string)
    ensures ReadAssignment(t).Bad? || ReadAssignment(t).Assignment?
  {
  }

  /** The checks after the last line; the default route is searched for. */
  method CheckComplete(interfaceSeen: bool, peerSeen: bool, addressSeen: bool, p: Profile, section: Section)
    returns (failed: Option<Problem>)
    ensures failed == Missing(State(section, interfaceSeen, peerSeen, Draft(p, addressSeen)))
  {
    hide IsDefaultRoute;
    if !interfaceSeen || !peerSeen { return Some(MissingSection); }
    if p.privateKey == "" { return Some(MissingPrivateKey); }
    if p.publicKey == "" { return Some(MissingPublicKey); }
    if !addressSeen { return Some(MissingAddress); }
    if p.endpoint == "" { return Some(MissingEndpoint); }
    if |p.routes| == 0 { return Some(MissingRoute); }
    var hasDefaultRoute, i := false, 0;
    while i < |p.routes| && !hasDefaultRoute
      invariant i <= |p.routes|
      invariant !hasDefaultRoute ==> forall k | 0 <= k < i :: !IsDefaultRoute(p.routes[k])
      invariant hasDefaultRoute ==> i < |p.routes| && IsDefaultRoute(p.routes[i])
      decreases |p.routes| - i, !hasDefaultRoute
    {
      if IsDefaultRoute(p.routes[i]) { hasDefaultRoute := true; } else { i := i + 1; }
    }
    if !hasDefaultRoute { return Some(NoDefaultRoute); }
    return None;
  }
}
