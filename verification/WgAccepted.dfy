/** Which wg-quick texts are accepted, and what the accepted profile is, without any parser state. */
module WgAccepted {
  import opened Common
  import opened CText
  import opened Ipv4
  import opened WgConf
  import opened WgLines

  // ------------------------------------------------------------------------------------
  // What a text says
  // ------------------------------------------------------------------------------------

  datatype Item = Item(setting: Setting, value: string)

  /** The assignments of a text, each read in the section it stands in. */
  function Items(lines: seq<string>, section: Section): seq<Item>
    decreases |lines|
  {
    if lines == [] then []
    else match ReadLine(lines[0])
      case Header(next) => Items(lines[1..], next)
      case Assignment(key, value) => [Item(SettingOf(section, key), value)] + Items(lines[1..], section)
      case _ => Items(lines[1..], section)
  }

  function Headers(lines: seq<string>, section: Section): nat
    decreases |lines|
  {
    if lines == [] then 0
    else (if ReadLine(lines[0]) == Header(section) then 1 else 0) + Headers(lines[1..], section)
  }

  /** The values given to one setting, in order. */
  function Values(items: seq<Item>, setting: Setting): seq<string>
    decreases |items|
  {
    if items == [] then []
    else (if items[0].setting == setting then [items[0].value] else []) + Values(items[1..], setting)
  }

  /** The IPv4 networks in a list of entries; empty and IPv6 entries say nothing. */
  function NetsOf(pieces: seq<string>): (nets: seq<Net>)
    ensures forall i | 0 <= i < |nets| :: nets[i].prefix <= 32
    decreases |pieces|
  {
    if pieces == [] then []
    else EntryNets(pieces[0]) + NetsOf(pieces[1..])
  }

  function EntryNets(piece: string): (nets: seq<Net>)
    ensures forall i | 0 <= i < |nets| :: nets[i].prefix <= 32
  {
    if Skipped(Trim(piece)) then []
    else match ParseNet(Trim(piece))
      case None => []
      case Some(net) => [net]
  }

  /** All the networks given to one setting. */
  function Nets(items: seq<Item>, setting: Setting): (nets: seq<Net>)
    ensures forall i | 0 <= i < |nets| :: nets[i].prefix <= 32
    decreases |items|
  {
    if items == [] then []
    else (if items[0].setting == setting then NetsOf(Pieces(items[0].value, ',')) else []) + Nets(items[1..], setting)
  }

  predicate LegalEntry(piece: string) {
    var entry := Trim(piece);
    |entry| <= 63 && (Skipped(entry) || ParseNet(entry).Some?)
  }

  /** An entry of an Address list has to be an address a host can have, too. */
  predicate LegalHost(piece: string) {
    LegalEntry(piece) && forall i | 0 <= i < |EntryNets(piece)| :: HostProblem(EntryNets(piece)[i]).None?
  }

  predicate LegalItem(isKey: string -> bool, item: Item) {
    var v := item.value;
    match item.setting
    case Ignored => true
    case PrivateKey | PublicKey | PresharedKey => |v| <= 127 && isKey(v)
    case Mtu => |v| <= 127 && BoundedNumber(v, 576, 1420).Some?
    case Keepalive => |v| <= 127 && BoundedNumber(v, 0, 65535).Some?
    case Endpoint => |v| <= 127 && ParseEndpoint(v).Ok?
    case Address => |v| <= 127 && forall piece | piece in Pieces(v, ',') :: LegalHost(piece)
    case AllowedIps => |v| <= 255 && forall piece | piece in Pieces(v, ',') :: LegalEntry(piece)
  }

  predicate LegalItems(isKey: string -> bool, items: seq<Item>) {
    forall i | 0 <= i < |items| :: LegalItem(isKey, items[i])
  }

  predicate LegalLines(lines: seq<string>) {
    forall i | 0 <= i < |lines| :: !ReadLine(lines[i]).Bad?
  }

  /** Everything acceptance asks of a text. */
  predicate Acceptable(isKey: string -> bool, lines: seq<string>) {
    var items := Items(lines, NoSection);
    var routes := Nets(items, AllowedIps);
    && LegalLines(lines) && LegalItems(isKey, items)
    && Headers(lines, Interface) == 1 && Headers(lines, Peer) == 1
    && Values(items, PrivateKey) != [] && Values(items, PublicKey) != [] && Values(items, Endpoint) != []
    && |Nets(items, Address)| == 1
    && 1 <= |routes| <= 4
    && exists i | 0 <= i < |routes| :: routes[i].prefix == 0
  }

  // ------------------------------------------------------------------------------------
  // Entries
  // ------------------------------------------------------------------------------------

  function Count(b: bool): nat { if b then 1 else 0 }

  predicate AllHosts(pieces: seq<string>) {
    forall piece | piece in pieces :: LegalHost(piece)
  }

  predicate AllEntries(pieces: seq<string>) {
    forall piece | piece in pieces :: LegalEntry(piece)
  }

  lemma AddressEntryMeans(piece: string, d: Draft)
    ensures AddressEntry(piece, d).Ok? <==> LegalHost(piece) && Count(d.addressSeen) + |EntryNets(piece)| <= 1
    ensures AddressEntry(piece, d).Ok? ==>
              AddressEntry(piece, d).value == if EntryNets(piece) == [] then d else AddHost(d, EntryNets(piece)[0])
  {
    hide HostProblem, ParseNet, AddHost, Trim, Skipped;
    var nets := EntryNets(piece);
    if nets != [] { assert HostProblem(nets[0]).None? <==> forall i | 0 <= i < |nets| :: HostProblem(nets[i]).None?; }
  }

  lemma {:induction false} AddressEntriesMean(pieces: seq<string>, d: Draft)
    ensures AddressEntries(pieces, d).Ok? <==> AllHosts(pieces) && Count(d.addressSeen) + |NetsOf(pieces)| <= 1
    ensures AddressEntries(pieces, d).Ok? ==>
              AddressEntries(pieces, d).value == if NetsOf(pieces) == [] then d else AddHost(d, NetsOf(pieces)[0])
    decreases |pieces|
  {
    hide AddressEntry, LegalHost, EntryNets;
    if pieces != [] {
      AddressEntryMeans(pieces[0], d);
      AllHostsStep(pieces);
      if AddressEntry(pieces[0], d).Ok? {
        var next := AddressEntry(pieces[0], d).value;
        AddressEntriesMean(pieces[1..], next);
        assert next.addressSeen == (d.addressSeen || EntryNets(pieces[0]) != []);
      }
    }
  }

  lemma AllHostsStep(pieces: seq<string>)
    requires pieces != []
    ensures AllHosts(pieces) <==> LegalHost(pieces[0]) && AllHosts(pieces[1..])
  {
    hide LegalHost;
    assert pieces == [pieces[0]] + pieces[1..];
  }

  function RoutesOf(nets: seq<Net>): (routes: seq<Route>)
    requires forall i | 0 <= i < |nets| :: nets[i].prefix <= 32
    ensures |routes| == |nets| && forall i | 0 <= i < |nets| :: routes[i] == RouteOf(nets[i])
  {
    seq(|nets|, i requires 0 <= i < |nets| => RouteOf(nets[i]))
  }

  lemma RouteEntryMeans(piece: string, p: Profile)
    requires |p.routes| <= MAX_ROUTES
    ensures RouteEntry(piece, p).Ok? <==> LegalEntry(piece) && |p.routes| + |EntryNets(piece)| <= MAX_ROUTES
    ensures RouteEntry(piece, p).Ok? ==>
              RouteEntry(piece, p).value == p.(routes := p.routes + RoutesOf(EntryNets(piece)))
  {
    hide ParseNet, RouteOf, Trim, Skipped;
    if EntryNets(piece) == [] {
      assert p.routes + RoutesOf(EntryNets(piece)) == p.routes;
    } else {
      assert RoutesOf(EntryNets(piece)) == [RouteOf(EntryNets(piece)[0])];
    }
  }

  lemma {:induction false} RouteEntriesMean(pieces: seq<string>, p: Profile)
    requires |p.routes| <= MAX_ROUTES
    ensures RouteEntries(pieces, p).Ok? <==> AllEntries(pieces) && |p.routes| + |NetsOf(pieces)| <= MAX_ROUTES
    ensures RouteEntries(pieces, p).Ok? ==>
              RouteEntries(pieces, p).value == p.(routes := p.routes + RoutesOf(NetsOf(pieces)))
    decreases |pieces|
  {
    hide RouteEntry, LegalEntry, EntryNets, RouteOf;
    if pieces == [] {
      assert p.routes + RoutesOf(NetsOf(pieces)) == p.routes;
    } else {
      RouteEntryMeans(pieces[0], p);
      AllEntriesStep(pieces);
      if RouteEntry(pieces[0], p).Ok? {
        var next := RouteEntry(pieces[0], p).value;
        RouteEntriesMean(pieces[1..], next);
        RoutesConcat(p.routes, EntryNets(pieces[0]), NetsOf(pieces[1..]));
      }
    }
  }

  lemma RoutesConcat(routes: seq<Route>, a: seq<Net>, b: seq<Net>)
    requires forall i | 0 <= i < |a| :: a[i].prefix <= 32
    requires forall i | 0 <= i < |b| :: b[i].prefix <= 32
    requires forall i | 0 <= i < |a + b| :: (a + b)[i].prefix <= 32
    ensures (routes + RoutesOf(a)) + RoutesOf(b) == routes + RoutesOf(a + b)
  {
    hide RouteOf;
    assert RoutesOf(a) + RoutesOf(b) == RoutesOf(a + b);
  }

  lemma AllEntriesStep(pieces: seq<string>)
    requires pieces != []
    ensures AllEntries(pieces) <==> LegalEntry(pieces[0]) && AllEntries(pieces[1..])
  {
    hide LegalEntry;
    assert pieces == [pieces[0]] + pieces[1..];
  }

  // ------------------------------------------------------------------------------------
  // Items
  // ------------------------------------------------------------------------------------

  function RunItems(isKey: string -> bool, items: seq<Item>, d: Draft): Result<Draft>
    decreases |items|
  {
    if items == [] then Ok(d)
    else match Assign(isKey, items[0].setting, items[0].value, d)
      case Err(problem) => Err(problem)
      case Ok(next) => RunItems(isKey, items[1..], next)
  }

  function ItemNets(item: Item, setting: Setting): (nets: seq<Net>)
    ensures forall i | 0 <= i < |nets| :: nets[i].prefix <= 32
  {
    if item.setting == setting then NetsOf(Pieces(item.value, ',')) else []
  }

  lemma AssignMeans(isKey: string -> bool, item: Item, d: Draft)
    requires |d.profile.routes| <= MAX_ROUTES
    ensures var r := Assign(isKey, item.setting, item.value, d);
            var hosts, nets := ItemNets(item, Address), ItemNets(item, AllowedIps);
            && (r.Ok? <==> && LegalItem(isKey, item)
                           && Count(d.addressSeen) + |hosts| <= 1
                           && |d.profile.routes| + |nets| <= MAX_ROUTES)
            && (r.Ok? ==> && r.value.addressSeen == (d.addressSeen || hosts != [])
                          && r.value.profile.routes == d.profile.routes + RoutesOf(nets)
                          && r.value.profile.address == (if hosts == [] then d.profile.address else Format(hosts[0].address))
                          && r.value.profile.netmask == if hosts == [] then d.profile.netmask else Format(Mask(hosts[0].prefix)))
  {
    hide AddressEntries, RouteEntries, NetsOf, Pieces, ParseEndpoint, BoundedNumber, Format, Mask, LegalHost, LegalEntry;
    var pieces := Pieces(item.value, ',');
    if item.setting == Address {
      AddressEntriesMean(pieces, d);
      assert AllHosts(pieces) <==> forall piece | piece in pieces :: LegalHost(piece);
    } else if item.setting == AllowedIps {
      RouteEntriesMean(pieces, d.profile);
      assert AllEntries(pieces) <==> forall piece | piece in pieces :: LegalEntry(piece);
    }
    assert d.profile.routes + RoutesOf([]) == d.profile.routes;
  }

  /** The items run through exactly when each is legal and the counts fit; lists collect in order. */
  lemma {:induction false} ItemsMean(isKey: string -> bool, items: seq<Item>, d: Draft)
    requires |d.profile.routes| <= MAX_ROUTES
    ensures var r := RunItems(isKey, items, d);
            var hosts, nets := Nets(items, Address), Nets(items, AllowedIps);
            && (r.Ok? <==> && LegalItems(isKey, items)
                           && Count(d.addressSeen) + |hosts| <= 1
                           && |d.profile.routes| + |nets| <= MAX_ROUTES)
            && (r.Ok? ==> && r.value.addressSeen == (d.addressSeen || hosts != [])
                          && r.value.profile.routes == d.profile.routes + RoutesOf(nets)
                          && r.value.profile.address == (if hosts == [] then d.profile.address else Format(hosts[0].address))
                          && r.value.profile.netmask == if hosts == [] then d.profile.netmask else Format(Mask(hosts[0].prefix)))
    decreases |items|
  {
    hide Assign, LegalItem, NetsOf, Pieces, Format, Mask, RouteOf, RoutesOf;
    if items == [] {
      assert d.profile.routes + RoutesOf([]) == d.profile.routes;
    } else {
      AssignMeans(isKey, items[0], d);
      assert LegalItems(isKey, items) <==> LegalItem(isKey, items[0]) && LegalItems(isKey, items[1..]);
      var first := Assign(isKey, items[0].setting, items[0].value, d);
      if first.Ok? {
        ItemsMean(isKey, items[1..], first.value);
        RoutesConcat(d.profile.routes, ItemNets(items[0], AllowedIps), Nets(items[1..], AllowedIps));
      }
    }
  }

  /** A field that the last assignment decides. */
  datatype Field = Text(text: string) | Amount(number: int) | At(host: string, port: nat) | NoField

  function FieldOf(setting: Setting, p: Profile): Field {
    match setting
    case PrivateKey => Text(p.privateKey)
    case PublicKey => Text(p.publicKey)
    case PresharedKey => Text(p.presharedKey)
    case Mtu => Amount(p.mtu)
    case Keepalive => Amount(p.keepalive)
    case Endpoint => At(p.endpoint, p.port)
    case _ => NoField
  }

  function Meaning(isKey: string -> bool, item: Item): Field
    requires LegalItem(isKey, item)
  {
    match item.setting
    case PrivateKey | PublicKey | PresharedKey => Text(item.value)
    case Mtu => Amount(BoundedNumber(item.value, 576, 1420).value)
    case Keepalive => Amount(BoundedNumber(item.value, 0, 65535).value)
    case Endpoint => At(ParseEndpoint(item.value).value.host, ParseEndpoint(item.value).value.port)
    case _ => NoField
  }

  lemma AssignSetsField(isKey: string -> bool, item: Item, d: Draft, setting: Setting)
    requires LegalItem(isKey, item)
    requires Assign(isKey, item.setting, item.value, d).Ok?
    ensures FieldOf(setting, Assign(isKey, item.setting, item.value, d).value.profile) ==
              if item.setting == setting then Meaning(isKey, item) else FieldOf(setting, d.profile)
  {
    hide AddressEntries, RouteEntries, Pieces, ParseEndpoint, BoundedNumber, LegalHost, LegalEntry;
    if item.setting == Address { AddressEntriesKeepFields(Pieces(item.value, ','), d, setting); }
    if item.setting == AllowedIps { RouteEntriesKeepFields(Pieces(item.value, ','), d.profile, setting); }
  }

  lemma {:induction false} AddressEntriesKeepFields(pieces: seq<string>, d: Draft, setting: Setting)
    requires AddressEntries(pieces, d).Ok?
    ensures FieldOf(setting, AddressEntries(pieces, d).value.profile) == FieldOf(setting, d.profile)
    decreases |pieces|
  {
    hide Format, Mask, ParseNet, HostProblem, Skipped, Trim;
    if pieces != [] { AddressEntriesKeepFields(pieces[1..], AddressEntry(pieces[0], d).value, setting); }
  }

  lemma {:induction false} RouteEntriesKeepFields(pieces: seq<string>, p: Profile, setting: Setting)
    requires RouteEntries(pieces, p).Ok?
    ensures FieldOf(setting, RouteEntries(pieces, p).value) == FieldOf(setting, p)
    decreases |pieces|
  {
    hide RouteOf, ParseNet, Skipped, Trim;
    if pieces != [] { RouteEntriesKeepFields(pieces[1..], RouteEntry(pieces[0], p).value, setting); }
  }

  /** Of several assignments to one setting the last one decides; the others' fields stay as they were. */
  lemma {:induction false} LastWins(isKey: string -> bool, items: seq<Item>, d: Draft, setting: Setting)
    requires LegalItems(isKey, items) && RunItems(isKey, items, d).Ok?
    ensures var values := Values(items, setting);
            FieldOf(setting, RunItems(isKey, items, d).value.profile) ==
              if values == [] then FieldOf(setting, d.profile)
              else
                var last := Item(setting, values[|values| - 1]);
                if LegalItem(isKey, last) then Meaning(isKey, last) else NoField
    ensures forall i | 0 <= i < |Values(items, setting)| :: LegalItem(isKey, Item(setting, Values(items, setting)[i]))
    decreases |items|
  {
    hide Assign, LegalItem, FieldOf, Meaning;
    if items != [] {
      AssignSetsField(isKey, items[0], d, setting);
      LastWins(isKey, items[1..], Assign(isKey, items[0].setting, items[0].value, d).value, setting);
      assert items[0].setting == setting ==> items[0] == Item(setting, items[0].value);
    }
  }

  // ------------------------------------------------------------------------------------
  // Lines
  // ------------------------------------------------------------------------------------

  lemma LegalLinesStep(lines: seq<string>)
    requires lines != []
    ensures LegalLines(lines) <==> !ReadLine(lines[0]).Bad? && LegalLines(lines[1..])
  {
    hide ReadLine;
  }

  /** Headers and assignments do not disturb each other. */
  lemma {:induction false} LinesAreHeadersAndItems(isKey: string -> bool, lines: seq<string>, st: State)
    ensures var r, d := RunLines(isKey, lines, st), RunItems(isKey, Items(lines, st.section), st.draft);
            && (r.Ok? <==> && LegalLines(lines) && d.Ok?
                           && Count(st.interfaceSeen) + Headers(lines, Interface) <= 1
                           && Count(st.peerSeen) + Headers(lines, Peer) <= 1)
            && (r.Ok? ==> && r.value.draft == d.value
                          && r.value.interfaceSeen == (st.interfaceSeen || Headers(lines, Interface) > 0)
                          && r.value.peerSeen == (st.peerSeen || Headers(lines, Peer) > 0))
    decreases |lines|
  {
    hide Assign, ReadLine, SettingOf;
    if lines != [] {
      LegalLinesStep(lines);
      var line := ReadLine(lines[0]);
      var r := Step(isKey, line, st);
      if r.Ok? { LinesAreHeadersAndItems(isKey, lines[1..], r.value); }
      if line.Assignment? {
        var item := Item(SettingOf(st.section, line.key), line.value);
        assert ([item] + Items(lines[1..], st.section))[1..] == Items(lines[1..], st.section);
      }
    }
  }

  // ------------------------------------------------------------------------------------
  // The default route
  // ------------------------------------------------------------------------------------

  lemma FormatOfZero()
    ensures Format(0) == "0.0.0.0"
  {
    assert Octet(0, 0) == 0 && Octet(0, 1) == 0 && Octet(0, 2) == 0 && Octet(0, 3) == 0;
    assert Decimal(0) == "0";
    hide Octet, Decimal;
    assert FormatFrom(0, 3, "") == "0";
    assert FormatFrom(0, 2, "") == "0.0";
    assert FormatFrom(0, 1, "") == "0.0.0";
  }

  /** The textual test finds exactly the routes whose prefix is 0. */
  lemma DefaultRouteHasPrefixZero(net: Net)
    requires net.prefix <= 32
    ensures IsDefaultRoute(RouteOf(net)) <==> net.prefix == 0
  {
    FormatOfZero();
    OnlyPrefixZeroHasZeroMask(net.prefix);
    MaskedIsCanonical(net.address, net.prefix);
    hide Format, Mask;
    FormatIsInjective(Mask(net.prefix), 0);
  }

  lemma DefaultRouteAmong(nets: seq<Net>)
    requires forall i | 0 <= i < |nets| :: nets[i].prefix <= 32
    ensures (exists i | 0 <= i < |nets| :: IsDefaultRoute(RoutesOf(nets)[i]))
       <==> (exists i | 0 <= i < |nets| :: nets[i].prefix == 0)
  {
    hide IsDefaultRoute, RouteOf;
    var routes := RoutesOf(nets);
    forall i | 0 <= i < |nets| ensures IsDefaultRoute(routes[i]) <==> nets[i].prefix == 0 {
      assert routes[i] == RouteOf(nets[i]);
      DefaultRouteHasPrefixZero(nets[i]);
    }
  }

  // ------------------------------------------------------------------------------------
  // Host addresses
  // ------------------------------------------------------------------------------------

  predicate IsFirstOf(a: bv32, mask: bv32) { a == a & mask }
  predicate IsLastOf(a: bv32, mask: bv32) { a == a | !mask }

  lemma ZerosAreFirst(a: bv32, m: bv32)
    ensures HostBitsZero(a, m) ==> IsFirstOf(a, m)
  {
  }

  lemma FirstIsZeros(a: bv32, m: bv32)
    ensures IsFirstOf(a, m) ==> HostBitsZero(a, m)
  {
  }

  lemma OnesAreLast(a: bv32, m: bv32)
    ensures HostBitsOnes(a, m) ==> IsLastOf(a, m)
  {
  }

  lemma LastIsOnes(a: bv32, m: bv32)
    ensures IsLastOf(a, m) ==> HostBitsOnes(a, m)
  {
  }

  lemma FirstOctet(a: bv32)
    ensures Top(a) == 0 <==> Octet(a, 0) == 0
    ensures Top(a) >= 224 <==> Octet(a, 0) >= 224
  {
  }

  /** A usable address has a first octet in 1..223 and is neither the first nor the last of its subnet. */
  lemma UsableHosts(net: Net)
    requires net.prefix <= 32
    ensures HostProblem(net).None? <==>
              && 0 < Octet(net.address, 0) < 224
              && (net.prefix < 32 ==> !IsFirstOf(net.address, Mask(net.prefix)) && !IsLastOf(net.address, Mask(net.prefix)))
  {
    hide Mask, Octet, Top, HostBitsZero, HostBitsOnes, IsFirstOf, IsLastOf;
    var a, m := net.address, Mask(net.prefix);
    FirstOctet(a);
    ZerosAreFirst(a, m);
    FirstIsZeros(a, m);
    OnesAreLast(a, m);
    LastIsOnes(a, m);
  }

  // ------------------------------------------------------------------------------------
  // Acceptance
  // ------------------------------------------------------------------------------------

  /** A setting with a legal value leaves its field non-empty. */
  lemma RequiredFields(isKey: string -> bool, items: seq<Item>)
    requires KeyContract(isKey) && LegalItems(isKey, items) && RunItems(isKey, items, START.draft).Ok?
    ensures var p := RunItems(isKey, items, START.draft).value.profile;
            && (p.privateKey == "" <==> Values(items, PrivateKey) == [])
            && (p.publicKey == "" <==> Values(items, PublicKey) == [])
            && (p.endpoint == "" <==> Values(items, Endpoint) == [])
  {
    hide RunItems, ParseEndpoint;
    LastWins(isKey, items, START.draft, PrivateKey);
    LastWins(isKey, items, START.draft, PublicKey);
    LastWins(isKey, items, START.draft, Endpoint);
  }

  /** The checks after the last line, in terms of the items. */
  lemma NothingMissing(isKey: string -> bool, items: seq<Item>, st: State)
    requires KeyContract(isKey) && LegalItems(isKey, items)
    requires RunItems(isKey, items, START.draft) == Ok(st.draft)
    requires st.draft.addressSeen == (Nets(items, Address) != [])
    requires st.draft.profile.routes == RoutesOf(Nets(items, AllowedIps))
    ensures Missing(st).None? <==>
              && st.interfaceSeen && st.peerSeen
              && Values(items, PrivateKey) != [] && Values(items, PublicKey) != [] && Values(items, Endpoint) != []
              && Nets(items, Address) != [] && Nets(items, AllowedIps) != []
              && exists i | 0 <= i < |Nets(items, AllowedIps)| :: Nets(items, AllowedIps)[i].prefix == 0
  {
    hide RunItems, Values, Nets, LegalItems, IsDefaultRoute, KeyContract, RouteOf;
    RequiredFields(isKey, items);
    DefaultRouteAmong(Nets(items, AllowedIps));
  }

  /** A text is accepted exactly when it is acceptable: the order of its lines matters only through the sections. */
  lemma AcceptedExactlyWhen(isKey: string -> bool, text: string)
    requires KeyContract(isKey)
    ensures ParseText(isKey, text).Ok? <==> Acceptable(isKey, Pieces(text, '\n'))
  {
    hide RunLines, RunItems, Items, Headers, Values, Nets, LegalLines, LegalItems, Pieces, Missing, KeyContract;
    hide RoutesOf, Format, Mask;
    var lines := Pieces(text, '\n');
    var items := Items(lines, NoSection);
    LinesAreHeadersAndItems(isKey, lines, START);
    ItemsMean(isKey, items, START.draft);
    var r := RunLines(isKey, lines, START);
    if r.Ok? {
      assert [] + RoutesOf(Nets(items, AllowedIps)) == RoutesOf(Nets(items, AllowedIps));
      NothingMissing(isKey, items, r.value);
    }
  }

  /** What an accepted text turns into: its only host address, its routes in order, and the last value of the rest. */
  lemma AcceptedProfile(isKey: string -> bool, text: string)
    requires KeyContract(isKey) && ParseText(isKey, text).Ok?
    ensures var p, items := ParseText(isKey, text).value, Items(Pieces(text, '\n'), NoSection);
            var hosts := Nets(items, Address);
            && |hosts| == 1 && HostProblem(hosts[0]).None?
            && p.address == Format(hosts[0].address) && p.netmask == Format(Mask(hosts[0].prefix))
            && p.routes == RoutesOf(Nets(items, AllowedIps))
            && forall setting: Setting :: FieldOf(setting, p) == Settled(isKey, items, setting)
  {
    hide RunLines, RunItems, Items, Headers, Values, Nets, LegalLines, LegalItems, Pieces, IsDefaultRoute, KeyContract;
    hide FieldOf, Settled, HostProblem, Format, Mask;
    AcceptedExactlyWhen(isKey, text);
    var lines := Pieces(text, '\n');
    var items := Items(lines, NoSection);
    LinesAreHeadersAndItems(isKey, lines, START);
    ItemsMean(isKey, items, START.draft);
    HostsAreUsable(isKey, items);
    assert [] + RoutesOf(Nets(items, AllowedIps)) == RoutesOf(Nets(items, AllowedIps));
    forall setting: Setting
      ensures FieldOf(setting, ParseText(isKey, text).value) == Settled(isKey, items, setting)
    {
      SettledIsLast(isKey, items, setting);
    }
  }

  /** The last legal value of a setting, or what the cleared profile holds. */
  function Settled(isKey: string -> bool, items: seq<Item>, setting: Setting): Field {
    var values := Values(items, setting);
    if values == [] then FieldOf(setting, EMPTY)
    else
      var last := Item(setting, values[|values| - 1]);
      if LegalItem(isKey, last) then Meaning(isKey, last) else NoField
  }

  lemma SettledIsLast(isKey: string -> bool, items: seq<Item>, setting: Setting)
    requires LegalItems(isKey, items) && RunItems(isKey, items, START.draft).Ok?
    ensures FieldOf(setting, RunItems(isKey, items, START.draft).value.profile) == Settled(isKey, items, setting)
  {
    hide RunItems, FieldOf, LegalItem, Meaning;
    LastWins(isKey, items, START.draft, setting);
  }

  lemma {:induction false} NetsOfHosts(pieces: seq<string>, i: nat)
    requires AllHosts(pieces) && i < |NetsOf(pieces)|
    ensures HostProblem(NetsOf(pieces)[i]).None?
    decreases |pieces|
  {
    hide HostProblem, EntryNets, LegalEntry;
    AllHostsStep(pieces);
    var n := |EntryNets(pieces[0])|;
    if i >= n { NetsOfHosts(pieces[1..], i - n); }
  }

  lemma {:induction false} HostsAreUsable(isKey: string -> bool, items: seq<Item>)
    requires LegalItems(isKey, items)
    ensures forall i | 0 <= i < |Nets(items, Address)| :: HostProblem(Nets(items, Address)[i]).None?
    decreases |items|
  {
    hide HostProblem, NetsOf, Pieces, LegalHost;
    if items != [] {
      HostsAreUsable(isKey, items[1..]);
      var item := items[0];
      if item.setting == Address {
        var pieces := Pieces(item.value, ',');
        assert LegalItem(isKey, item);
        assert AllHosts(pieces);
        forall i | 0 <= i < |NetsOf(pieces)| ensures HostProblem(NetsOf(pieces)[i]).None? { NetsOfHosts(pieces, i); }
      }
    }
  }

  // ------------------------------------------------------------------------------------
  // What later code may rely on
  // ------------------------------------------------------------------------------------

  ghost predicate IsHostAddress(address: string, netmask: string) {
    exists net: Net :: && net.prefix <= 32 && HostProblem(net).None?
                       && address == Format(net.address) && netmask == Format(Mask(net.prefix))
  }

  /** No bit outside the mask. */
  predicate IsCanonical(net: Net)
    requires net.prefix <= 32
  {
    net.address & Mask(net.prefix) == net.address
  }

  ghost predicate IsCanonicalRoute(r: Route) {
    exists net: Net :: net.prefix <= 32 && IsCanonical(net) && r == Route(Format(net.address), Format(Mask(net.prefix)))
  }

  /** Every string fits its buffer, every number its range, and the tunnel is a default route. */
  ghost predicate WellFormed(p: Profile) {
    && |p.privateKey| == |p.publicKey| == 44 < WG_KEY_SIZE && (p.presharedKey == "" || |p.presharedKey| == 44)
    && IsHostAddress(p.address, p.netmask) && |p.address| < ADDRESS_SIZE && |p.netmask| < ADDRESS_SIZE
    && 0 < |p.endpoint| < ENDPOINT_SIZE && HostCharacters(p.endpoint)
    && 1 <= p.port <= 65535 && p.keepalive <= 65535 && 576 <= p.mtu <= 1420
    && 1 <= |p.routes| <= MAX_ROUTES
    && (forall i | 0 <= i < |p.routes| :: IsCanonicalRoute(p.routes[i])
                                        && |p.routes[i].address| < ADDRESS_SIZE && |p.routes[i].netmask| < ADDRESS_SIZE)
    && exists i | 0 <= i < |p.routes| :: IsDefaultRoute(p.routes[i])
  }

  lemma MaskedNetIsCanonical(net: Net)
    requires net.prefix <= 32
    ensures IsCanonical(Net(net.address & Mask(net.prefix), net.prefix))
  {
    hide Mask;
    MaskedIsCanonical(net.address, net.prefix);
  }

  lemma PrintedIsCanonical(net: Net)
    requires net.prefix <= 32 && IsCanonical(net)
    ensures IsCanonicalRoute(Route(Format(net.address), Format(Mask(net.prefix))))
    ensures |Format(net.address)| < ADDRESS_SIZE && |Format(Mask(net.prefix))| < ADDRESS_SIZE
  {
    hide Format, Mask, IsCanonical;
    FormatFits(net.address);
    FormatFits(Mask(net.prefix));
  }

  lemma RouteIsCanonical(net: Net)
    requires net.prefix <= 32
    ensures IsCanonicalRoute(RouteOf(net))
    ensures |RouteOf(net).address| < ADDRESS_SIZE && |RouteOf(net).netmask| < ADDRESS_SIZE
  {
    hide Format, Mask, IsCanonical, IsCanonicalRoute;
    MaskedNetIsCanonical(net);
    PrintedIsCanonical(Net(net.address & Mask(net.prefix), net.prefix));
  }

  lemma RoutesAreCanonical(nets: seq<Net>)
    requires forall i | 0 <= i < |nets| :: nets[i].prefix <= 32
    ensures forall i | 0 <= i < |nets| :: && IsCanonicalRoute(RoutesOf(nets)[i])
              && |RoutesOf(nets)[i].address| < ADDRESS_SIZE && |RoutesOf(nets)[i].netmask| < ADDRESS_SIZE
  {
    hide RouteOf, IsCanonicalRoute;
    forall i | 0 <= i < |nets|
      ensures IsCanonicalRoute(RoutesOf(nets)[i])
      ensures |RoutesOf(nets)[i].address| < ADDRESS_SIZE && |RoutesOf(nets)[i].netmask| < ADDRESS_SIZE
    {
      RouteIsCanonical(nets[i]);
      assert RoutesOf(nets)[i] == RouteOf(nets[i]);
    }
  }

  lemma ScalarsAreWellFormed(isKey: string -> bool, items: seq<Item>, p: Profile)
    requires KeyContract(isKey) && LegalItems(isKey, items)
    requires forall setting: Setting :: FieldOf(setting, p) == Settled(isKey, items, setting)
    requires Values(items, PrivateKey) != [] && Values(items, PublicKey) != [] && Values(items, Endpoint) != []
    ensures |p.privateKey| == 44 && |p.publicKey| == 44 && (p.presharedKey == "" || |p.presharedKey| == 44)
    ensures 0 < |p.endpoint| < ENDPOINT_SIZE && HostCharacters(p.endpoint)
    ensures 1 <= p.port <= 65535 && p.keepalive <= 65535 && 576 <= p.mtu <= 1420
  {
    hide Values, ParseEndpoint, BoundedNumber, HostCharacters;
    assert FieldOf(PrivateKey, p) == Settled(isKey, items, PrivateKey);
    assert FieldOf(PublicKey, p) == Settled(isKey, items, PublicKey);
    assert FieldOf(PresharedKey, p) == Settled(isKey, items, PresharedKey);
    assert FieldOf(Endpoint, p) == Settled(isKey, items, Endpoint);
    assert FieldOf(Mtu, p) == Settled(isKey, items, Mtu);
    assert FieldOf(Keepalive, p) == Settled(isKey, items, Keepalive);
  }

  lemma AcceptedIsWellFormed(isKey: string -> bool, text: string)
    requires KeyContract(isKey) && ParseText(isKey, text).Ok?
    ensures WellFormed(ParseText(isKey, text).value)
  {
    hide ParseText, Items, Headers, Values, Nets, LegalLines, LegalItems, Pieces, IsDefaultRoute, KeyContract;
    hide FieldOf, Settled, HostProblem, Format, Mask, HostCharacters, IsCanonicalRoute, RouteOf;
    AcceptedExactlyWhen(isKey, text);
    AcceptedProfile(isKey, text);
    var p, items := ParseText(isKey, text).value, Items(Pieces(text, '\n'), NoSection);
    var host, nets := Nets(items, Address)[0], Nets(items, AllowedIps);
    ScalarsAreWellFormed(isKey, items, p);
    FormatFits(host.address);
    FormatFits(Mask(host.prefix));
    RoutesAreCanonical(nets);
    DefaultRouteAmong(nets);
  }

  /** A route is stored as its network: the bits of the mask stay, the others are cleared. */
  lemma RouteIsItsNetwork(net: Net)
    requires net.prefix <= 32
    ensures exists a: bv32 :: && RouteOf(net) == Route(Format(a), Format(Mask(net.prefix)))
                              && a & Mask(net.prefix) == net.address & Mask(net.prefix) && a & !Mask(net.prefix) == 0
  {
    hide Format, Mask;
    NetworkBits(net.address, Mask(net.prefix));
    assert RouteOf(net) == Route(Format(net.address & Mask(net.prefix)), Format(Mask(net.prefix)));
  }

  lemma NetworkBits(a: bv32, m: bv32)
    ensures (a & m) & m == a & m && (a & m) & !m == 0
  {
  }

  // ------------------------------------------------------------------------------------
  // Blank lines
  // ------------------------------------------------------------------------------------

  lemma {:induction false} BlankBetween(isKey: string -> bool, a: seq<string>, line: string, b: seq<string>, st: State)
    requires ReadLine(line) == Blank
    ensures RunLines(isKey, a + ([line] + b), st) == RunLines(isKey, a + b, st)
    decreases |a|
  {
    hide Step, ReadLine;
    if a == [] {
      assert a + ([line] + b) == [line] + b && a + b == b;
      assert ([line] + b)[1..] == b;
      BlankStep(isKey, st);
    } else {
      assert (a + ([line] + b))[1..] == a[1..] + ([line] + b) && (a + b)[1..] == a[1..] + b;
      var r := Step(isKey, ReadLine(a[0]), st);
      if r.Ok? { BlankBetween(isKey, a[1..], line, b, r.value); }
    }
  }

  lemma BlankStep(isKey: string -> bool, st: State)
    ensures Step(isKey, Blank, st) == Ok(st)
  {
  }

  /** A blank line or a comment can be put in at any line boundary without changing the result. */
  lemma BlankLinesAreFree(isKey: string -> bool, a: string, line: string, b: string)
    requires a != "" ==> a[|a| - 1] == '\n'
    requires '\n' !in line && SaysNothing(line)
    ensures ParseText(isKey, a + ((line + "\n") + b)) == ParseText(isKey, a + b)
  {
    hide RunLines, ReadLine, Finish, Pieces, IndexOf, SaysNothing;
    BlankExactlyWhen(line);
    PiecesOfConcat(a, (line + "\n") + b, '\n');
    PiecesOfConcat(line + "\n", b, '\n');
    PiecesOfConcat(a, b, '\n');
    OnePiece(line, '\n');
    assert line + "\n" == line + ['\n'];
    BlankBetween(isKey, Pieces(a, '\n'), line, Pieces(b, '\n'), START);
  }

  /** A line end after text without one at its end adds no piece. */
  lemma ClosingTheLastLine(a: string)
    requires a != "" && a[|a| - 1] != '\n'
    ensures Pieces(a + ['\n'], '\n') == Pieces(a, '\n')
    decreases |a|
  {
    hide Pieces;
    if '\n' in a {
      var i := IndexOf(a, '\n').value;
      FirstStays(a, ['\n'], '\n');
      PiecesStep(a, '\n');
      PiecesStep(a + ['\n'], '\n');
      assert (a + ['\n'])[..i] == a[..i] && (a + ['\n'])[i + 1..] == a[i + 1..] + ['\n'];
      ClosingTheLastLine(a[i + 1..]);
    } else {
      OnePiece(a, '\n');
    }
  }

  /** Also after a last line that has no line end yet. */
  lemma BlankLinesCanFollow(isKey: string -> bool, a: string, line: string)
    requires a != "" && a[|a| - 1] != '\n' && '\n' !in line && SaysNothing(line)
    ensures ParseText(isKey, (a + ['\n']) + line) == ParseText(isKey, a)
    ensures ParseText(isKey, (a + ['\n']) + (line + ['\n'])) == ParseText(isKey, a)
  {
    hide RunLines, ReadLine, Finish, Pieces, IndexOf, SaysNothing;
    BlankExactlyWhen(line);
    var pieces := Pieces(a, '\n');
    ClosingTheLastLine(a);
    PiecesOfConcat(a + ['\n'], line, '\n');
    PiecesOfConcat(a + ['\n'], line + ['\n'], '\n');
    OnePiece(line, '\n');
    NoPieces('\n');
    BlankBetween(isKey, pieces, line, [], START);
    assert [line] + [] == [line] && pieces + [] == pieces;
  }
}
