/**
 * The setup portal's apply request: merge into a draft, validate, commit. What the firmware calls
 * into libraries for is a set of functions; the outcome of the Wi-Fi trial and of the flash write
 * come with the request.
 */
module Portal {
  import opened Common
  import opened CText
  import opened Ipv4
  import WgConf
  import WgAccepted
  import SshWire
  import ErrorList

  const SSID_SIZE: nat := 33
  const PASSWORD_SIZE: nat := 65
  const USER_SIZE: nat := 32
  const SLOTS: nat := 2
  const VERSION: nat := 2

  /** A profile and the SSH port of its server; a slot is filled if its endpoint is. */
  datatype Slot = Slot(profile: WgConf.Profile, sshPort: nat)

  const ZERO_SLOT: Slot := Slot(WgConf.EMPTY.(mtu := 0), 0)

  predicate Filled(s: Slot) { s.profile.endpoint != "" }

  datatype Config = Config(
    version: nat, wifiSsid: string, wifiPassword: string, pcIp: string, pcPort: nat,
    sshUser: string, key: SshWire.PublicKey, profileCount: nat, wg: seq<Slot>)

  const ZERO: Config := Config(0, "", "", "", 0, "", SshWire.PublicKey("", ""), 0, [ZERO_SLOT, ZERO_SLOT])

  /** Library functions. `reasonFor` is the parser's message, which fits its 96-byte buffer. */
  datatype Services = Services(
    ipOf: string -> Option<bv32>,
    decode: string -> Option<SshWire.Bytes>,
    importable: SshWire.PublicKey -> bool,
    isKey: string -> bool,
    reasonFor: WgConf.Problem -> string)

  ghost predicate Reasonable(sv: Services) {
    WgConf.KeyContract(sv.isKey) && forall p :: |sv.reasonFor(p)| < 96
  }

  datatype Request = Request(args: map<string, string>, wifiProblem: Option<ErrorList.Entry>, saves: bool)

  /** `c_str()`: up to the first NUL. */
  function CStr(s: string): (t: string)
    ensures |t| <= |s|
  {
    match IndexOf(s, 0 as char)
    case None => s
    case Some(i) => s[..i]
  }

  /** `toInt()`: 0 if there is no number. */
  function ToInt(s: string): int {
    match StrTol(CStr(s))
    case None => 0
    case Some(n) => n.value
  }

  predicate IsPort(n: int) { 1 <= n <= 65535 }

  predicate ValidUser(user: string) {
    && 0 < |user| < USER_SIZE
    && forall i | 0 <= i < |user| :: IsAlnum(user[i]) || user[i] in "._-"
  }

  predicate LanHost(a: bv32) {
    0 < Octet(a, 0) < 224
  }

  function WgField(slot: nat): string { if slot == 0 then "wg1" else "wg2" }
  function WgPortField(slot: nat): string { if slot == 0 then "wg1_ssh_port" else "wg2_ssh_port" }

  // ------------------------------------------------------------------------------------
  // When a request is accepted
  // ------------------------------------------------------------------------------------

  predicate PortOk(args: map<string, string>, field: string) {
    field in args ==> IsPort(ToInt(args[field]))
  }

  predicate IpOk(sv: Services, args: map<string, string>) {
    "pc_ip" in args ==>
      && |args["pc_ip"]| < 40
      && sv.ipOf(CStr(args["pc_ip"])).Some? && LanHost(sv.ipOf(CStr(args["pc_ip"])).value)
  }

  predicate UserOk(args: map<string, string>) {
    "ssh_user" in args ==> |args["ssh_user"]| < 48 && ValidUser(CStr(args["ssh_user"]))
  }

  ghost predicate KeyOk(sv: Services, args: map<string, string>) {
    "ssh_key" in args ==>
      && args["ssh_key"] != "" && SshWire.Words(CStr(args["ssh_key"])).Some?
      && SshWire.GoodKey(SshWire.Words(CStr(args["ssh_key"])).value, sv.decode, sv.importable)
  }

  predicate ProfileOk(sv: Services, args: map<string, string>, slot: nat) {
    WgField(slot) in args && args[WgField(slot)] != "" ==>
      WgConf.ParseText(sv.isKey, CStr(args[WgField(slot)])).Ok?
  }

  predicate SlotOk(sv: Services, args: map<string, string>, slot: nat) {
    ProfileOk(sv, args, slot) && PortOk(args, WgPortField(slot))
  }

  ghost predicate FieldsOk(sv: Services, args: map<string, string>) {
    && ("ssid" in args ==> |args["ssid"]| < SSID_SIZE)
    && ("pass" in args ==> |args["pass"]| < PASSWORD_SIZE)
    && IpOk(sv, args) && PortOk(args, "pc_port") && UserOk(args) && KeyOk(sv, args)
    && SlotOk(sv, args, 0) && SlotOk(sv, args, 1)
  }

  /** The checks on the merged result. */
  predicate Complete(c: Config)
    requires |c.wg| == SLOTS
  {
    && c.wifiSsid != "" && c.pcIp != "" && c.sshUser != "" && c.key.base64 != ""
    && (Filled(c.wg[1]) ==> Filled(c.wg[0]))
  }

  predicate WifiTouched(args: map<string, string>) { "ssid" in args || "pass" in args }

  ghost predicate Acceptable(sv: Services, c: Config, r: Request)
    requires |c.wg| == SLOTS
  {
    && FieldsOk(sv, r.args) && Complete(Merged(sv, c, r.args))
    && (WifiTouched(r.args) ==> r.wifiProblem.None?)
  }

  // ------------------------------------------------------------------------------------
  // What it turns the configuration into
  // ------------------------------------------------------------------------------------

  /** A new profile keeps the port that was set for the one it replaces. */
  function Uploaded(sv: Services, s: Slot, args: map<string, string>, slot: nat): Slot
    requires ProfileOk(sv, args, slot)
  {
    var field := WgField(slot);
    if field !in args then s
    else if args[field] == "" then ZERO_SLOT
    else Slot(WgConf.ParseText(sv.isKey, CStr(args[field])).value, s.sshPort)
  }

  function MergedSlot(sv: Services, s: Slot, args: map<string, string>, slot: nat): Slot
    requires SlotOk(sv, args, slot)
  {
    var portField := WgPortField(slot);
    if portField in args then Uploaded(sv, s, args, slot).(sshPort := ToInt(args[portField]))
    else Uploaded(sv, s, args, slot)
  }

  function DefaultPort(s: Slot): (t: Slot)
    ensures t.profile == s.profile
  {
    if Filled(s) && s.sshPort == 0 then s.(sshPort := 22) else s
  }

  function Count(wg: seq<Slot>): nat
    requires |wg| == SLOTS
  {
    if !Filled(wg[0]) then 0 else if Filled(wg[1]) then 2 else 1
  }

  /** A field that fails its check is not taken over. */
  ghost function WithHost(sv: Services, c: Config, args: map<string, string>): Config {
    c.(
    wifiSsid := if "ssid" in args && |args["ssid"]| < SSID_SIZE then CStr(args["ssid"]) else c.wifiSsid,
    wifiPassword := if "pass" in args && |args["pass"]| < PASSWORD_SIZE then CStr(args["pass"]) else c.wifiPassword,
    pcIp := if "pc_ip" in args && IpOk(sv, args) then Format(sv.ipOf(CStr(args["pc_ip"])).value) else c.pcIp)
  }

  ghost function WithLogin(sv: Services, c: Config, args: map<string, string>): Config {
    c.(
    pcPort := if "pc_port" in args && PortOk(args, "pc_port") then ToInt(args["pc_port"]) else c.pcPort,
    sshUser := if "ssh_user" in args && UserOk(args) then CStr(args["ssh_user"]) else c.sshUser,
    key := if "ssh_key" in args && KeyOk(sv, args) then SshWire.Words(CStr(args["ssh_key"])).value else c.key)
  }

  function WithSlot(sv: Services, c: Config, args: map<string, string>, slot: nat): (m: Config)
    requires slot < |c.wg| && SlotOk(sv, args, slot)
    ensures |m.wg| == |c.wg|
  {
    c.(wg := c.wg[slot := MergedSlot(sv, c.wg[slot], args, slot)])
  }

  function WithDefaults(c: Config): Config
    requires |c.wg| == SLOTS
  {
    c.(pcPort := if c.pcPort == 0 then 22 else c.pcPort, wg := [DefaultPort(c.wg[0]), DefaultPort(c.wg[1])])
  }

  ghost function Merged(sv: Services, c: Config, args: map<string, string>): (m: Config)
    requires FieldsOk(sv, args) && |c.wg| == SLOTS
    ensures |m.wg| == SLOTS
  {
    WithDefaults(WithSlot(sv, WithSlot(sv, WithLogin(sv, WithHost(sv, c, args), args), args, 0), args, 1))
  }

  ghost function Committed(sv: Services, c: Config, args: map<string, string>): Config
    requires FieldsOk(sv, args) && |c.wg| == SLOTS
  {
    var m := Merged(sv, c, args);
    m.(profileCount := Count(m.wg), version := VERSION)
  }

  /** The configuration in memory, the one in flash, and the update flag with its own flash key. */
  datatype Device = Device(ram: Config, flash: Option<Config>, autoUpdate: bool)

  datatype Status = Applied | Rejected | SaveFailed   // 200, 400, 500

  ghost function Apply(sv: Services, d: Device, r: Request): (Device, Status)
    requires |d.ram.wg| == SLOTS
  {
    if !Acceptable(sv, d.ram, r) then (d, Rejected)
    else
      var c := Committed(sv, d.ram, r.args);
      var auto := if "ota_auto" in r.args then r.args["ota_auto"] == "1" else d.autoUpdate;
      if r.saves then (Device(c, Some(c), auto), Applied) else (Device(c, d.flash, auto), SaveFailed)
  }

  // ------------------------------------------------------------------------------------
  // What is wrong with a request
  // ------------------------------------------------------------------------------------

  function When(bad: bool, field: string, message: string): seq<ErrorList.Entry> {
    if bad then [ErrorList.Entry(field, message)] else []
  }

  function HostErrors(sv: Services, args: map<string, string>): seq<ErrorList.Entry> {
    When("ssid" in args && |args["ssid"]| >= SSID_SIZE, "ssid", "network name is too long (32 max)")
    + When("pass" in args && |args["pass"]| >= PASSWORD_SIZE, "pass", "password is too long (64 max)")
    + When(!IpOk(sv, args), "pc_ip", "enter a valid IPv4 address")
  }

  ghost function LoginErrors(sv: Services, args: map<string, string>): seq<ErrorList.Entry> {
    When(!PortOk(args, "pc_port"), "pc_port", "port must be 1-65535")
    + When(!UserOk(args), "ssh_user", "letters, digits, . _ - only (31 max)")
    + KeyErrors(sv, args)
  }

  ghost function KeyErrors(sv: Services, args: map<string, string>): seq<ErrorList.Entry> {
    if KeyOk(sv, args) then []
    else if args["ssh_key"] == "" then [ErrorList.Entry("ssh_key", "a public key is required")]
    else [ErrorList.Entry("ssh_key", "not a valid OpenSSH public key (ed25519, rsa or ecdsa)")]
  }

  function ProfileErrors(sv: Services, args: map<string, string>, slot: nat): seq<ErrorList.Entry> {
    var field := WgField(slot);
    if field !in args || args[field] == "" then []
    else
      match WgConf.ParseText(sv.isKey, CStr(args[field]))
      case Ok(_) => []
      case Err(problem) => [ErrorList.Entry(field, sv.reasonFor(problem))]
  }

  function SlotErrors(sv: Services, args: map<string, string>, slot: nat): seq<ErrorList.Entry> {
    ProfileErrors(sv, args, slot) + When(!PortOk(args, WgPortField(slot)), WgPortField(slot), "port must be 1-65535")
  }

  /** What is missing from a merged draft. */
  function Missing(c: Config): seq<ErrorList.Entry>
    requires |c.wg| == SLOTS
  {
    When(c.wifiSsid == "", "ssid", "select a Wi-Fi network")
    + When(c.pcIp == "", "pc_ip", "enter the PC's IP address")
    + When(c.sshUser == "", "ssh_user", "enter a username")
    + When(c.key.base64 == "", "ssh_key", "a public key is required")
    + When(Filled(c.wg[1]) && !Filled(c.wg[0]), "wg1", "add a primary profile before a secondary one")
  }

  /** All failed checks, in their order; `wg` are the draft's two slots. */
  ghost function Found(sv: Services, c: Config, wg: seq<Slot>, args: map<string, string>): seq<ErrorList.Entry>
    requires |wg| == SLOTS
  {
    HostErrors(sv, args) + LoginErrors(sv, args) + SlotErrors(sv, args, 0) + SlotErrors(sv, args, 1)
    + Missing(WithLogin(sv, WithHost(sv, c, args), args).(wg := wg))
  }

  /** The network is tried only if nothing else is wrong. */
  ghost function Problems(sv: Services, c: Config, wg: seq<Slot>, r: Request): seq<ErrorList.Entry>
    requires |wg| == SLOTS
  {
    var found := Found(sv, c, wg, r.args);
    if found == [] && WifiTouched(r.args) && r.wifiProblem.Some? then [r.wifiProblem.value] else found
  }

  /** What the merge puts into the draft's slots; what a failed parse leaves in one is not specified. */
  ghost predicate AreMerged(sv: Services, wg: seq<Slot>, wg0: seq<Slot>, args: map<string, string>) {
    && |wg| == |wg0| == SLOTS
    && forall slot | 0 <= slot < SLOTS && SlotOk(sv, args, slot) :: wg[slot] == MergedSlot(sv, wg0[slot], args, slot)
  }

  lemma RoomWhen(bad: bool, field: string, message: string, n: nat)
    requires |field| + |message| + 6 <= n
    ensures ErrorList.Room(When(bad, field, message)) <= n
  {
  }

  lemma RoomOfThree(a: seq<ErrorList.Entry>, b: seq<ErrorList.Entry>, c: seq<ErrorList.Entry>)
    ensures ErrorList.Room(a + b + c) == ErrorList.Room(a) + ErrorList.Room(b) + ErrorList.Room(c)
  {
    ErrorList.RoomOfBoth(a + b, c);
    ErrorList.RoomOfBoth(a, b);
  }

  lemma HostFits(sv: Services, args: map<string, string>)
    ensures ErrorList.Room(HostErrors(sv, args)) <= 150
  {
    hide When, IpOk;
    var longSsid := "ssid" in args && |args["ssid"]| >= SSID_SIZE;
    var longPassword := "pass" in args && |args["pass"]| >= PASSWORD_SIZE;
    RoomWhen(longSsid, "ssid", "network name is too long (32 max)", 50);
    RoomWhen(longPassword, "pass", "password is too long (64 max)", 50);
    RoomWhen(!IpOk(sv, args), "pc_ip", "enter a valid IPv4 address", 50);
    RoomOfThree(When(longSsid, "ssid", "network name is too long (32 max)"),
                When(longPassword, "pass", "password is too long (64 max)"),
                When(!IpOk(sv, args), "pc_ip", "enter a valid IPv4 address"));
  }

  lemma KeyFits(sv: Services, args: map<string, string>)
    ensures ErrorList.Room(KeyErrors(sv, args)) <= 100
  {
    hide KeyOk;
    RoomWhen(true, "ssh_key", "a public key is required", 100);
    RoomWhen(true, "ssh_key", "not a valid OpenSSH public key (ed25519, rsa or ecdsa)", 100);
  }

  lemma LoginFits(sv: Services, args: map<string, string>)
    ensures ErrorList.Room(LoginErrors(sv, args)) <= 210
  {
    KeyFits(sv, args);
    hide When, PortOk, UserOk, KeyErrors;
    RoomWhen(!PortOk(args, "pc_port"), "pc_port", "port must be 1-65535", 50);
    RoomWhen(!UserOk(args), "ssh_user", "letters, digits, . _ - only (31 max)", 60);
    RoomOfThree(When(!PortOk(args, "pc_port"), "pc_port", "port must be 1-65535"),
                When(!UserOk(args), "ssh_user", "letters, digits, . _ - only (31 max)"), KeyErrors(sv, args));
  }

  lemma ProfileFits(sv: Services, args: map<string, string>, slot: nat)
    requires Reasonable(sv)
    ensures ErrorList.Room(ProfileErrors(sv, args, slot)) <= 110
  {
    hide WgConf.ParseText, CStr;
  }

  lemma SlotFits(sv: Services, args: map<string, string>, slot: nat)
    requires Reasonable(sv)
    ensures ErrorList.Room(SlotErrors(sv, args, slot)) <= 150
  {
    ProfileFits(sv, args, slot);
    hide When, PortOk, ProfileErrors;
    RoomWhen(!PortOk(args, WgPortField(slot)), WgPortField(slot), "port must be 1-65535", 40);
    ErrorList.RoomOfBoth(ProfileErrors(sv, args, slot),
                         When(!PortOk(args, WgPortField(slot)), WgPortField(slot), "port must be 1-65535"));
  }

  lemma MissingFits(c: Config)
    requires |c.wg| == SLOTS
    ensures ErrorList.Room(Missing(c)) <= 210
  {
    hide When, Filled;
    var bad := Filled(c.wg[1]) && !Filled(c.wg[0]);
    RoomWhen(c.wifiSsid == "", "ssid", "select a Wi-Fi network", 40);
    RoomWhen(c.pcIp == "", "pc_ip", "enter the PC's IP address", 40);
    RoomWhen(c.sshUser == "", "ssh_user", "enter a username", 30);
    RoomWhen(c.key.base64 == "", "ssh_key", "a public key is required", 40);
    RoomWhen(bad, "wg1", "add a primary profile before a secondary one", 60);
    var front := When(c.wifiSsid == "", "ssid", "select a Wi-Fi network")
                 + When(c.pcIp == "", "pc_ip", "enter the PC's IP address") + When(c.sshUser == "", "ssh_user", "enter a username");
    RoomOfThree(When(c.wifiSsid == "", "ssid", "select a Wi-Fi network"),
                When(c.pcIp == "", "pc_ip", "enter the PC's IP address"), When(c.sshUser == "", "ssh_user", "enter a username"));
    RoomOfThree(front, When(c.key.base64 == "", "ssh_key", "a public key is required"),
                When(bad, "wg1", "add a primary profile before a secondary one"));
  }

  /** Whatever is wrong with a request, the 1024 bytes of the report hold all of it. */
  lemma NothingIsDropped(sv: Services, c: Config, wg: seq<Slot>, r: Request)
    requires Reasonable(sv) && |wg| == SLOTS
    requires r.wifiProblem.Some? ==> |r.wifiProblem.value.field| <= 4 && |r.wifiProblem.value.message| < 80
    ensures ErrorList.KeepAll([], Problems(sv, c, wg, r)) == Problems(sv, c, wg, r)
    ensures ErrorList.KeepAll([], Found(sv, c, wg, r.args)) == Found(sv, c, wg, r.args)
  {
    HostFits(sv, r.args);
    LoginFits(sv, r.args);
    SlotFits(sv, r.args, 0);
    SlotFits(sv, r.args, 1);
    var draft := WithLogin(sv, WithHost(sv, c, r.args), r.args).(wg := wg);
    MissingFits(draft);
    hide HostErrors, LoginErrors, SlotErrors, Missing, WithHost, WithLogin, WifiTouched, ErrorList.KeepAll;
    RoomOfThree(HostErrors(sv, r.args), LoginErrors(sv, r.args), SlotErrors(sv, r.args, 0));
    RoomOfThree(HostErrors(sv, r.args) + LoginErrors(sv, r.args) + SlotErrors(sv, r.args, 0),
                SlotErrors(sv, r.args, 1), Missing(draft));
    ErrorList.EnoughRoom([], Found(sv, c, wg, r.args));
    if r.wifiProblem.Some? {
      RoomWhen(true, r.wifiProblem.value.field, r.wifiProblem.value.message, 90);
      ErrorList.EnoughRoom([], [r.wifiProblem.value]);
    }
  }

  // ------------------------------------------------------------------------------------
  // The request handler
  // ------------------------------------------------------------------------------------

  lemma HostErrorsAreShort()
    ensures ErrorList.Short(ErrorList.Entry("ssid", "network name is too long (32 max)"))
    ensures ErrorList.Short(ErrorList.Entry("pass", "password is too long (64 max)"))
    ensures ErrorList.Short(ErrorList.Entry("pc_ip", "enter a valid IPv4 address"))
  {
  }

  lemma LoginErrorsAreShort()
    ensures ErrorList.Short(ErrorList.Entry("pc_port", "port must be 1-65535"))
    ensures ErrorList.Short(ErrorList.Entry("ssh_user", "letters, digits, . _ - only (31 max)"))
    ensures ErrorList.Short(ErrorList.Entry("ssh_key", "a public key is required"))
    ensures ErrorList.Short(ErrorList.Entry("ssh_key", "not a valid OpenSSH public key (ed25519, rsa or ecdsa)"))
  {
  }

  lemma SlotErrorsAreShort(slot: nat, reason: string)
    requires |reason| < 96
    ensures ErrorList.Short(ErrorList.Entry(WgField(slot), reason))
    ensures ErrorList.Short(ErrorList.Entry(WgPortField(slot), "port must be 1-65535"))
  {
  }

  lemma MissingErrorsAreShort()
    ensures ErrorList.Short(ErrorList.Entry("ssid", "select a Wi-Fi network"))
    ensures ErrorList.Short(ErrorList.Entry("pc_ip", "enter the PC's IP address"))
    ensures ErrorList.Short(ErrorList.Entry("ssh_user", "enter a username"))
    ensures ErrorList.Short(ErrorList.Entry("ssh_key", "a public key is required"))
    ensures ErrorList.Short(ErrorList.Entry("wg1", "add a primary profile before a secondary one"))
  {
  }

  lemma AppendThree<T>(r0: seq<T>, r1: seq<T>, r2: seq<T>, r3: seq<T>, a: seq<T>, b: seq<T>, c: seq<T>)
    requires r1 == r0 + a && r2 == r1 + b && r3 == r2 + c
    ensures r3 == r0 + (a + b + c)
  {
  }

  method MergeHost(sv: Services, args: map<string, string>, draft0: Config, errors: ErrorList.Errors)
    returns (draft: Config)
    requires errors.Valid()
    modifies errors
    ensures errors.Valid() && draft.wg == draft0.wg
    ensures !errors.any <==>
              && !old(errors.any)
              && ("ssid" in args ==> |args["ssid"]| < SSID_SIZE)
              && ("pass" in args ==> |args["pass"]| < PASSWORD_SIZE)
              && IpOk(sv, args)
    ensures draft == WithHost(sv, draft0, args)
    ensures errors.reported == old(errors.reported) + HostErrors(sv, args)
  {
    HostErrorsAreShort();
    hide CStr, Format, LanHost, ErrorList.Short, ErrorList.Keep, ErrorList.Render, ErrorList.Errors.Valid;
    draft := draft0;
    if "ssid" in args {
      if |args["ssid"]| < SSID_SIZE { draft := draft.(wifiSsid := CStr(args["ssid"])); }
      else { errors.Add("ssid", "network name is too long (32 max)"); }
    }
    ghost var first := errors.reported;
    if "pass" in args {
      if |args["pass"]| < PASSWORD_SIZE { draft := draft.(wifiPassword := CStr(args["pass"])); }
      else { errors.Add("pass", "password is too long (64 max)"); }
    }
    ghost var second := errors.reported;
    if "pc_ip" in args {
      var ip := if |args["pc_ip"]| < 40 then sv.ipOf(CStr(args["pc_ip"])) else None;
      if ip.Some? && LanHost(ip.value) { draft := draft.(pcIp := Format(ip.value)); }
      else { errors.Add("pc_ip", "enter a valid IPv4 address"); }
    }
    AppendThree(old(errors.reported), first, second, errors.reported,
                When("ssid" in args && |args["ssid"]| >= SSID_SIZE, "ssid", "network name is too long (32 max)"),
                When("pass" in args && |args["pass"]| >= PASSWORD_SIZE, "pass", "password is too long (64 max)"),
                When(!IpOk(sv, args), "pc_ip", "enter a valid IPv4 address"));
  }

  method MergeLogin(sv: Services, args: map<string, string>, draft0: Config, errors: ErrorList.Errors)
    returns (draft: Config)
    requires errors.Valid()
    modifies errors
    ensures errors.Valid() && draft.wg == draft0.wg
    ensures !errors.any <==> !old(errors.any) && PortOk(args, "pc_port") && UserOk(args) && KeyOk(sv, args)
    ensures draft == WithLogin(sv, draft0, args)
    ensures errors.reported == old(errors.reported) + LoginErrors(sv, args)
  {
    LoginErrorsAreShort();
    hide CStr, ToInt, ValidUser, SshWire.Words, SshWire.GoodKey, ErrorList.Short, ErrorList.Keep, ErrorList.Render;
    hide ErrorList.Errors.Valid;
    draft := draft0;
    if "pc_port" in args {
      var port := ToInt(args["pc_port"]);
      if IsPort(port) { draft := draft.(pcPort := port); }
      else { errors.Add("pc_port", "port must be 1-65535"); }
    }
    ghost var first := errors.reported;
    if "ssh_user" in args {
      var user := args["ssh_user"];
      if |user| < 48 && ValidUser(CStr(user)) { draft := draft.(sshUser := CStr(user)); }
      else { errors.Add("ssh_user", "letters, digits, . _ - only (31 max)"); }
    }
    ghost var second := errors.reported;
    if "ssh_key" in args {
      var upload := args["ssh_key"];
      if upload == "" {
        errors.Add("ssh_key", "a public key is required");
      } else {
        var key := SshWire.ParseSshPublicKey(CStr(upload), sv.decode, sv.importable);
        if key.Some? { draft := draft.(key := key.value); }
        else { errors.Add("ssh_key", "not a valid OpenSSH public key (ed25519, rsa or ecdsa)"); }
      }
    }
    AppendThree(old(errors.reported), first, second, errors.reported,
                When(!PortOk(args, "pc_port"), "pc_port", "port must be 1-65535"),
                When(!UserOk(args), "ssh_user", "letters, digits, . _ - only (31 max)"),
                KeyErrors(sv, args));
  }

  method MergeProfile(sv: Services, args: map<string, string>, slot0: Slot, slot: nat, errors: ErrorList.Errors)
    returns (s: Slot)
    requires errors.Valid() && Reasonable(sv)
    modifies errors
    ensures errors.Valid()
    ensures !errors.any <==> !old(errors.any) && ProfileOk(sv, args, slot)
    ensures ProfileOk(sv, args, slot) ==>
              var uploaded := Uploaded(sv, slot0, args, slot);
              s.profile == uploaded.profile && (WgPortField(slot) !in args ==> s == uploaded)
    ensures errors.reported == old(errors.reported) + ProfileErrors(sv, args, slot)
  {
    hide CStr, WgConf.ParseText, WgField, WgPortField, ErrorList.Short, ErrorList.Keep, ErrorList.Render;
    hide ErrorList.Errors.Valid;
    s := slot0;
    var field, portField := WgField(slot), WgPortField(slot);
    if field in args {
      if args[field] == "" {
        s := ZERO_SLOT;
      } else {
        var previousSshPort := s.sshPort;
        var profile := new WgConf.WgProfile();
        var failed := WgConf.ParseWireGuardConf(sv.isKey, CStr(args[field]), profile);
        s := Slot(profile.Contents(), 0);
        if failed.Some? {
          SlotErrorsAreShort(slot, sv.reasonFor(failed.value));
          errors.Add(field, sv.reasonFor(failed.value));
        } else if portField !in args {
          s := s.(sshPort := previousSshPort);
        }
      }
    }
  }

  method MergeSlot(sv: Services, args: map<string, string>, slot0: Slot, slot: nat, errors: ErrorList.Errors)
    returns (s: Slot)
    requires errors.Valid() && Reasonable(sv)
    modifies errors
    ensures errors.Valid()
    ensures !errors.any <==> !old(errors.any) && SlotOk(sv, args, slot)
    ensures SlotOk(sv, args, slot) ==> s == MergedSlot(sv, slot0, args, slot)
    ensures errors.reported == old(errors.reported) + SlotErrors(sv, args, slot)
  {
    SlotErrorsAreShort(slot, "");
    hide ToInt, ProfileOk, Uploaded, ProfileErrors, WgPortField, ErrorList.Short, ErrorList.Keep, ErrorList.Render;
    hide ErrorList.Errors.Valid;
    s := MergeProfile(sv, args, slot0, slot, errors);
    ghost var first := errors.reported;
    var portField := WgPortField(slot);
    if portField in args {
      var port := ToInt(args[portField]);
      if IsPort(port) { s := s.(sshPort := port); }
      else { errors.Add(portField, "port must be 1-65535"); }
    }
    Associates(old(errors.reported), ProfileErrors(sv, args, slot),
               When(!PortOk(args, WgPortField(slot)), WgPortField(slot), "port must be 1-65535"));
  }

  lemma MissingInOrder(c: Config, r0: seq<ErrorList.Entry>, r1: seq<ErrorList.Entry>, r2: seq<ErrorList.Entry>,
                       r3: seq<ErrorList.Entry>, r4: seq<ErrorList.Entry>, r5: seq<ErrorList.Entry>)
    requires |c.wg| == SLOTS
    requires r1 == r0 + When(c.wifiSsid == "", "ssid", "select a Wi-Fi network")
    requires r2 == r1 + When(c.pcIp == "", "pc_ip", "enter the PC's IP address")
    requires r3 == r2 + When(c.sshUser == "", "ssh_user", "enter a username")
    requires r4 == r3 + When(c.key.base64 == "", "ssh_key", "a public key is required")
    requires r5 == r4 + When(Filled(c.wg[1]) && !Filled(c.wg[0]), "wg1", "add a primary profile before a secondary one")
    ensures r5 == r0 + Missing(c)
  {
    hide When, Filled;
  }

  method CheckComplete(draft0: Config, errors: ErrorList.Errors) returns (draft: Config)
    requires errors.Valid() && |draft0.wg| == SLOTS
    modifies errors
    ensures errors.Valid() && draft == WithDefaults(draft0)
    ensures !errors.any <==> !old(errors.any) && Complete(draft)
    ensures errors.reported == old(errors.reported) + Missing(draft0)
  {
    MissingErrorsAreShort();
    hide DefaultPort, Missing, ErrorList.Short, ErrorList.Keep, ErrorList.Render, ErrorList.Errors.Valid;
    draft := draft0;
    if draft.wifiSsid == "" { errors.Add("ssid", "select a Wi-Fi network"); }
    ghost var first := errors.reported;
    if draft.pcIp == "" { errors.Add("pc_ip", "enter the PC's IP address"); }
    ghost var second := errors.reported;
    if draft.pcPort == 0 { draft := draft.(pcPort := 22); }
    if draft.sshUser == "" { errors.Add("ssh_user", "enter a username"); }
    ghost var third := errors.reported;
    if draft.key.base64 == "" { errors.Add("ssh_key", "a public key is required"); }
    ghost var fourth := errors.reported;
    if Filled(draft.wg[1]) && !Filled(draft.wg[0]) {
      errors.Add("wg1", "add a primary profile before a secondary one");
    }
    MissingInOrder(draft0, old(errors.reported), first, second, third, fourth, errors.reported);
    draft := draft.(wg := [DefaultPort(draft.wg[0]), DefaultPort(draft.wg[1])]);
  }

  /** Everything up to the trial of the network. */
  method MergeAll(sv: Services, args: map<string, string>, c: Config, errors: ErrorList.Errors)
    returns (draft: Config, ghost wg: seq<Slot>)
    requires errors.Valid() && errors.reported == [] && !errors.any && |c.wg| == SLOTS && Reasonable(sv)
    modifies errors
    ensures errors.Valid() && |draft.wg| == |wg| == SLOTS && AreMerged(sv, wg, c.wg, args)
    ensures !errors.any <==> FieldsOk(sv, args) && Complete(Merged(sv, c, args))
    ensures !errors.any ==> draft == Merged(sv, c, args)
    ensures errors.reported == Found(sv, c, wg, args)
  {
    hide HostErrors, LoginErrors, SlotErrors, Missing, WithHost, WithLogin, MergedSlot, IpOk, PortOk, UserOk, KeyOk;
    hide SlotOk;
    hide DefaultPort, Complete, ErrorList.Errors.Valid;
    draft := MergeHost(sv, args, c, errors);
    ghost var first := errors.reported;
    draft := MergeLogin(sv, args, draft, errors);
    ghost var second := errors.reported;
    var slot := MergeSlot(sv, args, draft.wg[0], 0, errors);
    ghost var third := errors.reported;
    draft := draft.(wg := draft.wg[0 := slot]);
    slot := MergeSlot(sv, args, draft.wg[1], 1, errors);
    ghost var fourth := errors.reported;
    draft := draft.(wg := draft.wg[1 := slot]);
    wg := draft.wg;
    ghost var merged := draft;
    draft := CheckComplete(draft, errors);
    AppendThree([], first, second, third, HostErrors(sv, args), LoginErrors(sv, args), SlotErrors(sv, args, 0));
    AppendThree([], third, fourth, errors.reported,
                HostErrors(sv, args) + LoginErrors(sv, args) + SlotErrors(sv, args, 0), SlotErrors(sv, args, 1), Missing(merged));
  }

  function Response(status: Status, problems: seq<ErrorList.Entry>): string {
    match status
    case Applied => "{\"ok\":true}"
    case Rejected => ErrorList.Render(problems) + "}}"
    case SaveFailed => "{\"errors\":{\"_\":\"saving to flash failed\"}}"
  }

  class SetupPortal {
    var config: Config             // gDeviceConfig
    var flash: Option<Config>
    var autoUpdate: bool

    function State(): Device
      reads this
    {
      Device(config, flash, autoUpdate)
    }

    constructor ()
      ensures State() == Device(ZERO, None, false)
    {
      config, flash, autoUpdate := ZERO, None, false;
    }

    /** `handleApply`; the draft's slots come out as history. */
    method HandleApply(sv: Services, r: Request) returns (status: Status, report: string, ghost wg: seq<Slot>)
      requires |config.wg| == SLOTS && Reasonable(sv)
      requires r.wifiProblem.Some? ==> |r.wifiProblem.value.field| <= 4 && |r.wifiProblem.value.message| < 80
      modifies this
      ensures (State(), status) == Apply(sv, old(State()), r)
      ensures AreMerged(sv, wg, old(config.wg), r.args)
      ensures var problems := Problems(sv, old(config), wg, r);
              && (status == Rejected <==> problems != [])
              && report == Response(status, problems)
    {
      hide AreMerged, Found, FieldsOk, Complete, Merged, Reasonable, ErrorList.Short, ErrorList.Keep;
      hide ErrorList.KeepAll, ErrorList.Errors.Valid;
      var errors := new ErrorList.Errors();
      var draft;
      draft, wg := MergeAll(sv, r.args, config, errors);
      errors.FlagMeansKept();
      NothingIsDropped(sv, config, wg, r);
      if !errors.any && WifiTouched(r.args) && r.wifiProblem.Some? {
        errors.Add(r.wifiProblem.value.field, r.wifiProblem.value.message);
        errors.FlagMeansKept();
        assert errors.reported == [r.wifiProblem.value];
      }
      if errors.any {
        report := errors.Finish();
        return Rejected, report, wg;
      }
      draft := draft.(profileCount := Count(draft.wg));
      if "ota_auto" in r.args { autoUpdate := r.args["ota_auto"] == "1"; }
      config := draft.(version := VERSION);
      if !r.saves { return SaveFailed, "{\"errors\":{\"_\":\"saving to flash failed\"}}", wg; }
      flash := Some(config);
      return Applied, "{\"ok\":true}", wg;
    }
  }

  // ------------------------------------------------------------------------------------
  // What a committed configuration is
  // ------------------------------------------------------------------------------------

  ghost predicate IsLanAddress(ip: string) {
    exists a: bv32 :: LanHost(a) && ip == Format(a)
  }

  ghost predicate SoundSlot(s: Slot) {
    s.sshPort <= 65535 && (Filled(s) ==> WgAccepted.WellFormed(s.profile))
  }

  /** Every field is within its buffer and either still empty or valid. */
  ghost predicate Sound(sv: Services, c: Config) {
    && |c.wg| == SLOTS && SoundSlot(c.wg[0]) && SoundSlot(c.wg[1])
    && |c.wifiSsid| < SSID_SIZE && |c.wifiPassword| < PASSWORD_SIZE
    && (c.pcIp == "" || IsLanAddress(c.pcIp)) && c.pcPort <= 65535
    && (c.sshUser == "" || ValidUser(c.sshUser))
    && (c.key.base64 == "" || SshWire.GoodKey(c.key, sv.decode, sv.importable))
  }

  /** A configuration the firmware can start from. */
  ghost predicate Ready(sv: Services, c: Config) {
    && Sound(sv, c) && c.version == VERSION
    && c.wifiSsid != "" && IsLanAddress(c.pcIp) && IsPort(c.pcPort) && ValidUser(c.sshUser)
    && SshWire.GoodKey(c.key, sv.decode, sv.importable)
    && c.profileCount == (if Filled(c.wg[0]) then 1 else 0) + (if Filled(c.wg[1]) then 1 else 0)
    && (Filled(c.wg[1]) ==> Filled(c.wg[0]))
    && (Filled(c.wg[0]) ==> IsPort(c.wg[0].sshPort)) && (Filled(c.wg[1]) ==> IsPort(c.wg[1].sshPort))
  }

  lemma HostKeepsSound(sv: Services, c: Config, args: map<string, string>)
    requires Sound(sv, c) && IpOk(sv, args)
    requires ("ssid" in args ==> |args["ssid"]| < SSID_SIZE) && ("pass" in args ==> |args["pass"]| < PASSWORD_SIZE)
    ensures Sound(sv, WithHost(sv, c, args)) && WithHost(sv, c, args).wg == c.wg
  {
    hide Format, LanHost, ValidUser, SoundSlot, SshWire.GoodKey;
    if "pc_ip" in args { assert IsLanAddress(Format(sv.ipOf(CStr(args["pc_ip"])).value)); }
  }

  lemma LoginKeepsSound(sv: Services, c: Config, args: map<string, string>)
    requires Sound(sv, c) && PortOk(args, "pc_port") && UserOk(args) && KeyOk(sv, args)
    ensures Sound(sv, WithLogin(sv, c, args)) && WithLogin(sv, c, args).wg == c.wg
  {
    hide CStr, ToInt, ValidUser, IsLanAddress, SoundSlot, SshWire.Words, SshWire.GoodKey;
  }

  lemma SlotKeepsSound(sv: Services, s: Slot, args: map<string, string>, slot: nat)
    requires Reasonable(sv) && SoundSlot(s) && SlotOk(sv, args, slot)
    ensures SoundSlot(MergedSlot(sv, s, args, slot))
  {
    hide CStr, ToInt, WgConf.ParseText, WgAccepted.WellFormed;
    if WgField(slot) in args && args[WgField(slot)] != "" {
      WgAccepted.AcceptedIsWellFormed(sv.isKey, CStr(args[WgField(slot)]));
    }
  }

  lemma SlotsKeepSound(sv: Services, c: Config, args: map<string, string>)
    requires Reasonable(sv) && Sound(sv, c) && SlotOk(sv, args, 0) && SlotOk(sv, args, 1)
    ensures Sound(sv, WithSlot(sv, WithSlot(sv, c, args, 0), args, 1))
  {
    hide SoundSlot, MergedSlot, ValidUser, IsLanAddress, SshWire.GoodKey, SlotOk;
    SlotKeepsSound(sv, c.wg[0], args, 0);
    SlotKeepsSound(sv, c.wg[1], args, 1);
  }

  lemma DefaultsMakeReady(sv: Services, c: Config)
    requires Sound(sv, c) && Complete(WithDefaults(c))
    ensures var m := WithDefaults(c); Ready(sv, m.(profileCount := Count(m.wg), version := VERSION))
  {
    hide WgAccepted.WellFormed, ValidUser, IsLanAddress, SshWire.GoodKey;
  }

  lemma MergedIsReady(sv: Services, c: Config, args: map<string, string>)
    requires |c.wg| == SLOTS && Reasonable(sv) && Sound(sv, c) && FieldsOk(sv, args) && Complete(Merged(sv, c, args))
    ensures Ready(sv, Committed(sv, c, args))
  {
    hide Sound, Ready, WithHost, WithLogin, WithSlot, WithDefaults, Complete, Reasonable, SlotOk, IpOk, KeyOk, UserOk;
    hide PortOk;
    HostKeepsSound(sv, c, args);
    var host := WithHost(sv, c, args);
    LoginKeepsSound(sv, host, args);
    var login := WithLogin(sv, host, args);
    SlotsKeepSound(sv, login, args);
    DefaultsMakeReady(sv, WithSlot(sv, WithSlot(sv, login, args, 0), args, 1));
  }

  // ------------------------------------------------------------------------------------
  // Any sequence of requests
  // ------------------------------------------------------------------------------------

  ghost predicate Provisioned(sv: Services, d: Device) {
    && |d.ram.wg| == SLOTS && (d.ram == ZERO || Ready(sv, d.ram))
    && (d.flash.Some? ==> Ready(sv, d.flash.value))
  }

  lemma ZeroIsSound(sv: Services)
    ensures Sound(sv, ZERO)
  {
  }

  lemma ApplyKeeps(sv: Services, d: Device, r: Request)
    requires Reasonable(sv) && Provisioned(sv, d)
    ensures Provisioned(sv, Apply(sv, d, r).0)
  {
    hide Committed, Reasonable, FieldsOk, Complete, Merged, Ready, Sound;
    ReadyIsSound(sv, d.ram);
    ZeroIsSound(sv);
    if Acceptable(sv, d.ram, r) {
      MergedIsReady(sv, d.ram, r.args);
      ReadyIsSound(sv, Committed(sv, d.ram, r.args));
    }
  }

  lemma ReadyIsSound(sv: Services, c: Config)
    ensures Ready(sv, c) ==> Sound(sv, c) && |c.wg| == SLOTS
  {
  }

  ghost function RunRequests(sv: Services, d: Device, rs: seq<Request>): Device
    requires Reasonable(sv) && Provisioned(sv, d)
    decreases |rs|
  {
    if rs == [] then d
    else
      ApplyKeeps(sv, d, rs[0]);
      RunRequests(sv, Apply(sv, d, rs[0]).0, rs[1..])
  }

  /**
   * After any requests to an unprovisioned device, what is in memory is either still zero or ready,
   * and what is in flash is ready.
   */
  lemma {:induction false} RunKeeps(sv: Services, d: Device, rs: seq<Request>)
    requires Reasonable(sv) && Provisioned(sv, d)
    ensures Provisioned(sv, RunRequests(sv, d, rs))
    decreases |rs|
  {
    hide Ready, Apply, Reasonable;
    if rs != [] {
      ApplyKeeps(sv, d, rs[0]);
      RunKeeps(sv, Apply(sv, d, rs[0]).0, rs[1..]);
    }
  }

  lemma FromTheFactory(sv: Services, rs: seq<Request>)
    requires Reasonable(sv)
    ensures Provisioned(sv, Device(ZERO, None, false))
    ensures Provisioned(sv, RunRequests(sv, Device(ZERO, None, false), rs))
  {
    RunKeeps(sv, Device(ZERO, None, false), rs);
  }

  /**
   * An error response leaves flash alone always, but memory only if it was a rejection or nothing
   * would have changed: after a failed write the uncommitted settings stay in memory.
   */
  lemma ErrorsLeaveMemoryAloneWhen(sv: Services, d: Device, r: Request)
    requires |d.ram.wg| == SLOTS && Apply(sv, d, r).1 != Applied
    ensures Apply(sv, d, r).0.flash == d.flash
    ensures Apply(sv, d, r).0.ram == d.ram <==>
              !Acceptable(sv, d.ram, r) || Committed(sv, d.ram, r.args) == d.ram
  {
    hide Committed, Acceptable;
  }

  /** A port that was set survives requests without one, also those that replace the profile. */
  predicate KeepsPort(s: Slot, args: map<string, string>, slot: nat) {
    && s.sshPort != 0 && WgPortField(slot) !in args
    && !(WgField(slot) in args && args[WgField(slot)] == "")
  }

  /** Fields that are not sent stay, but for the two port defaults. */
  lemma AbsentFieldsStay(sv: Services, c: Config, args: map<string, string>)
    requires FieldsOk(sv, args) && |c.wg| == SLOTS
    ensures var m := Committed(sv, c, args);
            && ("ssid" !in args ==> m.wifiSsid == c.wifiSsid) && ("pass" !in args ==> m.wifiPassword == c.wifiPassword)
            && ("pc_ip" !in args ==> m.pcIp == c.pcIp)
            && ("pc_port" !in args && c.pcPort != 0 ==> m.pcPort == c.pcPort)
            && ("ssh_user" !in args ==> m.sshUser == c.sshUser) && ("ssh_key" !in args ==> m.key == c.key)
            && (forall slot | 0 <= slot < SLOTS ::
                  && (WgField(slot) !in args ==> m.wg[slot].profile == c.wg[slot].profile)
                  && (KeepsPort(c.wg[slot], args, slot) ==> m.wg[slot].sshPort == c.wg[slot].sshPort))
  {
    hide CStr, ToInt, WgConf.ParseText, SshWire.Words, Format;
    SlotStays(sv, c.wg[0], args, 0);
    SlotStays(sv, c.wg[1], args, 1);
    hide MergedSlot, DefaultPort, WgField, WgPortField, KeepsPort;
  }

  lemma SlotStays(sv: Services, s: Slot, args: map<string, string>, slot: nat)
    requires SlotOk(sv, args, slot)
    ensures var m := DefaultPort(MergedSlot(sv, s, args, slot));
            && (WgField(slot) !in args ==> m.profile == s.profile)
            && (KeepsPort(s, args, slot) ==> m.sshPort == s.sshPort)
  {
    hide CStr, ToInt, WgConf.ParseText;
  }

  // ------------------------------------------------------------------------------------
  // What becomes of the fields that are sent
  // ------------------------------------------------------------------------------------

  /** `c_str()` is the text before the first NUL. */
  lemma CStrExactlyWhen(s: string, t: string)
    ensures CStr(s) == t <==> 0 as char !in t && t <= s && (|t| < |s| ==> s[|t|] == 0 as char)
  {
    hide IndexOf;
    var nul := 0 as char;
    if nul !in t && t < s && s[|t|] == nul {
      FirstSeparator(t, nul);
      FirstStays(t + [nul], s[|t| + 1..], nul);
      assert (t + [nul]) + s[|t| + 1..] == s;
    }
  }

  /** A field of digits is the number they spell. */
  lemma ToIntOfDigits(s: string)
    requires s != "" && AllAreDigits(s) && Value(0, s) <= LONG_MAX
    ensures ToInt(s) == Value(0, s)
  {
    hide IndexOf, StrTol, Value;
    assert 0 as char !in s;
    StrTolReads("", "", s);
    assert "" + ("" + s) == s;
  }

  /** A slot after an acceptable request: the profile is the one sent, or cleared, or kept, and so is the port. */
  ghost predicate SlotTaken(sv: Services, s: Slot, t: Slot, args: map<string, string>, slot: nat) {
    var field, portField := WgField(slot), WgPortField(slot);
    && (field !in args ==> t.profile == s.profile)
    && (field in args && args[field] == "" ==> !Filled(t))
    && (field in args && args[field] != "" ==> WgConf.ParseText(sv.isKey, CStr(args[field])) == WgConf.Ok(t.profile))
    && (portField in args ==> t.sshPort == ToInt(args[portField]))
    && (portField !in args && field in args && args[field] == "" ==> t == ZERO_SLOT)
    && (portField !in args && (field in args ==> args[field] != "") ==>
          t.sshPort == if s.sshPort == 0 && Filled(t) then 22 else s.sshPort)
  }

  lemma SlotIsTaken(sv: Services, s: Slot, args: map<string, string>, slot: nat)
    requires SlotOk(sv, args, slot)
    ensures SlotTaken(sv, s, DefaultPort(MergedSlot(sv, s, args, slot)), args, slot)
  {
    hide CStr, ToInt, WgConf.ParseText;
  }

  /** What an acceptable request changes, field by field: every one that is sent takes effect as it was sent. */
  lemma SentFieldsAreTaken(sv: Services, d: Device, r: Request)
    requires |d.ram.wg| == SLOTS && Acceptable(sv, d.ram, r)
    ensures var (t, status) := Apply(sv, d, r); var args, c := r.args, t.ram;
            && (if r.saves then status == Applied && t.flash == Some(c) else status == SaveFailed && t.flash == d.flash)
            && ("ssid" in args ==> c.wifiSsid == CStr(args["ssid"])) && ("pass" in args ==> c.wifiPassword == CStr(args["pass"]))
            && ("pc_ip" in args ==> exists a: bv32 :: sv.ipOf(CStr(args["pc_ip"])) == Some(a) && c.pcIp == Format(a))
            && c.pcPort == (if "pc_port" in args then ToInt(args["pc_port"]) else if d.ram.pcPort == 0 then 22 else d.ram.pcPort)
            && ("ssh_user" in args ==> c.sshUser == CStr(args["ssh_user"]))
            && ("ssh_key" in args ==> SshWire.Words(CStr(args["ssh_key"])) == Some(c.key))
            && (forall slot | 0 <= slot < SLOTS :: SlotTaken(sv, d.ram.wg[slot], c.wg[slot], args, slot))
            && t.autoUpdate == if "ota_auto" in args then args["ota_auto"] == "1" else d.autoUpdate
  {
    var c, args := d.ram, r.args;
    SlotIsTaken(sv, c.wg[0], args, 0);
    SlotIsTaken(sv, c.wg[1], args, 1);
    HostIsTaken(sv, c, args);
    LoginIsTaken(sv, c, args);
    hide CStr, ToInt, WgConf.ParseText, SshWire.Words, SshWire.GoodKey, Format, MergedSlot, DefaultPort, SlotOk;
    hide SlotTaken, ValidUser;
    hide LanHost, WithHost, WithLogin, IpOk, UserOk, KeyOk;
  }

  lemma HostIsTaken(sv: Services, c: Config, args: map<string, string>)
    requires IpOk(sv, args)
    requires ("ssid" in args ==> |args["ssid"]| < SSID_SIZE) && ("pass" in args ==> |args["pass"]| < PASSWORD_SIZE)
    ensures var h := WithHost(sv, c, args);
            && h == c.(wifiSsid := h.wifiSsid, wifiPassword := h.wifiPassword, pcIp := h.pcIp)
            && ("ssid" in args ==> h.wifiSsid == CStr(args["ssid"])) && ("pass" in args ==> h.wifiPassword == CStr(args["pass"]))
            && ("pc_ip" in args ==> exists a: bv32 :: sv.ipOf(CStr(args["pc_ip"])) == Some(a) && h.pcIp == Format(a))
  {
    hide CStr, Format, LanHost;
    if "pc_ip" in args { var a := sv.ipOf(CStr(args["pc_ip"])).value; assert WithHost(sv, c, args).pcIp == Format(a); }
  }

  lemma LoginIsTaken(sv: Services, c0: Config, args: map<string, string>)
    requires UserOk(args) && KeyOk(sv, args) && PortOk(args, "pc_port")
    ensures var c := WithHost(sv, c0, args); var h := WithLogin(sv, c, args);
            && h == c.(pcPort := h.pcPort, sshUser := h.sshUser, key := h.key) && c.pcPort == c0.pcPort
            && ("pc_port" !in args ==> h.pcPort == c.pcPort)
            && ("pc_port" in args ==> h.pcPort == ToInt(args["pc_port"]) && IsPort(h.pcPort))
            && ("ssh_user" in args ==> h.sshUser == CStr(args["ssh_user"]))
            && ("ssh_key" in args ==> SshWire.Words(CStr(args["ssh_key"])) == Some(h.key))
  {
    hide CStr, ToInt, SshWire.GoodKey, SshWire.Words, ValidUser, Format, IpOk;
  }

  /** One to 31 letters, digits, dots, underscores and hyphens. */
  predicate IsUserName(user: string) {
    1 <= |user| <= 31 && forall i | 0 <= i < |user| :: IsAlnum(user[i]) || user[i] == '.' || user[i] == '_' || user[i] == '-'
  }

  lemma UserNamesAre(user: string)
    ensures IsUserName(user) <==> ValidUser(user)
  {
    assert forall c: char :: c in "._-" <==> c == '.' || c == '_' || c == '-';
  }

  /** When a sent slot is in order: its profile parses, unless it is empty, and its port is one. */
  predicate SlotInOrder(sv: Services, args: map<string, string>, field: string, portField: string) {
    && (field in args && args[field] != "" ==> WgConf.ParseText(sv.isKey, CStr(args[field])).Ok?)
    && (portField in args ==> 1 <= ToInt(args[portField]) <= 65535)
  }

  /** What is asked of each field that is sent. */
  lemma FieldsOkExactlyWhen(sv: Services, args: map<string, string>)
    ensures FieldsOk(sv, args) <==>
              && ("ssid" in args ==> |args["ssid"]| <= 32) && ("pass" in args ==> |args["pass"]| <= 64)
              && ("pc_ip" in args ==>
                    && |args["pc_ip"]| <= 39
                    && exists a: bv32 :: sv.ipOf(CStr(args["pc_ip"])) == Some(a) && 1 <= Octet(a, 0) <= 223)
              && ("pc_port" in args ==> 1 <= ToInt(args["pc_port"]) <= 65535)
              && ("ssh_user" in args ==> |args["ssh_user"]| <= 47 && IsUserName(CStr(args["ssh_user"])))
              && ("ssh_key" in args ==>
                    && args["ssh_key"] != ""
                    && exists k: SshWire.PublicKey :: SshWire.Words(CStr(args["ssh_key"])) == Some(k) &&
                                                      SshWire.GoodKey(k, sv.decode, sv.importable))
              && SlotInOrder(sv, args, "wg1", "wg1_ssh_port") && SlotInOrder(sv, args, "wg2", "wg2_ssh_port")
  {
    hide CStr, ToInt, WgConf.ParseText, SshWire.Words, SshWire.GoodKey, Octet, IsUserName, ValidUser;
    if "ssh_user" in args { UserNamesAre(CStr(args["ssh_user"])); }
  }

  /** And of the merged whole, and of the network if its name or password was sent. */
  lemma AcceptableExactlyWhen(sv: Services, c: Config, r: Request)
    requires |c.wg| == SLOTS
    ensures Acceptable(sv, c, r) <==>
              && FieldsOk(sv, r.args)
              && (var m := Merged(sv, c, r.args);
                  && m.wifiSsid != "" && m.pcIp != "" && m.sshUser != "" && m.key.base64 != ""
                  && (m.wg[1].profile.endpoint != "" ==> m.wg[0].profile.endpoint != ""))
              && ("ssid" in r.args || "pass" in r.args ==> r.wifiProblem.None?)
  {
    hide Merged, FieldsOk;
  }

  // ------------------------------------------------------------------------------------
  // A failed write after the first setup
  // ------------------------------------------------------------------------------------

  /** Every acceptable first setup whose write fails is reported as an error, and stays in memory all the same. */
  lemma FailedSaveStaysInMemory(sv: Services, r: Request, autoUpdate: bool)
    requires Reasonable(sv) && Acceptable(sv, ZERO, r) && !r.saves
    ensures var (d, status) := Apply(sv, Device(ZERO, None, autoUpdate), r);
            && status == SaveFailed && d.flash == None
            && d.ram == Committed(sv, ZERO, r.args) != ZERO && Ready(sv, d.ram)
  {
    hide Reasonable, FieldsOk, Merged, Sound, Ready;
    ZeroIsSound(sv);
    MergedIsReady(sv, ZERO, r.args);
  }

  // Such requests exist.

  const RSA: string := "ssh-rsa"
  const RSA_NAME: SshWire.Bytes := [115, 115, 104, 45, 114, 115, 97]

  function SampleServices(): Services {
    Services(_ => Some(0x0A00_0001), _ => Some(SshWire.Encode([RSA_NAME])), _ => true, _ => false, _ => "")
  }

  const SAMPLE: map<string, string> := map["ssid" := "a", "pc_ip" := "b", "ssh_user" := "u", "ssh_key" := "ssh-rsa A"]

  lemma NoNul(s: string)
    requires forall i | 0 <= i < |s| :: s[i] != 0 as char
    ensures CStr(s) == s
  {
    hide IndexOf;
  }

  lemma SampleWords()
    ensures SshWire.Words("ssh-rsa A") == Some(SshWire.PublicKey(RSA, "A"))
  {
    var t := "ssh-rsa A";
    assert t[0..7] == RSA && t[8..9] == "A" && t[7..8] == " ";
    SshWire.UploadIsCut(t, SshWire.PublicKey(RSA, "A"), 0, 7, 8, 9);
  }

  lemma SampleKeyIsGood()
    ensures var sv := SampleServices();
            SshWire.GoodKey(SshWire.PublicKey(RSA, "A"), sv.decode, sv.importable)
  {
    hide SshWire.Encode;
    var fields := [RSA_NAME];
    assert SshWire.KEY_TYPES[1] == RSA;
    assert SshWire.Encodable(fields);
    assert SshWire.Spells(fields[0], RSA);
  }

  lemma SampleStrings()
    ensures CStr("a") == "a" && CStr("b") == "b" && CStr("u") == "u" && CStr("ssh-rsa A") == "ssh-rsa A"
  {
    NoNul("a");
    NoNul("b");
    NoNul("u");
    NoNul("ssh-rsa A");
  }

  lemma SampleFieldsAreOk()
    ensures FieldsOk(SampleServices(), SAMPLE)
  {
    hide SshWire.Words, SshWire.GoodKey, Format, CStr, ToInt, WgConf.ParseText;
    SampleStrings();
    SampleWords();
    SampleKeyIsGood();
    assert Octet(0x0A00_0001, 0) == 10;
  }

  lemma SampleIsComplete()
    requires FieldsOk(SampleServices(), SAMPLE)
    ensures Complete(Merged(SampleServices(), ZERO, SAMPLE))
    ensures Merged(SampleServices(), ZERO, SAMPLE).wifiSsid == "a"
  {
    hide SshWire.Words, SshWire.GoodKey, Format, CStr, ToInt, WgConf.ParseText, IpOk, UserOk, KeyOk, PortOk, SlotOk;
    SampleStrings();
    SampleWords();
    FormatFits(0x0A00_0001);
  }

  lemma FirstSetupsExist(saves: bool)
    ensures Reasonable(SampleServices()) && Acceptable(SampleServices(), ZERO, Request(SAMPLE, None, saves))
  {
    hide FieldsOk, Complete, Merged;
    SampleFieldsAreOk();
    SampleIsComplete();
  }
}
