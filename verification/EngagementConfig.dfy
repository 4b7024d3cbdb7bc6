/** Engagement configurations: built from operator input, rendered to a file, and loaded again. */
module EngagementConfig {
  import opened Basics
  import opened Text
  import opened ConfigKeys
  import opened ConfigText
  import opened EngagementInput
  import P = ScanProfiles

  /** Values that differ from the defaults, and the module plan chosen by the profile. */
  datatype Config = Config(values: Settings, plan: seq<P.ModuleFamily>)

  datatype Input = Input(target: string, profile: string, authorization: string)

  // ---------------------------------------------------------------- settings

  function DefaultSetting(k: Key): Value {
    match k
    case DatabaseDriver => Words("sqlite")
    case DatabasePath => Words("data/enumscan.sqlite")
    case AllowedTargets => Names(["127.0.0.1", "localhost"])
    case Targets => Names(["127.0.0.1"])
    case Authorization | Profile => Words("")
    case Concurrency | MinConcurrency => Number(1)
    case GlobalRateLimit => Number(500)
    case PerTargetRateLimit => Number(1000)
    case ModuleTimeout => Number(10000)
    case CidrMaxHosts => Number(64)
    case TcpProbePorts => PortNumbers([80, 443])
    case PortProfile => Words("quick")
    case MaxConcurrentPorts => Number(4)
    case BaseTimeout => Number(750)
    case MaxTimeout => Number(3000)
    case TcpPorts | Ports => PortNumbers([])
    case MaxDepth => Number(1)
    case MaxPagesPerHost => Number(50)
    case OutputDir => Words("reports")
    case _ => Flag(false)
  }

  function Get(s: Settings, k: Key, d: Value): Value {
    if k in s then s[k] else d
  }

  function Setting(s: Settings, k: Key): Value {
    Get(s, k, DefaultSetting(k))
  }

  // A setting seen as its key's kind; the loader stores no value of another kind.

  function TextOf(s: Settings, k: Key): string {
    if Setting(s, k).Words? then Setting(s, k).text else ""
  }

  function NumberOf(s: Settings, k: Key): int {
    if Setting(s, k).Number? then Setting(s, k).n else 0
  }

  predicate IsOn(s: Settings, k: Key) {
    Setting(s, k).Flag? && Setting(s, k).on
  }

  function NamesOf(s: Settings, k: Key): seq<string> {
    if Setting(s, k).Names? then Setting(s, k).names else []
  }

  function PortsOf(s: Settings, k: Key): seq<int> {
    if Setting(s, k).PortNumbers? then Setting(s, k).ports else []
  }

  // ---------------------------------------------------------------- profiles

  /** The module family that an explicit key pulls into the plan. */
  function FamilyOf(k: Key): Option<P.ModuleFamily> {
    match SectionOf(k)
    case DiscoverySection => Some(P.Discovery)
    case PortScanSection => Some(P.PortScan)
    case HttpSection => Some(P.Http)
    case _ => if k == Ports then Some(P.PortScan) else None
  }

  function FamiliesOf(explicit: set<Key>): set<P.ModuleFamily> {
    set k | k in explicit && FamilyOf(k).Some? :: FamilyOf(k).value
  }

  /** Which keys pull in which family. */
  lemma FamiliesMeaning(explicit: set<Key>, m: P.ModuleFamily)
    ensures m in FamiliesOf(explicit) <==>
      exists k :: k in explicit && PullsIn(SectionName(SectionOf(k)), KeyName(k), m)
  {
    forall k ensures FamilyOf(k) == Some(m) <==> PullsIn(SectionName(SectionOf(k)), KeyName(k), m) {
      KeyPullsIn(k, m);
    }
  }

  predicate PullsIn(section: string, name: string, m: P.ModuleFamily) {
    match m
    case Discovery => section == "discovery"
    case PortScan => section == "portscan" || (section == "scan" && name == "ports")
    case Http => section == "http"
    case _ => false
  }

  lemma KeyPullsIn(k: Key, m: P.ModuleFamily)
    ensures FamilyOf(k) == Some(m) <==> PullsIn(SectionName(SectionOf(k)), KeyName(k), m)
  {
    SectionPullsIn(SectionOf(k));
    if SectionOf(k) == ScanSection { PortsKey(k); }
  }

  lemma SectionPullsIn(s: Section)
    ensures SectionName(s) == "discovery" <==> s == DiscoverySection
    ensures SectionName(s) == "portscan" <==> s == PortScanSection
    ensures SectionName(s) == "http" <==> s == HttpSection
    ensures SectionName(s) == "scan" <==> s == ScanSection
  {
    SectionNamesDiffer();
  }

  lemma PortsKey(k: Key)
    requires SectionOf(k) == ScanSection
    ensures KeyName(k) == "ports" <==> k == Ports
  {
  }

  /** mergeModulePlan: the explicit keys are visited in any order. */
  method MergeModulePlan(modules: set<P.ModuleFamily>, explicit: set<Key>) returns (plan: seq<P.ModuleFamily>)
    ensures plan == P.Plan(modules + FamiliesOf(explicit))
  {
    var families, pending := modules, explicit;
    while pending != {}
      invariant pending <= explicit
      invariant families == modules + FamiliesOf(explicit - pending)
    {
      var k :| k in pending;
      assert explicit - (pending - {k}) == (explicit - pending) + {k};
      if FamilyOf(k).Some? {
        families := families + {FamilyOf(k).value};
      }
      pending := pending - {k};
    }
    assert explicit - {} == explicit;
    plan := P.OrderedPlan(families);
  }

  function ProfilePorts(profile: P.ScanProfile, name: string): seq<int> {
    if name == "exhaustive" then [] else profile.ports
  }

  /** A profile's value for a key, unless the operator has set that key. */
  function Offer(v: Settings, explicit: set<Key>, k: Key, x: Value): Settings {
    if k in explicit then v else v[k := x]
  }

  function ProfileValues(s: Settings, profile: P.ScanProfile, name: string, explicit: set<Key>): Settings {
    var v0 := s[Profile := Words(name)];
    var v1 := Offer(v0, explicit, PortProfile, Words(name));
    var v2 := if profile.concurrency > 0 then Offer(v1, explicit, Concurrency, Number(profile.concurrency)) else v1;
    var v3 :=
      if profile.timeoutSec > 0 then Offer(v2, explicit, ModuleTimeout, Number(profile.timeoutSec * 1000)) else v2;
    var v4 := if Ports in explicit then v3 else Offer(v3, explicit, TcpPorts, PortNumbers(ProfilePorts(profile, name)));
    Offer(v4, explicit, EnableTcp, Flag(true))
  }

  function ApplyProfile(cfg: Config, profile: P.ScanProfile, name: string, explicit: set<Key>): Config {
    Config(ProfileValues(cfg.values, profile, name, explicit), P.Plan(profile.modules + FamiliesOf(explicit)))
  }

  /** Every setting after a profile: explicit choices win, except for the profile itself. */
  function ProfileSetting(before: Value, profile: P.ScanProfile, name: string, explicit: set<Key>, k: Key): Value {
    if k == Profile then Words(name)
    else if k in explicit then before
    else if k == PortProfile then Words(name)
    else if k == Concurrency && profile.concurrency > 0 then Number(profile.concurrency)
    else if k == ModuleTimeout && profile.timeoutSec > 0 then Number(profile.timeoutSec * 1000)
    else if k == TcpPorts && Ports !in explicit then PortNumbers(if name == "exhaustive" then [] else profile.ports)
    else if k == EnableTcp then Flag(true)
    else before
  }

  lemma ProfileIsNamed(s: Settings, profile: P.ScanProfile, name: string, explicit: set<Key>, d: Value)
    ensures Get(ProfileValues(s, profile, name, explicit), Profile, d) == Words(name)
  {
  }

  lemma ExplicitIsKept(s: Settings, profile: P.ScanProfile, name: string, explicit: set<Key>, k: Key, d: Value)
    requires k in explicit && k != Profile
    ensures Get(ProfileValues(s, profile, name, explicit), k, d) == Get(s, k, d)
  {
  }

  predicate IsOffered(k: Key) {
    k == Profile || k == PortProfile || k == Concurrency || k == ModuleTimeout || k == TcpPorts || k == EnableTcp
  }

  lemma OthersAreKept(s: Settings, profile: P.ScanProfile, name: string, explicit: set<Key>, k: Key, d: Value)
    requires !IsOffered(k)
    ensures Get(ProfileValues(s, profile, name, explicit), k, d) == Get(s, k, d)
  {
  }

  lemma OfferIsTaken(s: Settings, profile: P.ScanProfile, name: string, explicit: set<Key>, k: Key, d: Value)
    requires IsOffered(k) && k != Profile && k !in explicit
    ensures Get(ProfileValues(s, profile, name, explicit), k, d) ==
            ProfileSetting(Get(s, k, d), profile, name, explicit, k)
  {
    if k == PortProfile {
    } else if k == Concurrency {
    } else if k == ModuleTimeout {
    } else if k == TcpPorts {
    } else {
    }
  }

  lemma ProfileIsApplied(s: Settings, profile: P.ScanProfile, name: string, explicit: set<Key>, k: Key, d: Value)
    ensures Get(ProfileValues(s, profile, name, explicit), k, d) ==
            ProfileSetting(Get(s, k, d), profile, name, explicit, k)
  {
    if k == Profile {
      ProfileIsNamed(s, profile, name, explicit, d);
    } else if k in explicit {
      ExplicitIsKept(s, profile, name, explicit, k, d);
    } else if IsOffered(k) {
      OfferIsTaken(s, profile, name, explicit, k, d);
    } else {
      OthersAreKept(s, profile, name, explicit, k, d);
    }
  }

  function RequestedValues(s: Settings): Settings {
    s[Ports := PortNumbers([])][EnableUdp := Flag(false)][EnableRawSyn := Flag(false)][EnableRawScanning := Flag(false)]
  }

  function ApplyRequestedProfile(cfg: Config, profile: P.ScanProfile, name: string): Config {
    var applied := ApplyProfile(cfg, profile, name, {});
    applied.(values := RequestedValues(applied.values))
  }

  // ---------------------------------------------------------------- validation

  predicate IsPort(n: int) {
    1 <= n <= 65535
  }

  predicate ArePorts(ports: seq<int>) {
    forall i :: 0 <= i < |ports| ==> IsPort(ports[i])
  }

  predicate ValidScheduler(s: Settings) {
    && 1 <= NumberOf(s, Concurrency) <= 256
    && 1 <= NumberOf(s, MinConcurrency) <= NumberOf(s, Concurrency)
    && 0 <= NumberOf(s, GlobalRateLimit) && 0 <= NumberOf(s, PerTargetRateLimit) && 0 < NumberOf(s, ModuleTimeout)
  }

  predicate ValidPortScan(s: Settings) {
    && 1 <= NumberOf(s, MaxConcurrentPorts) <= 1024
    && 0 < NumberOf(s, BaseTimeout) <= NumberOf(s, MaxTimeout)
  }

  predicate ValidPorts(s: Settings) {
    ArePorts(PortsOf(s, Ports)) && ArePorts(PortsOf(s, TcpPorts)) && ArePorts(PortsOf(s, TcpProbePorts))
  }

  /** What these switches need is not among the modelled keys, and empty by default. */
  predicate ValidSwitches(s: Settings) {
    && !IsOn(s, ActiveTestingEnabled) && !IsOn(s, RequireAuth)
    && !IsOn(s, EnableScreenshots) && !IsOn(s, EnableAuthenticatedCrawling)
  }

  predicate ValidTexts(lower: char -> char, s: Settings) {
    && ToLower(lower, TrimSpace(TextOf(s, DatabaseDriver))) in {"", "sqlite"}
    && TrimSpace(TextOf(s, Authorization)) != ""
  }

  /** The checks of Validate on these keys. */
  predicate Validate(lower: char -> char, s: Settings) {
    ValidTexts(lower, s) && ValidSwitches(s) && ValidScheduler(s) && ValidPortScan(s) && ValidPorts(s)
  }

  // ---------------------------------------------------------------- building

  function RequestedName(profile: string): string {
    if TrimSpace(profile) == "" then "standard" else TrimSpace(profile)
  }

  function ScopedConfig(target: string, authorization: string): Config {
    var v := map[AllowedTargets := Names([target])];
    var v := v[Authorization := Words(authorization)];
    var v := v[Targets := Names([target])];
    var v := v[CidrMaxHosts := Number(256)];
    var v := v[ActiveTestingEnabled := Flag(false)];
    var v := v[EnableRawSyn := Flag(false)];
    Config(v[EnableRawScanning := Flag(false)], [])
  }

  function BuildEngagementConfig(lib: Library, input: Input): Result<Config> {
    match EngagementTarget(lib, input.target)
    case None => Err(BadTarget)
    case Some(target) =>
      match AuthorizationReference(lib, input.authorization)
      case None => Err(BadAuthorization)
      case Some(authorization) =>
        match P.FindProfile(lib.lower, RequestedName(input.profile))
        case None => Err(UnknownProfile)
        case Some(p) =>
          var cfg := ApplyRequestedProfile(ScopedConfig(target, authorization), P.Builtin(p), P.ProfileName(p));
          if Validate(lib.lower, cfg.values) then Ok(cfg) else Err(Refused)
  }

  // ---------------------------------------------------------------- rendering

  const SECTIONS: seq<Section> := [
    DatabaseSection, ScopeSection, SchedulerSection, DiscoverySection, PortScanSection,
    HttpSection, ScanSection, ActiveTestingSection, ApiSection, ReportingSection]

  /** The keys written under each header. */
  function KeysIn(s: Section): seq<Key> {
    match s
    case DatabaseSection => [DatabaseDriver, DatabasePath]
    case ScopeSection => [AllowedTargets, Authorization]
    case SchedulerSection => [Concurrency, MinConcurrency, GlobalRateLimit, PerTargetRateLimit, ModuleTimeout]
    case DiscoverySection =>
      [CidrMaxHosts, EnableDnsDiscovery, EnableDnsRecords, EnableReverseDns, EnableTcpHostProbes, TcpProbePorts]
    case PortScanSection =>
      [PortProfile, EnableTcp, EnableUdp, EnableBanner, EnableRawSyn, EnableRawScanning,
       MaxConcurrentPorts, BaseTimeout, MaxTimeout]
    case HttpSection =>
      [MaxDepth, MaxPagesPerHost, EnableTls, EnableCrawler, EnableJsAnalysis, EnableApiDiscovery,
       EnableScreenshots, EnableAuthenticatedCrawling]
    case ScanSection => [Profile, Targets]
    case ActiveTestingSection => [ActiveTestingEnabled]
    case ApiSection => [RequireAuth]
    case ReportingSection => [OutputDir]
  }

  /** The values that the renderer writes whatever was built. */
  function FixedText(k: Key): Option<Value> {
    match k
    case DatabaseDriver => Some(Words("sqlite"))
    case DatabasePath => Some(Words("data/enumscan.sqlite"))
    case EnableDnsDiscovery | EnableDnsRecords | EnableReverseDns | EnableTcpHostProbes => Some(Flag(true))
    case TcpProbePorts => Some(PortNumbers([80, 443]))
    case EnableTcp | EnableBanner => Some(Flag(true))
    case EnableUdp | EnableRawSyn | EnableRawScanning => Some(Flag(false))
    case EnableTls | EnableCrawler | EnableJsAnalysis | EnableApiDiscovery => Some(Flag(true))
    case EnableScreenshots | EnableAuthenticatedCrawling => Some(Flag(false))
    case ActiveTestingEnabled | RequireAuth => Some(Flag(false))
    case OutputDir => Some(Words("reports"))
    case _ => None
  }

  predicate Renderable(s: Settings) {
    NamesOf(s, AllowedTargets) != [] && NamesOf(s, Targets) != []
  }

  /** What the renderer writes for a key; of the name lists, the first name. */
  function Written(s: Settings, k: Key): (v: Value)
    requires Renderable(s)
  {
    if k == AllowedTargets || k == Targets then Names([NamesOf(s, k)[0]])
    else if FixedText(k).Some? then FixedText(k).value
    else Setting(s, k)
  }

  function RenderEntries(s: Settings, keys: seq<Key>): string
    requires Renderable(s)
  {
    if keys == [] then "" else EntryLine(keys[0], Written(s, keys[0])) + "\n" + RenderEntries(s, keys[1..])
  }

  function RenderSections(s: Settings, sections: seq<Section>): string
    requires Renderable(s)
  {
    if sections == [] then ""
    else
      SectionName(sections[0]) + ":" + "\n"
      + (RenderEntries(s, KeysIn(sections[0])) + RenderSections(s, sections[1..]))
  }

  function RenderComments(comments: seq<string>, body: string): string {
    if comments == [] then body else "#" + comments[0] + "\n" + RenderComments(comments[1..], body)
  }

  /** The document; the text of its leading comments does not matter to what follows. */
  function Render(comments: seq<string>, cfg: Config): string
    requires Renderable(cfg.values)
  {
    RenderComments(comments, RenderSections(cfg.values, SECTIONS))
  }

  // ---------------------------------------------------------------- loading

  predicate IsPlaceholder(s: string) {
    HasPrefix(s, "REPLACE_")
  }

  function Checked(lib: Library, cfg: Config): Result<Config> {
    var s := cfg.values;
    if NamesOf(s, AllowedTargets) == [] || NamesOf(s, Targets) == [] then Err(Refused)
    else if TrimSpace(TextOf(s, Authorization)) == "" then Err(Refused)
    else if IsPlaceholder(TextOf(s, Authorization)) || IsPlaceholder(NamesOf(s, AllowedTargets)[0])
            || IsPlaceholder(NamesOf(s, Targets)[0]) then Err(Refused)
    else if Validate(lib.lower, s) then Ok(cfg)
    else Err(Refused)
  }

  function Finished(lib: Library, st: Loading): Result<Config> {
    var cfg := Config(st.values, []);
    var profile := TextOf(st.values, Profile);
    if TrimSpace(profile) == "" then Checked(lib, cfg)
    else
      match P.FindProfile(lib.lower, profile)
      case None => Err(UnknownProfile)
      case Some(p) => Checked(lib, ApplyProfile(cfg, P.Builtin(p), P.ProfileName(p), st.explicit))
  }

  function Loaded(lib: Library, text: string): Result<Config> {
    match ReadLines(lib.lower, Loading("", map[], {}), Split(text, '\n'))
    case Err(e) => Err(e)
    case Ok(st) => Finished(lib, st)
  }

  // ---------------------------------------------------------------- exactly what is loaded

  ghost predicate ToReplace(s: string) {
    |s| >= 8 && s[..8] == "REPLACE_"
  }

  ghost predicate LegalScope(s: Settings) {
    && (exists i :: 0 <= i < |TextOf(s, Authorization)| && !IsSpace(TextOf(s, Authorization)[i]))
    && !ToReplace(TextOf(s, Authorization))
    && |NamesOf(s, AllowedTargets)| >= 1 && !ToReplace(NamesOf(s, AllowedTargets)[0])
    && |NamesOf(s, Targets)| >= 1 && !ToReplace(NamesOf(s, Targets)[0])
  }

  ghost predicate LegalNumbers(s: Settings) {
    && 1 <= NumberOf(s, MinConcurrency) <= NumberOf(s, Concurrency) <= 256
    && NumberOf(s, GlobalRateLimit) >= 0 && NumberOf(s, PerTargetRateLimit) >= 0 && NumberOf(s, ModuleTimeout) >= 1
    && 1 <= NumberOf(s, MaxConcurrentPorts) <= 1024
    && NumberOf(s, BaseTimeout) >= 1 && NumberOf(s, MaxTimeout) >= NumberOf(s, BaseTimeout)
    && forall k, p :: k in {Ports, TcpPorts, TcpProbePorts} && p in PortsOf(s, k) ==> 1 <= p <= 65535
  }

  ghost predicate LegalChoices(lower: char -> char, s: Settings) {
    && !IsOn(s, ActiveTestingEnabled) && !IsOn(s, RequireAuth)
    && !IsOn(s, EnableScreenshots) && !IsOn(s, EnableAuthenticatedCrawling)
    && (var driver := TrimSpace(TextOf(s, DatabaseDriver));
        driver == "" || (|driver| == 6 && forall i :: 0 <= i < 6 ==> lower(driver[i]) == "sqlite"[i]))
  }

  /** Settings that may be used: an authorized scope, numbers in range, no choice that needs more settings. */
  ghost predicate IsLegal(lower: char -> char, s: Settings) {
    LegalScope(s) && LegalNumbers(s) && LegalChoices(lower, s)
  }

  lemma CheckedExactly(lib: Library, cfg: Config)
    ensures Checked(lib, cfg) == if IsLegal(lib.lower, cfg.values) then Ok(cfg) else Err(Refused)
  {
    ScopeIsChecked(cfg.values);
    NumbersAreChecked(cfg.values);
    ChoicesAreChecked(lib.lower, cfg.values);
  }

  lemma ScopeIsChecked(s: Settings)
    ensures LegalScope(s) <==>
      && NamesOf(s, AllowedTargets) != [] && NamesOf(s, Targets) != []
      && TrimSpace(TextOf(s, Authorization)) != "" && !IsPlaceholder(TextOf(s, Authorization))
      && !IsPlaceholder(NamesOf(s, AllowedTargets)[0]) && !IsPlaceholder(NamesOf(s, Targets)[0])
  {
    TrimBlank(TextOf(s, Authorization));
  }

  lemma NumbersAreChecked(s: Settings)
    ensures LegalNumbers(s) <==> ValidScheduler(s) && ValidPortScan(s) && ValidPorts(s)
  {
    PortsAreChecked(s);
  }

  lemma ChoicesAreChecked(lower: char -> char, s: Settings)
    ensures LegalChoices(lower, s) <==>
      ValidSwitches(s) && ToLower(lower, TrimSpace(TextOf(s, DatabaseDriver))) in {"", "sqlite"}
  {
    var driver := TrimSpace(TextOf(s, DatabaseDriver));
    assert ToLower(lower, driver) == "sqlite" <==>
      (|driver| == 6 && forall i :: 0 <= i < 6 ==> lower(driver[i]) == "sqlite"[i]);
  }

  lemma PortsAreChecked(s: Settings)
    ensures ValidPorts(s) <==>
      forall k, p :: k in {Ports, TcpPorts, TcpProbePorts} && p in PortsOf(s, k) ==> 1 <= p <= 65535
  {
    PortRange(PortsOf(s, Ports));
    PortRange(PortsOf(s, TcpPorts));
    PortRange(PortsOf(s, TcpProbePorts));
  }

  lemma PortRange(ports: seq<int>)
    ensures ArePorts(ports) <==> forall p :: p in ports ==> 1 <= p <= 65535
  {
    if forall p :: p in ports ==> 1 <= p <= 65535 {
      forall i | 0 <= i < |ports| ensures IsPort(ports[i]) { assert ports[i] in ports; }
    }
  }

  /** The configuration after the lines and the profile, if there is one and it is known. */
  function Profiled(lower: char -> char, st: Loading): Option<Config> {
    var name := TextOf(st.values, Profile);
    if AllSpace(name) then Some(Config(st.values, []))
    else
      match P.FindProfile(lower, name)
      case None => None
      case Some(p) => Some(ApplyProfile(Config(st.values, []), P.Builtin(p), P.ProfileName(p), st.explicit))
  }

  /** A document loads exactly when its lines can be read, its profile is known and its settings are legal. */
  lemma LoadedExactly(lib: Library, text: string)
    ensures var lines := ReadLines(lib.lower, Loading("", map[], {}), Split(text, '\n'));
      && (Loaded(lib, text).Ok? <==>
            && lines.Ok? && Profiled(lib.lower, lines.value).Some?
            && IsLegal(lib.lower, Profiled(lib.lower, lines.value).value.values))
      && (Loaded(lib, text).Ok? ==> Loaded(lib, text).value == Profiled(lib.lower, lines.value).value)
  {
    var lines := ReadLines(lib.lower, Loading("", map[], {}), Split(text, '\n'));
    if lines.Ok? {
      TrimBlank(TextOf(lines.value.values, Profile));
      if Profiled(lib.lower, lines.value).Some? { CheckedExactly(lib, Profiled(lib.lower, lines.value).value); }
    }
  }

  /** Applies a profile with the plan merged in a loop over the explicit keys. */
  method ApplyProfileTo(cfg: Config, profile: P.ScanProfile, name: string, explicit: set<Key>) returns (r: Config)
    ensures r == ApplyProfile(cfg, profile, name, explicit)
  {
    var plan := MergeModulePlan(profile.modules, explicit);
    r := Config(ProfileValues(cfg.values, profile, name, explicit), plan);
  }

  method Finish(lib: Library, st: Loading) returns (r: Result<Config>)
    ensures r == Finished(lib, st)
  {
    var cfg := Config(st.values, []);
    var profile := TextOf(st.values, Profile);
    if TrimSpace(profile) == "" {
      return Checked(lib, cfg);
    }
    match P.FindProfile(lib.lower, profile) {
      case None => r := Err(UnknownProfile);
      case Some(p) =>
        var applied := ApplyProfileTo(cfg, P.Builtin(p), P.ProfileName(p), st.explicit);
        r := Checked(lib, applied);
    }
  }

  method Load(lib: Library, text: string) returns (r: Result<Config>)
    ensures r == Loaded(lib, text)
  {
    var lines := LoadLines(lib.lower, text);
    match lines {
      case Err(e) => r := Err(e);
      case Ok(st) => r := Finish(lib, st);
    }
  }
}
