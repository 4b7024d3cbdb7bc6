/** The configuration keys that a generated engagement file sets, and two that its profile may set instead. */
module ConfigKeys {
  import opened Basics
  import opened Text

  datatype Section = DatabaseSection | ScopeSection | SchedulerSection | DiscoverySection | PortScanSection
    | HttpSection | ScanSection | ActiveTestingSection | ApiSection | ReportingSection

  datatype Key =
    | DatabaseDriver | DatabasePath
    | AllowedTargets | Authorization
    | Concurrency | MinConcurrency | GlobalRateLimit | PerTargetRateLimit | ModuleTimeout
    | CidrMaxHosts | EnableDnsDiscovery | EnableDnsRecords | EnableReverseDns | EnableTcpHostProbes | TcpProbePorts
    | PortProfile | EnableTcp | EnableUdp | EnableBanner | EnableRawSyn | EnableRawScanning
    | MaxConcurrentPorts | BaseTimeout | MaxTimeout | TcpPorts
    | MaxDepth | MaxPagesPerHost | EnableTls | EnableCrawler | EnableJsAnalysis | EnableApiDiscovery
    | EnableScreenshots | EnableAuthenticatedCrawling
    | Profile | Targets | Ports
    | ActiveTestingEnabled
    | RequireAuth
    | OutputDir

  datatype Kind = PlainText | LowerText | Integer | Switch | NameList | PortList

  function SectionOf(k: Key): Section {
    match k
    case DatabaseDriver | DatabasePath
      => DatabaseSection
    case AllowedTargets | Authorization
      => ScopeSection
    case Concurrency | MinConcurrency | GlobalRateLimit | PerTargetRateLimit | ModuleTimeout
      => SchedulerSection
    case CidrMaxHosts | EnableDnsDiscovery | EnableDnsRecords | EnableReverseDns | EnableTcpHostProbes | TcpProbePorts
      => DiscoverySection
    case PortProfile | EnableTcp | EnableUdp | EnableBanner | EnableRawSyn | EnableRawScanning
      | MaxConcurrentPorts | BaseTimeout | MaxTimeout | TcpPorts
      => PortScanSection
    case MaxDepth | MaxPagesPerHost | EnableTls | EnableCrawler | EnableJsAnalysis | EnableApiDiscovery
      | EnableScreenshots | EnableAuthenticatedCrawling
      => HttpSection
    case Profile | Targets | Ports
      => ScanSection
    case ActiveTestingEnabled
      => ActiveTestingSection
    case RequireAuth
      => ApiSection
    case OutputDir
      => ReportingSection
  }

  function KindOf(k: Key): Kind {
    match k
    case DatabaseDriver
      => LowerText
    case DatabasePath | Authorization | PortProfile | Profile | OutputDir
      => PlainText
    case Concurrency | MinConcurrency | GlobalRateLimit | PerTargetRateLimit | ModuleTimeout | CidrMaxHosts
      | MaxConcurrentPorts | BaseTimeout | MaxTimeout | MaxDepth | MaxPagesPerHost
      => Integer
    case AllowedTargets | Targets
      => NameList
    case TcpProbePorts | TcpPorts | Ports
      => PortList
    case _ => Switch
  }

  function SectionName(s: Section): string {
    match s
    case DatabaseSection => "database"
    case ScopeSection => "scope"
    case SchedulerSection => "scheduler"
    case DiscoverySection => "discovery"
    case PortScanSection => "portscan"
    case HttpSection => "http"
    case ScanSection => "scan"
    case ActiveTestingSection => "active_testing"
    case ApiSection => "api"
    case ReportingSection => "reporting"
  }

  function KeyName(k: Key): string {
    match k
    case DatabaseDriver => "driver"
    case DatabasePath => "path"
    case AllowedTargets => "allowed_targets"
    case Authorization => "authorization"
    case Concurrency => "concurrency"
    case MinConcurrency => "min_concurrency"
    case GlobalRateLimit => "global_rate_limit_ms"
    case PerTargetRateLimit => "per_target_rate_limit_ms"
    case ModuleTimeout => "module_timeout_ms"
    case CidrMaxHosts => "cidr_max_hosts"
    case EnableDnsDiscovery => "enable_dns_discovery"
    case EnableDnsRecords => "enable_dns_records"
    case EnableReverseDns => "enable_reverse_dns"
    case EnableTcpHostProbes => "enable_tcp_host_probes"
    case TcpProbePorts => "tcp_probe_ports"
    case PortProfile => "profile"
    case EnableTcp => "enable_tcp"
    case EnableUdp => "enable_udp"
    case EnableBanner => "enable_banner"
    case EnableRawSyn => "enable_raw_syn"
    case EnableRawScanning => "enable_raw_scanning"
    case MaxConcurrentPorts => "max_concurrent_ports"
    case BaseTimeout => "base_timeout_ms"
    case MaxTimeout => "max_timeout_ms"
    case TcpPorts => "tcp_ports"
    case MaxDepth => "max_depth"
    case MaxPagesPerHost => "max_pages_per_host"
    case EnableTls => "enable_tls"
    case EnableCrawler => "enable_crawler"
    case EnableJsAnalysis => "enable_js_analysis"
    case EnableApiDiscovery => "enable_api_discovery"
    case EnableScreenshots => "enable_screenshots"
    case EnableAuthenticatedCrawling => "enable_authenticated_crawling"
    case Profile => "profile"
    case Targets => "targets"
    case Ports => "ports"
    case ActiveTestingEnabled => "enabled"
    case RequireAuth => "require_auth"
    case OutputDir => "output_dir"
  }

  /**
   * The key a line addresses. The source switches on section + "." + name; every key there has one dot,
   * so the switch accepts exactly the pairs listed here.
   */
  function Lookup(section: string, name: string): Option<Key> {
    match SectionNamed(section)
    case None => None
    case Some(s) => KeyNamed(s, name)
  }

  function SectionNamed(section: string): Option<Section> {
    if section == "database" then Some(DatabaseSection)
    else if section == "scope" then Some(ScopeSection)
    else if section == "scheduler" then Some(SchedulerSection)
    else if section == "discovery" then Some(DiscoverySection)
    else if section == "portscan" then Some(PortScanSection)
    else if section == "http" then Some(HttpSection)
    else if section == "scan" then Some(ScanSection)
    else if section == "active_testing" then Some(ActiveTestingSection)
    else if section == "api" then Some(ApiSection)
    else if section == "reporting" then Some(ReportingSection)
    else None
  }

  function KeyNamed(s: Section, name: string): Option<Key> {
    match s
    case DatabaseSection => DatabaseKey(name)
    case ScopeSection => ScopeKey(name)
    case SchedulerSection => SchedulerKey(name)
    case DiscoverySection => DiscoveryKey(name)
    case PortScanSection => PortScanKey(name)
    case HttpSection => HttpKey(name)
    case ScanSection => ScanKey(name)
    case ActiveTestingSection => ActiveTestingKey(name)
    case ApiSection => ApiKey(name)
    case ReportingSection => ReportingKey(name)
  }

  function DatabaseKey(name: string): Option<Key> {
    if name == "driver" then Some(DatabaseDriver)
    else if name == "path" then Some(DatabasePath)
    else None
  }

  function ScopeKey(name: string): Option<Key> {
    if name == "allowed_targets" then Some(AllowedTargets)
    else if name == "authorization" then Some(Authorization)
    else None
  }

  function SchedulerKey(name: string): Option<Key> {
    if name == "concurrency" then Some(Concurrency)
    else if name == "min_concurrency" then Some(MinConcurrency)
    else if name == "rate_limit_ms" || name == "global_rate_limit_ms" then Some(GlobalRateLimit)
    else if name == "per_target_rate_limit_ms" then Some(PerTargetRateLimit)
    else if name == "module_timeout_ms" then Some(ModuleTimeout)
    else None
  }

  function DiscoveryKey(name: string): Option<Key> {
    if name == "cidr_max_hosts" then Some(CidrMaxHosts)
    else if name == "enable_dns_discovery" then Some(EnableDnsDiscovery)
    else if name == "enable_dns_records" then Some(EnableDnsRecords)
    else if name == "enable_reverse_dns" then Some(EnableReverseDns)
    else if name == "enable_tcp_host_probes" then Some(EnableTcpHostProbes)
    else if name == "tcp_probe_ports" then Some(TcpProbePorts)
    else None
  }

  function PortScanKey(name: string): Option<Key> {
    if name == "profile" then Some(PortProfile)
    else if name == "enable_tcp" then Some(EnableTcp)
    else if name == "enable_udp" then Some(EnableUdp)
    else if name == "enable_banner" then Some(EnableBanner)
    else if name == "enable_raw_syn" then Some(EnableRawSyn)
    else if name == "enable_raw_scanning" then Some(EnableRawScanning)
    else if name == "max_concurrent_ports" then Some(MaxConcurrentPorts)
    else if name == "base_timeout_ms" then Some(BaseTimeout)
    else if name == "max_timeout_ms" then Some(MaxTimeout)
    else if name == "tcp_ports" then Some(TcpPorts)
    else None
  }

  function HttpKey(name: string): Option<Key> {
    if name == "max_depth" then Some(MaxDepth)
    else if name == "max_pages_per_host" then Some(MaxPagesPerHost)
    else if name == "enable_tls" then Some(EnableTls)
    else if name == "enable_crawler" then Some(EnableCrawler)
    else if name == "enable_js_analysis" then Some(EnableJsAnalysis)
    else if name == "enable_api_discovery" then Some(EnableApiDiscovery)
    else if name == "enable_screenshots" then Some(EnableScreenshots)
    else if name == "enable_authenticated_crawling" then Some(EnableAuthenticatedCrawling)
    else None
  }

  function ScanKey(name: string): Option<Key> {
    if name == "profile" then Some(Profile)
    else if name == "targets" then Some(Targets)
    else if name == "ports" then Some(Ports)
    else None
  }

  function ActiveTestingKey(name: string): Option<Key> {
    if name == "enabled" then Some(ActiveTestingEnabled)
    else None
  }

  function ApiKey(name: string): Option<Key> {
    if name == "require_auth" then Some(RequireAuth)
    else None
  }

  function ReportingKey(name: string): Option<Key> {
    if name == "output_dir" then Some(OutputDir)
    else None
  }

  // ---------------------------------------------------------------- every key is found under its own name

  lemma SectionNamesDiffer()
    ensures SectionName(DatabaseSection) != SectionName(PortScanSection)
    ensures SectionName(SchedulerSection) != SectionName(DiscoverySection)
    ensures SectionName(SchedulerSection) != SectionName(ReportingSection)
    ensures SectionName(DiscoverySection) != SectionName(ReportingSection)
    ensures SectionName(HttpSection) != SectionName(ScanSection)
  {
    Differ("discovery", "scheduler", 0);
    Differ("portscan", "database", 0);
    Differ("scan", "http", 0);
    Differ("reporting", "scheduler", 0);
    Differ("reporting", "discovery", 0);
  }

  lemma SchedulerKeyIsFound(k: Key)
    requires SectionOf(k) == SchedulerSection
    ensures SchedulerKey(KeyName(k)) == Some(k)
  {
  }

  lemma DiscoveryKeyIsFound(k: Key)
    requires SectionOf(k) == DiscoverySection
    ensures DiscoveryKey(KeyName(k)) == Some(k)
  {
    Differ("enable_reverse_dns", "enable_dns_records", 7);
  }

  lemma PortScanKeyIsFound(k: Key)
    requires SectionOf(k) == PortScanSection
    ensures PortScanKey(KeyName(k)) == Some(k)
  {
    Differ("enable_udp", "enable_tcp", 7);
    Differ("max_timeout_ms", "enable_raw_syn", 0);
  }

  lemma HttpKeyIsFound(k: Key)
    requires SectionOf(k) == HttpSection
    ensures HttpKey(KeyName(k)) == Some(k)
  {
    Differ("enable_js_analysis", "max_pages_per_host", 0);
    Differ("enable_screenshots", "max_pages_per_host", 0);
    Differ("enable_screenshots", "enable_js_analysis", 7);
  }

  lemma ScanKeyIsFound(k: Key)
    requires SectionOf(k) == ScanSection
    ensures ScanKey(KeyName(k)) == Some(k)
  {
    Differ("targets", "profile", 0);
  }

  lemma SectionIsFound(s: Section)
    ensures SectionNamed(SectionName(s)) == Some(s)
  {
    SectionNamesDiffer();
  }

  lemma KeyIsFoundInSection(k: Key)
    ensures KeyNamed(SectionOf(k), KeyName(k)) == Some(k)
  {
    match SectionOf(k)
    case SchedulerSection => SchedulerKeyIsFound(k);
    case DiscoverySection => DiscoveryKeyIsFound(k);
    case PortScanSection => PortScanKeyIsFound(k);
    case HttpSection => HttpKeyIsFound(k);
    case ScanSection => ScanKeyIsFound(k);
    case _ =>
  }

  lemma KeyIsFound(k: Key)
    ensures Lookup(SectionName(SectionOf(k)), KeyName(k)) == Some(k)
  {
    SectionIsFound(SectionOf(k));
    KeyIsFoundInSection(k);
  }

  lemma SectionNameIsName(s: Section)
    ensures IsName(SectionName(s))
  {
  }

  lemma RateLimitIsName(k: Key)
    requires k.GlobalRateLimit? || k.PerTargetRateLimit?
    ensures IsName(KeyName(k))
  {
  }

  lemma SchedulerKeyIsName(k: Key)
    requires SectionOf(k) == SchedulerSection && !k.GlobalRateLimit? && !k.PerTargetRateLimit?
    ensures IsName(KeyName(k))
  {
  }

  lemma DnsSwitchIsName(k: Key)
    requires k.EnableDnsDiscovery? || k.EnableDnsRecords? || k.EnableReverseDns?
    ensures IsName(KeyName(k))
  {
  }

  lemma DiscoveryKeyIsName(k: Key)
    requires SectionOf(k) == DiscoverySection
    requires !k.EnableDnsDiscovery? && !k.EnableDnsRecords? && !k.EnableReverseDns?
    ensures IsName(KeyName(k))
  {
  }

  lemma PortScanSwitchIsName(k: Key)
    requires SectionOf(k) == PortScanSection && KindOf(k) == Switch
    ensures IsName(KeyName(k))
  {
  }

  lemma PortScanSettingIsName(k: Key)
    requires SectionOf(k) == PortScanSection && KindOf(k) != Switch
    ensures IsName(KeyName(k))
  {
  }

  lemma HttpSwitchIsName(k: Key)
    requires k.EnableTls? || k.EnableCrawler? || k.EnableJsAnalysis? || k.EnableApiDiscovery?
    ensures IsName(KeyName(k))
  {
  }

  lemma HttpKeyIsName(k: Key)
    requires k.MaxDepth? || k.MaxPagesPerHost? || k.EnableScreenshots?
    ensures IsName(KeyName(k))
  {
  }

  lemma OtherKeyIsName(k: Key)
    requires SectionOf(k) !in {SchedulerSection, DiscoverySection, PortScanSection, HttpSection}
    ensures IsName(KeyName(k))
  {
  }

  lemma KeyNameIsName(k: Key)
    ensures IsName(KeyName(k))
  {
    match k
    case GlobalRateLimit | PerTargetRateLimit => RateLimitIsName(k);
    case Concurrency | MinConcurrency | ModuleTimeout => SchedulerKeyIsName(k);
    case EnableDnsDiscovery | EnableDnsRecords | EnableReverseDns => DnsSwitchIsName(k);
    case CidrMaxHosts | EnableTcpHostProbes | TcpProbePorts => DiscoveryKeyIsName(k);
    case EnableTcp | EnableUdp | EnableBanner | EnableRawSyn | EnableRawScanning => PortScanSwitchIsName(k);
    case PortProfile | MaxConcurrentPorts | BaseTimeout | MaxTimeout | TcpPorts => PortScanSettingIsName(k);
    case EnableTls | EnableCrawler | EnableJsAnalysis | EnableApiDiscovery => HttpSwitchIsName(k);
    case MaxDepth | MaxPagesPerHost | EnableScreenshots => HttpKeyIsName(k);
    case EnableAuthenticatedCrawling =>
    case _ => OtherKeyIsName(k);
  }
}
