/** Built-in scan profiles: their names, aliases and module plans. */
module ScanProfiles {
  import opened Basics
  import opened Text

  datatype ModuleFamily = Discovery | PortScan | Service | Http | Specialized | PassiveIntel

  datatype ProfileKey =
    | Quick
    | Standard
    | Exhaustive
    | ExternalInfrastructure
    | InternalNetwork
    | WebApplication
    | APIAssessment
    | ActiveDirectory
    | Kubernetes
    | CloudInfrastructure
    | BugBounty
    | Compliance

  datatype ScanProfile = ScanProfile(modules: set<ModuleFamily>, ports: seq<int>, concurrency: int, timeoutSec: int)

  /** The table of built-in profiles, with module names already normalized. */
  function Builtin(k: ProfileKey): ScanProfile {
    match k
    case Quick => ScanProfile({Discovery, PortScan}, [80, 443, 22, 8080], 50, 30)
    case Standard => ScanProfile({Discovery, PortScan, Service, Http}, [80, 443, 22, 21, 25, 8080, 8443], 20, 60)
    case Exhaustive => ScanProfile({Discovery, PortScan, Service, Specialized, Http, PassiveIntel}, [1, 65535], 10, 300)
    case ExternalInfrastructure =>
      ScanProfile({Discovery, PortScan, Service, Http, PassiveIntel}, [80, 443, 53, 8080, 8443], 25, 120)
    case InternalNetwork => ScanProfile({Discovery, PortScan, Service, Specialized}, [139, 445, 389, 636, 88], 30, 90)
    case WebApplication => ScanProfile({Discovery, PortScan, Service, Http}, [80, 443, 8000, 8080, 8443], 15, 180)
    case APIAssessment => ScanProfile({Discovery, PortScan, Service, Http}, [80, 443, 3000, 5000, 8080], 20, 120)
    case ActiveDirectory => ScanProfile({Discovery, PortScan, Service, Specialized}, [88, 389, 636, 3268], 10, 180)
    case Kubernetes => ScanProfile({Discovery, PortScan, Service, Http, Specialized}, [6443, 10250, 10255], 15, 60)
    case CloudInfrastructure => ScanProfile({Discovery, PortScan, Service, Http, PassiveIntel}, [80, 443], 20, 60)
    case BugBounty => ScanProfile({Discovery, PortScan, Service, Http, PassiveIntel}, [80, 443], 30, 240)
    case Compliance => ScanProfile({Discovery, PortScan, Service, Http}, [80, 443], 10, 60)
  }

  function ProfileName(k: ProfileKey): string {
    match k
    case Quick => "quick"
    case Standard => "standard"
    case Exhaustive => "exhaustive"
    case ExternalInfrastructure => "external_infrastructure"
    case InternalNetwork => "internal_network"
    case WebApplication => "web_application"
    case APIAssessment => "api_assessment"
    case ActiveDirectory => "active_directory"
    case Kubernetes => "kubernetes"
    case CloudInfrastructure => "cloud_infrastructure"
    case BugBounty => "bug_bounty"
    case Compliance => "compliance"
  }

  /** The profile with this exact name. */
  function ByName(name: string): (r: Option<ProfileKey>)
    ensures r.Some? ==> name == ProfileName(r.value)
  {
    if name == "quick" then Some(Quick)
    else if name == "standard" then Some(Standard)
    else if name == "exhaustive" then Some(Exhaustive)
    else if name == "external_infrastructure" then Some(ExternalInfrastructure)
    else if name == "internal_network" then Some(InternalNetwork)
    else if name == "web_application" then Some(WebApplication)
    else if name == "api_assessment" then Some(APIAssessment)
    else if name == "active_directory" then Some(ActiveDirectory)
    else if name == "kubernetes" then Some(Kubernetes)
    else if name == "cloud_infrastructure" then Some(CloudInfrastructure)
    else if name == "bug_bounty" then Some(BugBounty)
    else if name == "compliance" then Some(Compliance)
    else None
  }

  function Alias(name: string): string {
    if name == "all" || name == "all_scan_types" || name == "all_scans" || name == "all_types" then "exhaustive"
    else if name == "web" then "web_application"
    else if name == "network" || name == "internal" then "internal_network"
    else if name == "api" || name == "api_assessment" then "api_assessment"
    else if name == "external" || name == "perimeter" then "external_infrastructure"
    else if name == "cloud" then "cloud_infrastructure"
    else if name == "ad" then "active_directory"
    else if name == "k8s" then "kubernetes"
    else name
  }

  function Underscored(s: string): (r: string)
    ensures |r| == |s| && forall i :: 0 <= i < |s| ==> r[i] == if s[i] == '-' || s[i] == ' ' then '_' else s[i]
  {
    seq(|s|, i requires 0 <= i < |s| => if s[i] == '-' || s[i] == ' ' then '_' else s[i])
  }

  function NormalizeProfileName(lower: char -> char, name: string): string {
    Alias(Underscored(ToLower(lower, TrimSpace(name))))
  }

  function FindProfile(lower: char -> char, name: string): Option<ProfileKey> {
    ByName(NormalizeProfileName(lower, name))
  }

  // ---------------------------------------------------------------- profile names are their own normal form

  lemma NormalizeName(lower: char -> char, s: string)
    requires KeepsLowerCase(lower) && IsName(s)
    ensures NormalizeProfileName(lower, s) == Alias(s)
  {
    assert !IsSpace(s[0]) && !IsSpace(s[|s| - 1]);
    TrimBare(s, IsSpace);
    assert ToLower(lower, s) == s;
    assert Underscored(s) == s;
  }

  lemma ShortNames()
    ensures IsName("quick") && IsName("standard") && IsName("exhaustive")
    ensures IsName("kubernetes") && IsName("bug_bounty") && IsName("compliance")
  {
  }

  lemma MediumNames()
    ensures IsName("internal_network") && IsName("web_application")
    ensures IsName("api_assessment") && IsName("active_directory")
  {
  }

  lemma LongNames()
    ensures IsName("external_infrastructure") && IsName("cloud_infrastructure")
  {
  }

  lemma ProfileNameIsName(k: ProfileKey)
    ensures IsName(ProfileName(k))
  {
    ShortNames();
    MediumNames();
    LongNames();
  }

  lemma ProfileNameIsNoAlias(k: ProfileKey)
    ensures Alias(ProfileName(k)) == ProfileName(k)
  {
    var s := ProfileName(k);
    Differ("standard", "internal", 0);
    Differ("standard", "external", 0);
    Differ("quick", "cloud", 0);
    Differ("api_assessment", "all_scan_types", 1);
  }

  lemma EarlyProfileIsFound(k: ProfileKey)
    requires k in {Quick, Standard, Exhaustive, ExternalInfrastructure, InternalNetwork, WebApplication, APIAssessment}
    ensures ByName(ProfileName(k)) == Some(k)
  {
  }

  lemma LaterProfileIsFound(k: ProfileKey)
    requires k in {ActiveDirectory, Kubernetes, CloudInfrastructure}
    ensures ByName(ProfileName(k)) == Some(k)
  {
    Differ("kubernetes", "exhaustive", 0);
    Differ("active_directory", "internal_network", 0);
  }

  lemma LastProfileIsFound(k: ProfileKey)
    requires k in {BugBounty, Compliance}
    ensures ByName(ProfileName(k)) == Some(k)
  {
    Differ("bug_bounty", "exhaustive", 0);
    Differ("bug_bounty", "kubernetes", 0);
    Differ("compliance", "exhaustive", 0);
    Differ("compliance", "kubernetes", 0);
    Differ("compliance", "bug_bounty", 0);
  }

  lemma ProfileIsFoundByName(k: ProfileKey)
    ensures ByName(ProfileName(k)) == Some(k)
  {
    if k.ActiveDirectory? || k.Kubernetes? || k.CloudInfrastructure? {
      LaterProfileIsFound(k);
    } else if k.BugBounty? || k.Compliance? {
      LastProfileIsFound(k);
    } else {
      EarlyProfileIsFound(k);
    }
  }

  /** A profile is found again under the name that was written for it. */
  lemma ProfileRoundTrip(lower: char -> char, k: ProfileKey)
    requires KeepsLowerCase(lower)
    ensures FindProfile(lower, ProfileName(k)) == Some(k)
  {
    ProfileNameIsName(k);
    NormalizeName(lower, ProfileName(k));
    ProfileNameIsNoAlias(k);
    ProfileIsFoundByName(k);
  }

  // ---------------------------------------------------------------- every name of a profile

  /** The name and the aliases of a profile. */
  function Spellings(k: ProfileKey): set<string> {
    match k
    case Exhaustive => {"exhaustive", "all", "all_scan_types", "all_scans", "all_types"}
    case WebApplication => {"web_application", "web"}
    case InternalNetwork => {"internal_network", "network", "internal"}
    case APIAssessment => {"api_assessment", "api"}
    case ExternalInfrastructure => {"external_infrastructure", "external", "perimeter"}
    case CloudInfrastructure => {"cloud_infrastructure", "cloud"}
    case ActiveDirectory => {"active_directory", "ad"}
    case Kubernetes => {"kubernetes", "k8s"}
    case Quick => {"quick"}
    case Standard => {"standard"}
    case BugBounty => {"bug_bounty"}
    case Compliance => {"compliance"}
  }

  /** The text with letters of either case, and hyphens or blanks in place of underscores. */
  ghost predicate SpellsOut(lower: char -> char, text: string, s: string) {
    && |text| == |s|
    && forall i :: 0 <= i < |s| ==>
         if lower(text[i]) == '-' || lower(text[i]) == ' ' then s[i] == '_' else s[i] == lower(text[i])
  }

  lemma ShortAliases()
    ensures Alias("all") == "exhaustive" && Alias("web") == "web_application" && Alias("api") == "api_assessment"
    ensures Alias("k8s") == "kubernetes" && Alias("ad") == "active_directory"
  {
    Differ("web", "all", 0);
    Differ("api", "all", 1);
    Differ("api", "web", 0);
    Differ("k8s", "all", 0);
    Differ("k8s", "web", 0);
    Differ("k8s", "api", 0);
  }

  lemma LongAliases()
    ensures Alias("all_scan_types") == Alias("all_scans") == Alias("all_types") == "exhaustive"
    ensures Alias("network") == Alias("internal") == "internal_network"
    ensures Alias("external") == Alias("perimeter") == "external_infrastructure"
    ensures Alias("cloud") == "cloud_infrastructure"
  {
    Differ("external", "internal", 0);
    Differ("perimeter", "all_scans", 0);
    Differ("perimeter", "all_types", 0);
  }

  /** Every spelling is known. */
  lemma SpellingIsFound(k: ProfileKey, s: string)
    requires s in Spellings(k)
    ensures ByName(Alias(s)) == Some(k)
  {
    ShortAliases();
    LongAliases();
    ProfileIsFoundByName(k);
    ProfileNameIsNoAlias(k);
  }

  /** Nothing else is. */
  lemma OnlySpellingsAreFound(k: ProfileKey, s: string)
    requires ByName(Alias(s)) == Some(k)
    ensures s in Spellings(k)
  {
    if Alias(s) == s {
      NameIsSpelling(k);
    } else {
      AliasIsSpelling(s, k);
    }
  }

  lemma NameIsSpelling(k: ProfileKey)
    ensures ProfileName(k) in Spellings(k)
  {
  }

  lemma AliasIsSpelling(s: string, k: ProfileKey)
    requires Alias(s) == ProfileName(k) && Alias(s) != s
    ensures s in Spellings(k)
  {
    ProfileIsFoundByName(Exhaustive);
    ProfileIsFoundByName(WebApplication);
    ProfileIsFoundByName(InternalNetwork);
    ProfileIsFoundByName(APIAssessment);
    ProfileIsFoundByName(ExternalInfrastructure);
    ProfileIsFoundByName(CloudInfrastructure);
    ProfileIsFoundByName(ActiveDirectory);
    ProfileIsFoundByName(Kubernetes);
    ProfileIsFoundByName(k);
  }

  ghost predicate Names(lower: char -> char, text: string, k: ProfileKey) {
    exists s :: s in Spellings(k) && SpellsOut(lower, text, s)
  }

  /** Exactly which texts name a profile. */
  lemma FindProfileMeaning(lower: char -> char, name: string, k: ProfileKey)
    ensures FindProfile(lower, name) == Some(k) <==> Names(lower, TrimSpace(name), k)
  {
    var t := TrimSpace(name);
    var r := Underscored(ToLower(lower, t));
    forall s ensures SpellsOut(lower, t, s) <==> s == r {
    }
    if FindProfile(lower, name) == Some(k) { OnlySpellingsAreFound(k, r); }
    if r in Spellings(k) { SpellingIsFound(k, r); }
  }

  // ---------------------------------------------------------------- module plans

  const MODULE_ORDER: seq<ModuleFamily> := [Discovery, PortScan, Service, Http, Specialized, PassiveIntel]

  /** The planned families in their fixed order. */
  method OrderedPlan(families: set<ModuleFamily>) returns (plan: seq<ModuleFamily>)
    ensures plan == Plan(families)
  {
    plan := [];
    for i := 0 to |MODULE_ORDER|
      invariant plan == Among(MODULE_ORDER[..i], families)
    {
      assert MODULE_ORDER[..i + 1][..i] == MODULE_ORDER[..i];
      if MODULE_ORDER[i] in families {
        plan := plan + [MODULE_ORDER[i]];
      }
    }
    assert MODULE_ORDER[..|MODULE_ORDER|] == MODULE_ORDER;
  }

  function Among(order: seq<ModuleFamily>, families: set<ModuleFamily>): seq<ModuleFamily> {
    if order == [] then []
    else Among(order[..|order| - 1], families) + (if order[|order| - 1] in families then [order[|order| - 1]] else [])
  }

  function Plan(families: set<ModuleFamily>): seq<ModuleFamily> {
    Among(MODULE_ORDER, families)
  }

  lemma {:induction false} AmongMembers(order: seq<ModuleFamily>, families: set<ModuleFamily>, m: ModuleFamily)
    ensures m in Among(order, families) <==> m in order && m in families
  {
    if order != [] {
      AmongMembers(order[..|order| - 1], families, m);
      assert order == order[..|order| - 1] + [order[|order| - 1]];
    }
  }

  function Rank(m: ModuleFamily): nat {
    match m
    case Discovery => 0
    case PortScan => 1
    case Service => 2
    case Http => 3
    case Specialized => 4
    case PassiveIntel => 5
  }

  ghost predicate Ranked(plan: seq<ModuleFamily>) {
    forall i, j :: 0 <= i < j < |plan| ==> Rank(plan[i]) < Rank(plan[j])
  }

  lemma {:induction false} AmongIsRanked(order: seq<ModuleFamily>, families: set<ModuleFamily>)
    requires Ranked(order)
    ensures Ranked(Among(order, families))
  {
    if order != [] {
      var n := |order| - 1;
      AmongIsRanked(order[..n], families);
      forall i | 0 <= i < |Among(order[..n], families)|
        ensures Rank(Among(order[..n], families)[i]) < Rank(order[n])
      {
        AmongMembers(order[..n], families, Among(order[..n], families)[i]);
      }
    }
  }

  /** Discovery comes first and passive intelligence last, each family at most once. */
  lemma PlanIsRanked(families: set<ModuleFamily>)
    ensures Ranked(Plan(families))
  {
    AmongIsRanked(MODULE_ORDER, families);
  }

  /** A plan lists exactly the wanted families. */
  lemma PlanMembers(families: set<ModuleFamily>, m: ModuleFamily)
    ensures m in Plan(families) <==> m in families
  {
    AmongMembers(MODULE_ORDER, families, m);
    assert MODULE_ORDER[0] == Discovery && MODULE_ORDER[1] == PortScan && MODULE_ORDER[2] == Service;
    assert MODULE_ORDER[3] == Http && MODULE_ORDER[4] == Specialized && MODULE_ORDER[5] == PassiveIntel;
    match m case Discovery => case PortScan => case Service => case Http => case Specialized => case PassiveIntel =>
  }
}
