/** Rendering an engagement configuration and loading it again gives back the configuration. */
module EngagementRoundTrip {
  import opened Basics
  import opened Text
  import opened ConfigKeys
  import opened ConfigText
  import opened EngagementInput
  import opened EngagementConfig
  import P = ScanProfiles

  // ---------------------------------------------------------------- what is built

  /** Accepted input: a target, an authorization reference, and a profile with its name. */
  datatype Engagement = Engagement(target: string, authorization: string, profile: P.ScanProfile, name: string)

  function Built(e: Engagement): Config {
    ApplyRequestedProfile(ScopedConfig(e.target, e.authorization), e.profile, e.name)
  }

  /** Every setting of a built configuration, given the key's default. */
  function BuiltFrom(e: Engagement, k: Key, d: Value): Value {
    if k == AllowedTargets || k == Targets then Names([e.target])
    else if k == Authorization then Words(e.authorization)
    else if k == Profile || k == PortProfile then Words(e.name)
    else if k == Concurrency then Number(e.profile.concurrency)
    else if k == ModuleTimeout then Number(e.profile.timeoutSec * 1000)
    else if k == CidrMaxHosts then Number(256)
    else if k == TcpPorts then PortNumbers(if e.name == "exhaustive" then [] else e.profile.ports)
    else if k == EnableTcp then Flag(true)
    else d
  }

  function BuiltSetting(e: Engagement, k: Key): Value {
    BuiltFrom(e, k, DefaultSetting(k))
  }

  predicate ValidProfile(profile: P.ScanProfile) {
    1 <= profile.concurrency <= 256 && 0 < profile.timeoutSec <= 300 && ArePorts(profile.ports)
  }

  lemma BuiltinIsValid(p: P.ProfileKey)
    ensures ValidProfile(P.Builtin(p))
  {
  }

  function ScopedSetting(target: string, authorization: string, k: Key, d: Value): Value {
    if k == AllowedTargets || k == Targets then Names([target])
    else if k == Authorization then Words(authorization)
    else if k == CidrMaxHosts then Number(256)
    else if k == ActiveTestingEnabled || k == EnableRawSyn || k == EnableRawScanning then Flag(false)
    else d
  }

  lemma ScopeIsSet(target: string, authorization: string, k: Key, d: Value)
    ensures Get(ScopedConfig(target, authorization).values, k, d) == ScopedSetting(target, authorization, k, d)
  {
  }

  function RequestedSetting(k: Key, before: Value): Value {
    if k == Ports then PortNumbers([])
    else if k == EnableUdp || k == EnableRawSyn || k == EnableRawScanning then Flag(false)
    else before
  }

  lemma RequestIsSet(s: Settings, k: Key, d: Value)
    ensures Get(RequestedValues(s), k, d) == RequestedSetting(k, Get(s, k, d))
  {
  }

  /** The three stages together, on one setting. */
  lemma StagesCompose(e: Engagement, k: Key, d: Value)
    requires e.profile.concurrency > 0 && e.profile.timeoutSec > 0
    requires k == Ports ==> d == PortNumbers([])
    requires k == EnableUdp || k == EnableRawSyn || k == EnableRawScanning || k == ActiveTestingEnabled ==>
      d == Flag(false)
    ensures var scoped := ScopedSetting(e.target, e.authorization, k, d);
            RequestedSetting(k, ProfileSetting(scoped, e.profile, e.name, {}, k)) == BuiltFrom(e, k, d)
  {
  }

  lemma StagesAreApplied(e: Engagement, k: Key, d: Value)
    ensures var scoped := ScopedSetting(e.target, e.authorization, k, d);
            Get(Built(e).values, k, d) == RequestedSetting(k, ProfileSetting(scoped, e.profile, e.name, {}, k))
  {
    var s := ScopedConfig(e.target, e.authorization).values;
    ScopeIsSet(e.target, e.authorization, k, d);
    ProfileIsApplied(s, e.profile, e.name, {}, k, d);
    RequestIsSet(ProfileValues(s, e.profile, e.name, {}), k, d);
  }

  lemma SettingsAreBuilt(e: Engagement, k: Key)
    requires ValidProfile(e.profile)
    ensures Setting(Built(e).values, k) == BuiltSetting(e, k)
  {
    StagesAreApplied(e, k, DefaultSetting(k));
    StagesCompose(e, k, DefaultSetting(k));
  }

  /** The settings are those of an engagement; proofs below need no more than this. */
  ghost predicate IsBuilt(e: Engagement, s: Settings) {
    ValidProfile(e.profile) && forall k :: Setting(s, k) == BuiltSetting(e, k)
  }

  lemma BuiltIsBuilt(e: Engagement)
    requires ValidProfile(e.profile)
    ensures IsBuilt(e, Built(e).values)
  {
    forall k ensures Setting(Built(e).values, k) == BuiltSetting(e, k) { SettingsAreBuilt(e, k); }
  }

  lemma SqliteIsKept(lower: char -> char)
    requires KeepsLowerCase(lower)
    ensures TrimSpace("sqlite") == "sqlite" && ToLower(lower, "sqlite") == "sqlite"
  {
    TrimBare("sqlite", IsSpace);
    assert IsName("sqlite");
    assert ToLower(lower, "sqlite") == "sqlite";
  }

  lemma BuiltSchedulerIsValid(e: Engagement, s: Settings)
    requires IsBuilt(e, s)
    ensures ValidScheduler(s)
  {
  }

  lemma BuiltPortScanIsValid(e: Engagement, s: Settings)
    requires IsBuilt(e, s)
    ensures ValidPortScan(s)
  {
  }

  lemma BuiltPortsAreValid(e: Engagement, s: Settings)
    requires IsBuilt(e, s)
    ensures ValidPorts(s)
  {
  }

  lemma BuiltSwitchesAreValid(e: Engagement, s: Settings)
    requires IsBuilt(e, s)
    ensures ValidSwitches(s)
  {
  }

  lemma BuiltTextsAreValid(lower: char -> char, e: Engagement, s: Settings)
    requires IsBuilt(e, s) && KeepsLowerCase(lower) && TrimSpace(e.authorization) != ""
    ensures ValidTexts(lower, s)
  {
    SqliteIsKept(lower);
  }

  lemma BuiltIsValid(lower: char -> char, e: Engagement, s: Settings)
    requires IsBuilt(e, s) && KeepsLowerCase(lower) && TrimSpace(e.authorization) != ""
    ensures Validate(lower, s)
  {
    BuiltSchedulerIsValid(e, s);
    BuiltPortScanIsValid(e, s);
    BuiltPortsAreValid(e, s);
    BuiltSwitchesAreValid(e, s);
    BuiltTextsAreValid(lower, e, s);
  }

  lemma ReferenceIsBare(lib: Library, value: string)
    requires Lawful(lib) && AuthorizationReference(lib, value).Some?
    ensures var authorization := AuthorizationReference(lib, value).value;
            Quotable(authorization) && TrimSpace(authorization) == authorization && !IsPlaceholder(authorization)
  {
    AuthorizationIsHarmless(lib, value);
    TrimBare(AuthorizationReference(lib, value).value, IsSpace);
  }

  lemma TargetIsQuotable(lib: Library, value: string)
    requires Lawful(lib) && EngagementTarget(lib, value).Some?
    ensures var target := EngagementTarget(lib, value).value;
            Quotable(target) && ',' !in target && !IsPlaceholder(target)
  {
    TargetIsHarmless(lib, value);
    var target := EngagementTarget(lib, value).value;
    assert "REPLACE_"[7] == '_';
    assert |target| >= 8 ==> target[..8][7] == target[7];
  }

  /** What the three validators accept. */
  function Accepted(lib: Library, input: Input): Option<Engagement> {
    match EngagementTarget(lib, input.target)
    case None => None
    case Some(target) =>
      match AuthorizationReference(lib, input.authorization)
      case None => None
      case Some(authorization) =>
        match P.FindProfile(lib.lower, RequestedName(input.profile))
        case None => None
        case Some(p) => Some(Engagement(target, authorization, P.Builtin(p), P.ProfileName(p)))
  }

  /** Validation never refuses what was built, so the three inputs alone decide: exactly these are accepted. */
  lemma AcceptedExactly(lib: Library, input: Input)
    requires Lawful(lib)
    ensures BuildEngagementConfig(lib, input).Ok? <==>
      && IsTarget(lib, TrimSpace(input.target))
      && IsReference(lib, TrimSpace(input.authorization))
      && (AllSpace(input.profile) || exists p :: P.Names(lib.lower, TrimSpace(input.profile), p))
  {
    BuildSucceeds(lib, input);
    TargetMeaning(lib, input.target);
    ReferenceMeaning(lib, input.authorization);
    RequestedProfile(lib, input.profile);
  }

  /** Without a profile the standard one is requested. */
  lemma RequestedProfile(lib: Library, profile: string)
    requires Lawful(lib)
    ensures AllSpace(profile) ==> P.FindProfile(lib.lower, RequestedName(profile)) == Some(P.Standard)
    ensures !AllSpace(profile) ==> forall p ::
      P.FindProfile(lib.lower, RequestedName(profile)) == Some(p) <==> P.Names(lib.lower, TrimSpace(profile), p)
  {
    TrimBlank(profile);
    if AllSpace(profile) {
      P.ProfileRoundTrip(lib.lower, P.Standard);
    } else {
      TrimTwice(profile);
      forall p
        ensures P.FindProfile(lib.lower, RequestedName(profile)) == Some(p) <==>
          P.Names(lib.lower, TrimSpace(profile), p)
      {
        P.FindProfileMeaning(lib.lower, RequestedName(profile), p);
      }
    }
  }

  lemma TrimTwice(s: string)
    ensures TrimSpace(TrimSpace(s)) == TrimSpace(s)
  {
    TrimEnds(s, IsSpace);
    if TrimSpace(s) != "" { TrimBare(TrimSpace(s), IsSpace); }
  }

  /** Validation never refuses what was built: only the three inputs can be refused. */
  lemma BuildSucceeds(lib: Library, input: Input)
    requires Lawful(lib)
    ensures BuildEngagementConfig(lib, input).Ok? <==> Accepted(lib, input).Some?
    ensures Accepted(lib, input).Some? ==> BuildEngagementConfig(lib, input).value == Built(Accepted(lib, input).value)
  {
    if Accepted(lib, input).Some? {
      var e := Accepted(lib, input).value;
      var p := P.FindProfile(lib.lower, RequestedName(input.profile)).value;
      ReferenceIsBare(lib, input.authorization);
      BuiltinIsValid(p);
      BuiltIsBuilt(e);
      BuiltIsValid(lib.lower, e, Built(e).values);
    }
  }

  // ---------------------------------------------------------------- what is written can be read

  predicate IsWritten(k: Key) {
    k != TcpPorts && k != Ports
  }

  ghost predicate CanBeRead(lower: char -> char, k: Key, v: Value) {
    && Storable(v) && Fits(KindOf(k), v)
    && (KindOf(k) == LowerText ==> ToLower(lower, v.text) == v.text)
  }

  ghost predicate Readable(lower: char -> char, s: Settings) {
    Renderable(s) && forall k :: IsWritten(k) ==> CanBeRead(lower, k, Written(s, k))
  }

  lemma NameIsQuotable(s: string)
    requires IsName(s)
    ensures Quotable(s)
  {
    assert IsNameChar(s[0]) && IsNameChar(s[|s| - 1]);
  }

  lemma PathIsQuotable()
    ensures Quotable("data/enumscan.sqlite")
  {
  }

  lemma FixedWordsCanBeRead(lower: char -> char, k: Key)
    requires KeepsLowerCase(lower) && (k == DatabaseDriver || k == DatabasePath || k == OutputDir)
    ensures CanBeRead(lower, k, FixedText(k).value)
  {
    if k == DatabaseDriver {
      SqliteIsKept(lower);
      NameIsQuotable("sqlite");
    } else if k == DatabasePath {
      PathIsQuotable();
    } else {
      NameIsQuotable("reports");
    }
  }

  lemma FixedSwitchCanBeRead(lower: char -> char, k: Key)
    requires FixedText(k).Some? && FixedText(k).value.Flag?
    ensures CanBeRead(lower, k, FixedText(k).value)
  {
  }

  lemma FixedTextCanBeRead(lower: char -> char, k: Key)
    requires KeepsLowerCase(lower) && FixedText(k).Some?
    ensures CanBeRead(lower, k, FixedText(k).value)
  {
    match FixedText(k).value {
      case Words(_) => FixedWordsCanBeRead(lower, k);
      case Flag(_) => FixedSwitchCanBeRead(lower, k);
      case _ =>
    }
  }

  predicate Presentable(e: Engagement) {
    Quotable(e.target) && ',' !in e.target && Quotable(e.authorization) && IsName(e.name)
  }

  lemma BuiltNumberCanBeRead(lower: char -> char, e: Engagement, k: Key)
    requires ValidProfile(e.profile) && KindOf(k) == Integer
    ensures CanBeRead(lower, k, BuiltSetting(e, k))
  {
    if k == Concurrency || k == ModuleTimeout || k == CidrMaxHosts {
    } else {
      DefaultNumberCanBeRead(lower, k);
    }
  }

  lemma DefaultNumberCanBeRead(lower: char -> char, k: Key)
    requires KindOf(k) == Integer
    ensures CanBeRead(lower, k, DefaultSetting(k))
  {
  }

  lemma BuiltTextCanBeRead(lower: char -> char, e: Engagement, k: Key)
    requires Presentable(e) && k in {AllowedTargets, Targets, Authorization, Profile, PortProfile}
    ensures CanBeRead(lower, k, BuiltSetting(e, k))
  {
    NameIsQuotable(e.name);
  }

  lemma BuiltSettingCanBeRead(lower: char -> char, e: Engagement, k: Key)
    requires Presentable(e) && ValidProfile(e.profile) && IsWritten(k) && FixedText(k).None?
    ensures CanBeRead(lower, k, BuiltSetting(e, k))
  {
    if KindOf(k) == Integer {
      BuiltNumberCanBeRead(lower, e, k);
    } else {
      BuiltTextCanBeRead(lower, e, k);
    }
  }

  lemma BuiltIsReadable(lower: char -> char, e: Engagement, s: Settings)
    requires KeepsLowerCase(lower) && Presentable(e) && IsBuilt(e, s)
    ensures Readable(lower, s)
  {
    assert NamesOf(s, AllowedTargets) == [e.target] && NamesOf(s, Targets) == [e.target];
    forall k | IsWritten(k)
      ensures CanBeRead(lower, k, Written(s, k))
    {
      if FixedText(k).Some? {
        FixedTextCanBeRead(lower, k);
      } else {
        BuiltSettingCanBeRead(lower, e, k);
      }
    }
  }

  // ---------------------------------------------------------------- reading what is written

  /** The loader's state after a section's entries. */
  function Stored(st: Loading, s: Settings, keys: seq<Key>): Loading
    requires Renderable(s)
    decreases |keys|
  {
    if keys == [] then st
    else
      var next := st.(values := st.values[keys[0] := Written(s, keys[0])], explicit := st.explicit + {keys[0]});
      Stored(next, s, keys[1..])
  }

  /** The loader's state after several sections. */
  function StoredSections(st: Loading, s: Settings, sections: seq<Section>): Loading
    requires Renderable(s)
    decreases |sections|
  {
    if sections == [] then st
    else
      StoredSections(Stored(st.(section := SectionName(sections[0])), s, KeysIn(sections[0])), s, sections[1..])
  }

  lemma FirstEntryIsRead(lower: char -> char, k: Key, v: Value, st: Loading, more: string)
    requires CanBeRead(lower, k, v) && st.section == SectionName(SectionOf(k))
    ensures ReadLines(lower, st, Split(EntryLine(k, v) + "\n" + more, '\n')) ==
            ReadLines(lower, st.(values := st.values[k := v], explicit := st.explicit + {k}), Split(more, '\n'))
  {
    EntryIsRead(lower, st, k, v);
    FirstLineIsRead(lower, st, EntryLine(k, v), more);
  }

  lemma FirstEntryIsRendered(s: Settings, keys: seq<Key>, rest: string)
    requires Renderable(s) && keys != []
    ensures RenderEntries(s, keys) + rest ==
            EntryLine(keys[0], Written(s, keys[0])) + "\n" + (RenderEntries(s, keys[1..]) + rest)
  {
  }

  lemma {:induction false} EntriesAreRead(lower: char -> char, s: Settings, keys: seq<Key>, st: Loading, rest: string)
    requires Readable(lower, s)
    requires forall k :: k in keys ==> IsWritten(k) && SectionName(SectionOf(k)) == st.section
    ensures ReadLines(lower, st, Split(RenderEntries(s, keys) + rest, '\n')) ==
            ReadLines(lower, Stored(st, s, keys), Split(rest, '\n'))
    decreases |keys|
  {
    if keys == [] {
      assert "" + rest == rest;
    } else {
      var k, v, more := keys[0], Written(s, keys[0]), RenderEntries(s, keys[1..]) + rest;
      FirstEntryIsRendered(s, keys, rest);
      FirstEntryIsRead(lower, k, v, st, more);
      EntriesAreRead(lower, s, keys[1..], st.(values := st.values[k := v], explicit := st.explicit + {k}), rest);
    }
  }

  lemma SchedulerKeys(section: Section, k: Key)
    requires section == SchedulerSection
    ensures k in KeysIn(section) <==> SectionOf(k) == section && IsWritten(k)
  {
  }

  lemma DiscoveryKeys(section: Section, k: Key)
    requires section == DiscoverySection
    ensures k in KeysIn(section) <==> SectionOf(k) == section && IsWritten(k)
  {
  }

  lemma PortScanSwitches(k: Key)
    requires KindOf(k) == Switch
    ensures k in KeysIn(PortScanSection) <==> SectionOf(k) == PortScanSection
  {
  }

  lemma PortScanOthers(k: Key)
    requires KindOf(k) != Switch
    ensures k in KeysIn(PortScanSection) <==> SectionOf(k) == PortScanSection && IsWritten(k)
  {
  }

  lemma PortScanKeys(section: Section, k: Key)
    requires section == PortScanSection
    ensures k in KeysIn(section) <==> SectionOf(k) == section && IsWritten(k)
  {
    if KindOf(k) == Switch {
      PortScanSwitches(k);
    } else {
      PortScanOthers(k);
    }
  }

  lemma HttpKeys(section: Section, k: Key)
    requires section == HttpSection
    ensures k in KeysIn(section) <==> SectionOf(k) == section && IsWritten(k)
  {
  }

  lemma OtherKeys(section: Section, k: Key)
    requires section !in {SchedulerSection, DiscoverySection, PortScanSection, HttpSection}
    ensures k in KeysIn(section) <==> SectionOf(k) == section && IsWritten(k)
  {
  }

  lemma KeysOfSection(section: Section, k: Key)
    ensures k in KeysIn(section) <==> SectionOf(k) == section && IsWritten(k)
  {
    match section
    case SchedulerSection => SchedulerKeys(section, k);
    case DiscoverySection => DiscoveryKeys(section, k);
    case PortScanSection => PortScanKeys(section, k);
    case HttpSection => HttpKeys(section, k);
    case _ => OtherKeys(section, k);
  }

  lemma {:induction false} SectionsAreRead(lower: char -> char, s: Settings, sections: seq<Section>, st: Loading)
    requires Readable(lower, s)
    ensures ReadLines(lower, st, Split(RenderSections(s, sections), '\n')) == Ok(StoredSections(st, s, sections))
    decreases |sections|
  {
    if sections == [] {
      assert Split("", '\n') == [""];
    } else {
      var section := sections[0];
      var header := SectionName(section) + ":";
      var more := RenderSections(s, sections[1..]);
      var body := RenderEntries(s, KeysIn(section)) + more;
      HeaderIsRead(lower, st, section);
      assert RenderSections(s, sections) == header + "\n" + body;
      FirstLineIsRead(lower, st, header, body);
      var next := st.(section := SectionName(section));
      forall k | k in KeysIn(section) ensures IsWritten(k) && SectionOf(k) == section { KeysOfSection(section, k); }
      EntriesAreRead(lower, s, KeysIn(section), next, more);
      SectionsAreRead(lower, s, sections[1..], Stored(next, s, KeysIn(section)));
    }
  }

  lemma {:induction false} CommentsAreSkipped(lower: char -> char, comments: seq<string>, body: string, st: Loading)
    requires forall c :: c in comments ==> '\n' !in c
    ensures ReadLines(lower, st, Split(RenderComments(comments, body), '\n')) == ReadLines(lower, st, Split(body, '\n'))
    decreases |comments|
  {
    if comments != [] {
      var line := "#" + comments[0];
      CommentIsSkipped(lower, st, comments[0]);
      FirstLineIsRead(lower, st, line, RenderComments(comments[1..], body));
      CommentsAreSkipped(lower, comments[1..], body, st);
    }
  }

  lemma {:induction false} EntryIsStored(st: Loading, s: Settings, keys: seq<Key>, k: Key)
    requires Renderable(s)
    ensures var r := Stored(st, s, keys);
            && (k in r.explicit <==> k in keys || k in st.explicit)
            && (k in r.values <==> k in keys || k in st.values)
            && (k in keys ==> r.values[k] == Written(s, k))
            && (k in st.values && k !in keys ==> r.values[k] == st.values[k])
    decreases |keys|
  {
    if keys != [] {
      var next := st.(values := st.values[keys[0] := Written(s, keys[0])], explicit := st.explicit + {keys[0]});
      EntryIsStored(next, s, keys[1..], k);
    }
  }

  /** Exactly the keys of the sections are stored, each with the value written for it. */
  lemma {:induction false} SectionIsStored(st: Loading, s: Settings, sections: seq<Section>, k: Key)
    requires Renderable(s) && (k in st.values ==> st.values[k] == Written(s, k))
    ensures var r := StoredSections(st, s, sections);
            && (k in r.explicit <==> (SectionOf(k) in sections && IsWritten(k)) || k in st.explicit)
            && (k in r.values <==> (SectionOf(k) in sections && IsWritten(k)) || k in st.values)
            && (k in r.values ==> r.values[k] == Written(s, k))
    decreases |sections|
  {
    if sections != [] {
      var here := sections[0];
      var start := st.(section := SectionName(here));
      EntryIsStored(start, s, KeysIn(here), k);
      KeysOfSection(here, k);
      SectionIsStored(Stored(start, s, KeysIn(here)), s, sections[1..], k);
      assert sections == [here] + sections[1..];
    }
  }

  /** The loader's state after the whole document. */
  function Document(s: Settings): Loading
    requires Renderable(s)
  {
    StoredSections(Loading("", map[], {}), s, SECTIONS)
  }

  lemma EverySectionIsRendered(section: Section)
    ensures section in SECTIONS
  {
    assert SECTIONS[0] == DatabaseSection && SECTIONS[1] == ScopeSection && SECTIONS[2] == SchedulerSection;
    assert SECTIONS[3] == DiscoverySection && SECTIONS[4] == PortScanSection && SECTIONS[5] == HttpSection;
    assert SECTIONS[6] == ScanSection && SECTIONS[7] == ActiveTestingSection && SECTIONS[8] == ApiSection;
    assert SECTIONS[9] == ReportingSection;
  }

  lemma DocumentIsStored(s: Settings, k: Key)
    requires Renderable(s)
    ensures k in Document(s).explicit <==> IsWritten(k)
    ensures k in Document(s).values <==> IsWritten(k)
    ensures k in Document(s).values ==> Document(s).values[k] == Written(s, k)
  {
    SectionIsStored(Loading("", map[], {}), s, SECTIONS, k);
    EverySectionIsRendered(SectionOf(k));
  }

  lemma DocumentIsRead(lower: char -> char, comments: seq<string>, cfg: Config)
    requires Readable(lower, cfg.values) && forall c :: c in comments ==> '\n' !in c
    ensures ReadLines(lower, Loading("", map[], {}), Split(Render(comments, cfg), '\n')) == Ok(Document(cfg.values))
  {
    var st := Loading("", map[], {});
    CommentsAreSkipped(lower, comments, RenderSections(cfg.values, SECTIONS), st);
    SectionsAreRead(lower, cfg.values, SECTIONS, st);
  }

  // ---------------------------------------------------------------- the configuration that is loaded

  /** The families that the document's own keys pull into the plan. */
  lemma WrittenFamilies(explicit: set<Key>)
    requires forall k :: k in explicit <==> IsWritten(k)
    ensures FamiliesOf(explicit) == {P.Discovery, P.PortScan, P.Http}
  {
    assert CidrMaxHosts in explicit && EnableUdp in explicit && MaxDepth in explicit;
    assert FamilyOf(CidrMaxHosts) == Some(P.Discovery) && FamilyOf(EnableUdp) == Some(P.PortScan);
    assert FamilyOf(MaxDepth) == Some(P.Http);
  }

  /** The setting that loading gives: what was written, or for the two unwritten keys what was built. */
  function Reloaded(s: Settings, k: Key): Value
    requires Renderable(s)
  {
    if IsWritten(k) then Written(s, k) else Setting(s, k)
  }

  /** st holds exactly what is written for s. */
  ghost predicate Holds(st: Loading, s: Settings)
    requires Renderable(s)
  {
    forall k :: (k in st.explicit <==> IsWritten(k)) && (k in st.values <==> IsWritten(k))
                && (IsWritten(k) ==> Setting(st.values, k) == Written(s, k))
  }

  /** A profile applied to what was written gives back what was written and built. */
  lemma ProfileIsReapplied(e: Engagement, s: Settings, explicit: set<Key>, k: Key, before: Value)
    requires IsBuilt(e, s) && Renderable(s) && (forall j :: j in explicit <==> IsWritten(j))
    requires before == if IsWritten(k) then Written(s, k) else DefaultSetting(k)
    ensures ProfileSetting(before, e.profile, e.name, explicit, k) == Reloaded(s, k)
  {
    if k == Profile {
    } else if k in explicit {
    } else if k == TcpPorts {
    } else {
    }
  }

  lemma SettingsAreReloaded(e: Engagement, s: Settings, st: Loading, k: Key)
    requires IsBuilt(e, s) && Renderable(s) && Holds(st, s)
    ensures Setting(ProfileValues(st.values, e.profile, e.name, st.explicit), k) == Reloaded(s, k)
  {
    ProfileIsApplied(st.values, e.profile, e.name, st.explicit, k, DefaultSetting(k));
    ProfileIsReapplied(e, s, st.explicit, k, Setting(st.values, k));
  }

  /** The settings of a reloaded configuration in terms of the accepted input. */
  ghost predicate IsReloaded(e: Engagement, t: Settings) {
    ValidProfile(e.profile) &&
    forall k :: Setting(t, k) == if FixedText(k).Some? then FixedText(k).value else BuiltSetting(e, k)
  }

  lemma ReloadedInTermsOfInput(e: Engagement, s: Settings, k: Key)
    requires IsBuilt(e, s) && Renderable(s)
    ensures Reloaded(s, k) == if FixedText(k).Some? then FixedText(k).value else BuiltSetting(e, k)
  {
    if k == AllowedTargets || k == Targets {
      assert Setting(s, k) == Names([e.target]);
    } else if k == TcpPorts || k == Ports {
    } else {
      assert Reloaded(s, k) == if FixedText(k).Some? then FixedText(k).value else Setting(s, k);
    }
  }

  lemma ReloadedSchedulerIsValid(e: Engagement, t: Settings)
    requires IsReloaded(e, t)
    ensures ValidScheduler(t)
  {
  }

  lemma ReloadedPortScanIsValid(e: Engagement, t: Settings)
    requires IsReloaded(e, t)
    ensures ValidPortScan(t)
  {
  }

  lemma ReloadedPortsAreValid(e: Engagement, t: Settings)
    requires IsReloaded(e, t)
    ensures ValidPorts(t)
  {
  }

  lemma ReloadedSwitchesAreValid(e: Engagement, t: Settings)
    requires IsReloaded(e, t)
    ensures ValidSwitches(t)
  {
  }

  lemma ReloadedTextsAreValid(lower: char -> char, e: Engagement, t: Settings)
    requires IsReloaded(e, t) && KeepsLowerCase(lower) && TrimSpace(e.authorization) != ""
    ensures ValidTexts(lower, t)
  {
    SqliteIsKept(lower);
  }

  lemma ReloadedIsValid(lower: char -> char, e: Engagement, t: Settings)
    requires IsReloaded(e, t) && KeepsLowerCase(lower) && TrimSpace(e.authorization) != ""
    ensures Validate(lower, t)
  {
    ReloadedSchedulerIsValid(e, t);
    ReloadedPortScanIsValid(e, t);
    ReloadedPortsAreValid(e, t);
    ReloadedSwitchesAreValid(e, t);
    ReloadedTextsAreValid(lower, e, t);
  }

  predicate NoPlaceholders(e: Engagement) {
    !IsPlaceholder(e.target) && !IsPlaceholder(e.authorization) && TrimSpace(e.authorization) != ""
  }

  lemma ReloadedIsChecked(lib: Library, e: Engagement, cfg: Config)
    requires IsReloaded(e, cfg.values) && KeepsLowerCase(lib.lower) && NoPlaceholders(e)
    ensures Checked(lib, cfg) == Ok(cfg)
  {
    assert NamesOf(cfg.values, AllowedTargets) == [e.target] && NamesOf(cfg.values, Targets) == [e.target];
    assert TextOf(cfg.values, Authorization) == e.authorization;
    ReloadedIsValid(lib.lower, e, cfg.values);
  }

  lemma ProfileNameIsBare(name: string)
    requires IsName(name)
    ensures TrimSpace(name) == name != ""
  {
    NameIsPlain(name);
    TrimBare(name, IsSpace);
  }

  lemma ProfileIsWritten(e: Engagement, s: Settings, st: Loading)
    requires IsBuilt(e, s) && Renderable(s) && Holds(st, s)
    ensures TextOf(st.values, Profile) == e.name
  {
    assert IsWritten(Profile);
    assert Setting(s, Profile) == Words(e.name);
  }

  lemma ReappliedIsReloaded(e: Engagement, s: Settings, st: Loading)
    requires IsBuilt(e, s) && Renderable(s) && Holds(st, s)
    ensures IsReloaded(e, ProfileValues(st.values, e.profile, e.name, st.explicit))
  {
    var t := ProfileValues(st.values, e.profile, e.name, st.explicit);
    forall k
      ensures Setting(t, k) == if FixedText(k).Some? then FixedText(k).value else BuiltSetting(e, k)
    {
      SettingsAreReloaded(e, s, st, k);
      ReloadedInTermsOfInput(e, s, k);
    }
  }

  /** After the line loop, the profile written in the document is found and applied again. */
  lemma DocumentIsFinished(lib: Library, e: Engagement, p: P.ProfileKey, s: Settings, st: Loading)
    requires IsBuilt(e, s) && Renderable(s) && Holds(st, s) && KeepsLowerCase(lib.lower) && NoPlaceholders(e)
    requires e.profile == P.Builtin(p) && e.name == P.ProfileName(p)
    ensures var cfg := ApplyProfile(Config(st.values, []), e.profile, e.name, st.explicit);
            Finished(lib, st) == Ok(cfg) && IsReloaded(e, cfg.values)
  {
    var cfg := ApplyProfile(Config(st.values, []), e.profile, e.name, st.explicit);
    ReappliedIsReloaded(e, s, st);
    ReloadedIsChecked(lib, e, cfg);
    ProfileIsWritten(e, s, st);
    P.ProfileNameIsName(p);
    ProfileNameIsBare(e.name);
    P.ProfileRoundTrip(lib.lower, p);
  }

  ghost predicate AreComments(comments: seq<string>) {
    forall c :: c in comments ==> '\n' !in c
  }

  const WRITTEN_FAMILIES: set<P.ModuleFamily> := {P.Discovery, P.PortScan, P.Http}

  lemma BuiltIsLoaded(lib: Library, comments: seq<string>, e: Engagement, p: P.ProfileKey)
    requires Lawful(lib) && AreComments(comments) && Presentable(e) && NoPlaceholders(e)
    requires e.profile == P.Builtin(p) && e.name == P.ProfileName(p)
    ensures Renderable(Built(e).values)
    ensures var r := Loaded(lib, Render(comments, Built(e)));
            r.Ok? && IsReloaded(e, r.value.values) && r.value.plan == P.Plan(e.profile.modules + WRITTEN_FAMILIES)
  {
    var s := Built(e).values;
    BuiltinIsValid(p);
    BuiltIsBuilt(e);
    BuiltIsReadable(lib.lower, e, s);
    DocumentIsRead(lib.lower, comments, Built(e));
    var st := Document(s);
    forall k
      ensures (k in st.explicit <==> IsWritten(k)) && (k in st.values <==> IsWritten(k))
      ensures IsWritten(k) ==> Setting(st.values, k) == Written(s, k)
    {
      DocumentIsStored(s, k);
    }
    DocumentIsFinished(lib, e, p, s, st);
    WrittenFamilies(st.explicit);
  }

  lemma AcceptedIsPresentable(lib: Library, input: Input)
    requires Lawful(lib) && Accepted(lib, input).Some?
    ensures Presentable(Accepted(lib, input).value) && NoPlaceholders(Accepted(lib, input).value)
  {
    ReferenceIsBare(lib, input.authorization);
    TargetIsQuotable(lib, input.target);
    P.ProfileNameIsName(P.FindProfile(lib.lower, RequestedName(input.profile)).value);
  }

  /**
   * Whatever input the wizard accepts, its document loads: the trimmed authorization comes back exactly, the
   * target in canonical form, the scope is the scan's target, and every other setting is the built one or a
   * constant of the document.
   */
  lemma RenderThenLoad(lib: Library, comments: seq<string>, input: Input)
    requires Lawful(lib) && AreComments(comments)
    ensures BuildEngagementConfig(lib, input).Ok? ==>
      var cfg := BuildEngagementConfig(lib, input).value;
      && Renderable(cfg.values)
      && var r := Loaded(lib, Render(comments, cfg));
      && r.Ok?
      && var t := TrimSpace(input.target);
      && Setting(r.value.values, AllowedTargets) ==
           Names([if lib.parseIP(t).Some? then lib.parseIP(t).value
                  else if lib.parseCIDR(t).Some? then lib.parseCIDR(t).value
                  else ToLower(lib.lower, t)])
      && Setting(r.value.values, Targets) == Setting(r.value.values, AllowedTargets)
      && Setting(r.value.values, Authorization) == Words(TrimSpace(input.authorization))
      && (forall k :: Setting(r.value.values, k) ==
                      if FixedText(k).Some? then FixedText(k).value else Setting(cfg.values, k))
      && (forall m :: m in r.value.plan <==> m in cfg.plan || m in WRITTEN_FAMILIES)
  {
    BuildSucceeds(lib, input);
    TargetMeaning(lib, input.target);
    ReferenceMeaning(lib, input.authorization);
    if Accepted(lib, input).Some? {
      AcceptedIsPresentable(lib, input);
      var e := Accepted(lib, input).value;
      var p := P.FindProfile(lib.lower, RequestedName(input.profile)).value;
      BuiltIsLoaded(lib, comments, e, p);
      BuiltinIsValid(p);
      BuiltIsBuilt(e);
      var r := Loaded(lib, Render(comments, Built(e)));
      SettingsSurvive(e, Built(e).values, r.value.values);
      forall m ensures m in r.value.plan <==> m in Built(e).plan || m in WRITTEN_FAMILIES {
        PlanIsUnited(e, m);
      }
    }
  }

  lemma SettingsSurvive(e: Engagement, s: Settings, t: Settings)
    requires IsBuilt(e, s) && IsReloaded(e, t)
    ensures Setting(t, AllowedTargets) == Names([e.target]) && Setting(t, Targets) == Names([e.target])
    ensures Setting(t, Authorization) == Words(e.authorization)
    ensures forall k :: Setting(t, k) == if FixedText(k).Some? then FixedText(k).value else Setting(s, k)
  {
    assert FixedText(AllowedTargets).None? && FixedText(Targets).None? && FixedText(Authorization).None?;
  }

  lemma PlanIsUnited(e: Engagement, m: P.ModuleFamily)
    ensures m in P.Plan(e.profile.modules + WRITTEN_FAMILIES) <==> m in Built(e).plan || m in WRITTEN_FAMILIES
  {
    assert FamiliesOf({}) == {};
    assert e.profile.modules + {} == e.profile.modules;
    P.PlanMembers(e.profile.modules, m);
    P.PlanMembers(e.profile.modules + WRITTEN_FAMILIES, m);
  }

  // ---------------------------------------------------------------- consequences

  lemma {:induction false} EntriesAgree(s: Settings, t: Settings, keys: seq<Key>)
    requires Renderable(s) && Renderable(t) && forall k :: k in keys ==> Written(s, k) == Written(t, k)
    ensures RenderEntries(s, keys) == RenderEntries(t, keys)
    decreases |keys|
  {
    if keys != [] {
      EntriesAgree(s, t, keys[1..]);
    }
  }

  lemma {:induction false} SectionsAgree(s: Settings, t: Settings, sections: seq<Section>)
    requires Renderable(s) && Renderable(t) && forall k :: Written(s, k) == Written(t, k)
    ensures RenderSections(s, sections) == RenderSections(t, sections)
    decreases |sections|
  {
    if sections != [] {
      EntriesAgree(s, t, KeysIn(sections[0]));
      SectionsAgree(s, t, sections[1..]);
    }
  }

  lemma WrittenAgrees(s: Settings, t: Settings)
    requires Renderable(s)
    requires forall k :: Setting(t, k) == if FixedText(k).Some? then FixedText(k).value else Setting(s, k)
    ensures Renderable(t) && forall k :: Written(s, k) == Written(t, k)
  {
    assert Setting(t, AllowedTargets) == Setting(s, AllowedTargets) && Setting(t, Targets) == Setting(s, Targets);
    forall k ensures Written(s, k) == Written(t, k) {
      assert Setting(t, k) == if FixedText(k).Some? then FixedText(k).value else Setting(s, k);
    }
  }

  /** What the document switches on. */
  const ENUMERATION: set<Key> := {
    EnableDnsDiscovery, EnableDnsRecords, EnableReverseDns, EnableTcpHostProbes, EnableTcp, EnableBanner, EnableTls,
    EnableCrawler, EnableJsAnalysis, EnableApiDiscovery}

  /**
   * The loaded configuration is a non-destructive enumeration of one target: its only allowed target is its
   * only scan target, and of all switches, those for raw packets, UDP, active testing, screenshots and logged-in
   * crawling among them, exactly ten are on.
   */
  lemma LoadedIsNonDestructive(lib: Library, comments: seq<string>, input: Input)
    requires Lawful(lib) && AreComments(comments)
    ensures BuildEngagementConfig(lib, input).Ok? ==>
      var cfg := BuildEngagementConfig(lib, input).value;
      && Renderable(cfg.values)
      && var r := Loaded(lib, Render(comments, cfg));
      && r.Ok?
      && |NamesOf(r.value.values, AllowedTargets)| == 1
      && NamesOf(r.value.values, AllowedTargets) == NamesOf(r.value.values, Targets)
      && (forall k :: KindOf(k) == Switch ==> Setting(r.value.values, k) == Flag(k in ENUMERATION))
      && (forall k :: k in {DatabaseDriver, DatabasePath, TcpProbePorts, OutputDir} ==>
            Setting(r.value.values, k) == DefaultSetting(k))
  {
    RenderThenLoad(lib, comments, input);
    forall k | KindOf(k) == Switch ensures FixedText(k) == Some(Flag(k in ENUMERATION)) { SwitchIsFixed(k); }
    forall k | k in {DatabaseDriver, DatabasePath, TcpProbePorts, OutputDir}
      ensures FixedText(k) == Some(DefaultSetting(k))
    {
      DefaultIsFixed(k);
    }
  }

  lemma SwitchIsFixed(k: Key)
    requires KindOf(k) == Switch
    ensures FixedText(k) == Some(Flag(k in ENUMERATION))
  {
  }

  lemma DefaultIsFixed(k: Key)
    requires k in {DatabaseDriver, DatabasePath, TcpProbePorts, OutputDir}
    ensures FixedText(k) == Some(DefaultSetting(k))
  {
  }

  /** The loaded configuration renders to the document it was loaded from. */
  lemma RenderIsStable(lib: Library, comments: seq<string>, input: Input)
    requires Lawful(lib) && AreComments(comments)
    ensures BuildEngagementConfig(lib, input).Ok? ==>
      var cfg := BuildEngagementConfig(lib, input).value;
      && Renderable(cfg.values)
      && var r := Loaded(lib, Render(comments, cfg));
      r.Ok? && Renderable(r.value.values) && Render(comments, r.value) == Render(comments, cfg)
  {
    RenderThenLoad(lib, comments, input);
    if BuildEngagementConfig(lib, input).Ok? {
      var cfg := BuildEngagementConfig(lib, input).value;
      var loaded := Loaded(lib, Render(comments, cfg)).value;
      WrittenAgrees(cfg.values, loaded.values);
      SectionsAgree(cfg.values, loaded.values, SECTIONS);
    }
  }

  lemma PlanIsKeptExactly(e: Engagement)
    ensures P.Plan(e.profile.modules + WRITTEN_FAMILIES) == Built(e).plan <==> WRITTEN_FAMILIES <= e.profile.modules
  {
    assert FamiliesOf({}) == {};
    assert e.profile.modules + {} == e.profile.modules;
    if WRITTEN_FAMILIES <= e.profile.modules {
      assert e.profile.modules + WRITTEN_FAMILIES == e.profile.modules;
    } else {
      var m :| m in WRITTEN_FAMILIES && m !in e.profile.modules;
      P.PlanMembers(e.profile.modules, m);
      P.PlanMembers(e.profile.modules + WRITTEN_FAMILIES, m);
    }
  }

  /**
   * Loading does not always give back the built module plan: the document's http keys pull in the http family,
   * which three of the profiles leave out.
   */
  lemma PlanIsKept(lib: Library, comments: seq<string>, input: Input, p: P.ProfileKey)
    requires Lawful(lib) && AreComments(comments)
    ensures BuildEngagementConfig(lib, input).Ok?
            && P.FindProfile(lib.lower, RequestedName(input.profile)) == Some(p) ==>
      var cfg := BuildEngagementConfig(lib, input).value;
      && Renderable(cfg.values)
      && var r := Loaded(lib, Render(comments, cfg));
      r.Ok? && (r.value.plan == cfg.plan <==> p !in {P.Quick, P.InternalNetwork, P.ActiveDirectory})
  {
    BuildSucceeds(lib, input);
    if Accepted(lib, input).Some? && P.FindProfile(lib.lower, RequestedName(input.profile)) == Some(p) {
      AcceptedIsPresentable(lib, input);
      var e := Accepted(lib, input).value;
      BuiltIsLoaded(lib, comments, e, p);
      PlanIsKeptExactly(e);
      HttpIsPlanned(p);
    }
  }

  lemma HttpIsPlanned(p: P.ProfileKey)
    ensures WRITTEN_FAMILIES <= P.Builtin(p).modules <==> p !in {P.Quick, P.InternalNetwork, P.ActiveDirectory}
  {
    assert P.Http in WRITTEN_FAMILIES;
  }
}
