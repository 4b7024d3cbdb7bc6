/** The line format of configuration files: what the renderer writes and what the loader reads. */
module ConfigText {
  import opened Basics
  import opened Text
  import opened ConfigKeys

  datatype Value =
    | Words(text: string)
    | Number(n: int)
    | Flag(on: bool)
    | Names(names: seq<string>)
    | PortNumbers(ports: seq<int>)

  predicate Fits(kind: Kind, v: Value) {
    match v
    case Words(_) => kind == PlainText || kind == LowerText
    case Number(_) => kind == Integer
    case Flag(_) => kind == Switch
    case Names(_) => kind == NameList
    case PortNumbers(_) => kind == PortList
  }

  type Settings = map<Key, Value>

  datatype LoadError =
    | KeyOutsideSection
    | ExpectedKeyValue
    | UnknownKey
    | BadValue
    | BadTarget
    | BadAuthorization
    | UnknownProfile
    | Refused

  datatype Result<T> = Ok(value: T) | Err(error: LoadError)

  predicate IsQuote(c: char) {
    c == '"'
  }

  predicate IsBracket(c: char) {
    c == '[' || c == ']'
  }

  // ---------------------------------------------------------------- writing values

  function FormatInt(n: int): (s: string) {
    if n < 0 then "-" + Itoa(-n) else Itoa(n)
  }

  function Quoted(s: string): string {
    "\"" + s + "\""
  }

  function QuotedAll(names: seq<string>): (ws: seq<string>)
    ensures |ws| == |names| && forall i :: 0 <= i < |ws| ==> ws[i] == Quoted(names[i])
  {
    seq(|names|, i requires 0 <= i < |names| => Quoted(names[i]))
  }

  function FormatAll(ports: seq<int>): (ws: seq<string>)
    ensures |ws| == |ports| && forall i :: 0 <= i < |ws| ==> ws[i] == FormatInt(ports[i])
  {
    seq(|ports|, i requires 0 <= i < |ports| => FormatInt(ports[i]))
  }

  function RenderValue(v: Value): string {
    match v
    case Words(s) => Quoted(s)
    case Number(n) => FormatInt(n)
    case Flag(on) => if on then "true" else "false"
    case Names(names) => "[" + Join(QuotedAll(names), ", ") + "]"
    case PortNumbers(ports) => "[" + Join(FormatAll(ports), ", ") + "]"
  }

  // ---------------------------------------------------------------- reading values

  function Item(part: string): string {
    Trim(TrimSpace(part), IsQuote)
  }

  function Items(parts: seq<string>): seq<string> {
    if parts == [] then [] else [Item(parts[0])] + Items(parts[1..])
  }

  function ListItems(value: string): seq<string> {
    var inner := Trim(value, IsBracket);
    if TrimSpace(inner) == "" then [] else Items(Split(inner, ','))
  }

  method ParseList(value: string) returns (out: seq<string>)
    ensures out == ListItems(value)
  {
    var inner := Trim(value, IsBracket);
    if TrimSpace(inner) == "" {
      return [];
    }
    var parts := Split(inner, ',');
    out := [];
    for i := 0 to |parts|
      invariant out + Items(parts[i..]) == Items(parts)
    {
      assert parts[i..][0] == parts[i] && parts[i..][1..] == parts[i + 1..];
      out := out + [Item(parts[i])];
    }
  }

  /** All items parsed, or nothing if one of them fails. */
  function ParseAll(parse: string -> Option<int>, items: seq<string>): Option<seq<int>> {
    if items == [] then Some([])
    else
      match parse(items[0])
      case None => None
      case Some(n) =>
        match ParseAll(parse, items[1..])
        case None => None
        case Some(rest) => Some([n] + rest)
  }

  function Integers(items: seq<string>): Option<seq<int>> {
    ParseAll(Atoi, items)
  }

  function Following(numbers: seq<int>, rest: Option<seq<int>>): Option<seq<int>> {
    match rest
    case None => None
    case Some(more) => Some(numbers + more)
  }

  lemma FollowingNothing(rest: Option<seq<int>>)
    ensures Following([], rest) == rest
  {
    if rest.Some? {
      assert [] + rest.value == rest.value;
    }
  }

  method ParseInts(value: string) returns (out: Option<seq<int>>)
    ensures out == Integers(ListItems(value))
  {
    var items := ParseList(value);
    var numbers: seq<int> := [];
    assert items[0..] == items;
    FollowingNothing(Integers(items));
    for i := 0 to |items|
      invariant Integers(items) == Following(numbers, Integers(items[i..]))
    {
      assert items[i..][0] == items[i] && items[i..][1..] == items[i + 1..];
      match Atoi(items[i]) {
        case None => return None;
        case Some(n) =>
          assert forall rest: seq<int> :: numbers + ([n] + rest) == (numbers + [n]) + rest;
          numbers := numbers + [n];
      }
    }
    assert numbers + [] == numbers;
    out := Some(numbers);
  }

  function ParseValue(lower: char -> char, kind: Kind, text: string): (v: Option<Value>)
    ensures v.Some? ==> Fits(kind, v.value)
  {
    match kind
    case PlainText => Some(Words(text))
    case LowerText => Some(Words(ToLower(lower, text)))
    case Integer => (match Atoi(text) case None => None case Some(n) => Some(Number(n)))
    case Switch => (match ParseBool(text) case None => None case Some(on) => Some(Flag(on)))
    case NameList => Some(Names(ListItems(text)))
    case PortList => (match Integers(ListItems(text)) case None => None case Some(ports) => Some(PortNumbers(ports)))
  }

  // ---------------------------------------------------------------- reading lines

  /** The loop state of Load: current section, values assigned so far, keys assigned so far. */
  datatype Loading = Loading(section: string, values: Settings, explicit: set<Key>)

  function Assign(lower: char -> char, st: Loading, name: string, text: string): Result<Loading> {
    match Lookup(st.section, name)
    case None => Err(UnknownKey)
    case Some(k) =>
      match ParseValue(lower, KindOf(k), text)
      case None => Err(BadValue)
      case Some(v) => Ok(st.(values := st.values[k := v], explicit := st.explicit + {k}))
  }

  function ReadLine(lower: char -> char, st: Loading, raw: string): Result<Loading> {
    var line := Before(raw, '#');
    var text := TrimSpace(line);
    if text == "" then Ok(st)
    else if line != "" && line[0] != ' ' && text[|text| - 1] == ':' then Ok(st.(section := text[..|text| - 1]))
    else if st.section == "" then Err(KeyOutsideSection)
    else
      match Cut(text, ':')
      case None => Err(ExpectedKeyValue)
      case Some((name, value)) => Assign(lower, st, TrimSpace(name), Trim(TrimSpace(value), IsQuote))
  }

  /** A line at the left margin that ends in a colon, whatever comment follows. */
  predicate IsHeader(raw: string) {
    var line := Before(raw, '#');
    line != "" && line[0] != ' ' && TrimSpace(line) != "" && TrimSpace(line)[|TrimSpace(line)| - 1] == ':'
  }

  /** A known key of the section and a value of its kind. */
  predicate Understood(lower: char -> char, section: string, name: string, text: string) {
    && Lookup(section, TrimSpace(name)).Some?
    && ParseValue(lower, KindOf(Lookup(section, TrimSpace(name)).value), Trim(TrimSpace(text), IsQuote)).Some?
  }

  function Assigned(lower: char -> char, st: Loading, name: string, text: string): Loading
    requires Understood(lower, st.section, name, text)
  {
    var k := Lookup(st.section, TrimSpace(name)).value;
    var v := ParseValue(lower, KindOf(k), Trim(TrimSpace(text), IsQuote)).value;
    st.(values := st.values[k := v], explicit := st.explicit + {k})
  }

  /** Blank lines change nothing, and headers only the section. */
  lemma OtherLineMeaning(lower: char -> char, st: Loading, raw: string)
    ensures AllSpace(Before(raw, '#')) ==> ReadLine(lower, st, raw) == Ok(st)
    ensures IsHeader(raw) ==>
      exists name :: TrimSpace(Before(raw, '#')) == name + ":" && ReadLine(lower, st, raw) == Ok(st.(section := name))
  {
    TrimBlank(Before(raw, '#'));
    if IsHeader(raw) {
      var t := TrimSpace(Before(raw, '#'));
      assert t == t[..|t| - 1] + ":";
    }
  }

  /**
   Every other line is refused, unless it stands in a section and has a known key before its first colon and a
   value of the key's kind behind.
   */
  lemma EntryLineMeaning(lower: char -> char, st: Loading, raw: string)
    requires !AllSpace(Before(raw, '#')) && !IsHeader(raw)
    ensures var t := TrimSpace(Before(raw, '#')); var name := Before(t, ':');
      if st.section != "" && |name| < |t| && Understood(lower, st.section, name, t[|name| + 1..])
      then ReadLine(lower, st, raw) == Ok(Assigned(lower, st, name, t[|name| + 1..]))
      else ReadLine(lower, st, raw).Err?
  {
    TrimBlank(Before(raw, '#'));
    CutBefore(TrimSpace(Before(raw, '#')), ':');
  }

  function ReadLines(lower: char -> char, st: Loading, lines: seq<string>): Result<Loading>
    decreases |lines|
  {
    if lines == [] then Ok(st)
    else
      match ReadLine(lower, st, lines[0])
      case Err(e) => Err(e)
      case Ok(next) => ReadLines(lower, next, lines[1..])
  }

  /** The line loop of Load. */
  method LoadLines(lower: char -> char, text: string) returns (r: Result<Loading>)
    ensures r == ReadLines(lower, Loading("", map[], {}), Split(text, '\n'))
  {
    var lines := Split(text, '\n');
    var st := Loading("", map[], {});
    for i := 0 to |lines|
      invariant ReadLines(lower, st, lines[i..]) == ReadLines(lower, Loading("", map[], {}), lines)
    {
      assert lines[i..][0] == lines[i] && lines[i..][1..] == lines[i + 1..];
      var step := ReadLine(lower, st, lines[i]);
      match step {
        case Err(e) => return Err(e);
        case Ok(next) => st := next;
      }
    }
    r := Ok(st);
  }

  // ---------------------------------------------------------------- values survive being written and read

  predicate InRange(n: int) {
    -1 - (MAX_INT as int) <= n <= MAX_INT
  }

  /** Text that fits between quotes on one line. */
  predicate Quotable(s: string) {
    (s == "" || Bare(s, IsQuote)) && '#' !in s && '\n' !in s
  }

  predicate Storable(v: Value) {
    match v
    case Words(s) => Quotable(s)
    case Number(n) => InRange(n)
    case Flag(_) => true
    case Names(names) => forall i :: 0 <= i < |names| ==> Quotable(names[i]) && ',' !in names[i]
    case PortNumbers(ports) => forall i :: 0 <= i < |ports| ==> InRange(ports[i])
  }

  /** Text on one line, without comment, with nothing to trim. */
  predicate OnOneLine(w: string) {
    Bare(w, IsSpace) && '#' !in w && '\n' !in w
  }

  lemma FormatIntIsPlain(n: int)
    ensures Bare(FormatInt(n), IsSpace) && Bare(FormatInt(n), IsQuote) && Bare(FormatInt(n), IsBracket)
    ensures forall c :: c in FormatInt(n) ==> c == '-' || IsDecimal(c)
  {
  }

  lemma AtoiOfFormatInt(n: int)
    requires InRange(n)
    ensures Atoi(FormatInt(n)) == Some(n)
  {
    var d := if n < 0 then -n else n;
    DecimalOfItoa(d);
    assert AreDigits(Itoa(d)) && IsDecimal(Itoa(d)[0]);
    if n < 0 {
      assert FormatInt(n)[1..] == Itoa(d);
    }
    AtoiMeaning(FormatInt(n), n);
  }

  lemma QuotedIsTrimmed(s: string)
    requires s == "" || Bare(s, IsQuote)
    ensures Trim(Quoted(s), IsQuote) == s
  {
    if s == "" {
      TrimQuotes();
    } else {
      TrimOf("\"", s, "\"", IsQuote);
    }
  }

  lemma TrimQuotes()
    ensures Trim(Quoted(""), IsQuote) == ""
  {
    assert Quoted("") == "\"\"" && "\"\""[1..] == "\"" && "\""[1..] == "";
  }

  /** Words that a list can hold: no comma, nothing to trim. */
  predicate Listable(w: string) {
    Bare(w, IsSpace) && Bare(w, IsBracket) && ',' !in w
  }

  lemma {:induction false} JoinedIsBare(ws: seq<string>)
    requires ws != [] && forall i :: 0 <= i < |ws| ==> Listable(ws[i])
    ensures Bare(Join(ws, ", "), IsSpace) && Bare(Join(ws, ", "), IsBracket)
  {
    if |ws| > 1 {
      JoinedIsBare(ws[1..]);
    }
  }

  lemma FirstItem(pre: string, ws: seq<string>)
    requires |ws| > 1 && ',' !in pre && ',' !in ws[0]
    ensures Split(pre + Join(ws, ", "), ',') == [pre + ws[0]] + Split(" " + Join(ws[1..], ", "), ',')
  {
    var rest := " " + Join(ws[1..], ", ");
    assert pre + Join(ws, ", ") == (pre + ws[0]) + [','] + rest;
    SplitFirst(pre + ws[0], rest, ',');
  }

  lemma ItemIsTrimmed(pre: string, w: string)
    requires Listable(w) && (pre == "" || pre == " ")
    ensures Item(pre + w) == Trim(w, IsQuote)
  {
    assert pre + w + "" == pre + w;
    TrimOf(pre, w, "", IsSpace);
  }

  lemma {:induction false} ItemsOfJoined(pre: string, ws: seq<string>, items: seq<string>)
    requires ws != [] && |items| == |ws| && (pre == "" || pre == " ")
    requires forall i :: 0 <= i < |ws| ==> Listable(ws[i]) && Trim(ws[i], IsQuote) == items[i]
    ensures Items(Split(pre + Join(ws, ", "), ',')) == items
    decreases |ws|
  {
    ItemIsTrimmed(pre, ws[0]);
    assert items == [items[0]] + items[1..];
    if |ws| == 1 {
      SplitNothing(pre + ws[0], ',');
    } else {
      FirstItem(pre, ws);
      ItemsOfJoined(" ", ws[1..], items[1..]);
      ItemsOfMore(pre + ws[0], Split(" " + Join(ws[1..], ", "), ','));
    }
  }

  lemma ItemsOfMore(part: string, parts: seq<string>)
    ensures Items([part] + parts) == [Item(part)] + Items(parts)
  {
  }

  lemma EmptyListIsRead()
    ensures ListItems("[" + "" + "]") == []
  {
    assert "[" + "" + "]" == "[]" && "[]"[1..] == "]" && "]"[1..] == "";
  }

  lemma ListIsRead(ws: seq<string>, items: seq<string>)
    requires |items| == |ws|
    requires forall i :: 0 <= i < |ws| ==> Listable(ws[i]) && Trim(ws[i], IsQuote) == items[i]
    ensures ListItems("[" + Join(ws, ", ") + "]") == items
  {
    if ws == [] {
      EmptyListIsRead();
    } else {
      JoinedIsBare(ws);
      TrimOf("[", Join(ws, ", "), "]", IsBracket);
      TrimBare(Join(ws, ", "), IsSpace);
      assert "" + Join(ws, ", ") == Join(ws, ", ");
      ItemsOfJoined("", ws, items);
    }
  }

  lemma {:induction false} AllAreParsed(parse: string -> Option<int>, items: seq<string>, ns: seq<int>)
    requires |items| == |ns| && forall i :: 0 <= i < |ns| ==> parse(items[i]) == Some(ns[i])
    ensures ParseAll(parse, items) == Some(ns)
  {
    if items != [] {
      AllAreParsed(parse, items[1..], ns[1..]);
      assert ns == [ns[0]] + ns[1..];
    }
  }

  lemma IntegersOfFormatAll(ports: seq<int>)
    requires forall i :: 0 <= i < |ports| ==> InRange(ports[i])
    ensures Integers(FormatAll(ports)) == Some(ports)
  {
    forall i | 0 <= i < |ports| ensures Atoi(FormatAll(ports)[i]) == Some(ports[i]) {
      AtoiOfFormatInt(ports[i]);
    }
    AllAreParsed(Atoi, FormatAll(ports), ports);
  }

  lemma NamesAreRead(names: seq<string>)
    requires Storable(Names(names))
    ensures ListItems(RenderValue(Names(names))) == names
  {
    var ws := QuotedAll(names);
    forall i | 0 <= i < |ws|
      ensures Listable(ws[i]) && Trim(ws[i], IsQuote) == names[i]
    {
      QuotedIsTrimmed(names[i]);
    }
    ListIsRead(ws, names);
  }

  lemma PortsAreRead(ports: seq<int>)
    requires Storable(PortNumbers(ports))
    ensures Integers(ListItems(RenderValue(PortNumbers(ports)))) == Some(ports)
  {
    var ws := FormatAll(ports);
    forall i | 0 <= i < |ws|
      ensures Listable(ws[i]) && Trim(ws[i], IsQuote) == ws[i]
    {
      FormatIntIsPlain(ports[i]);
      TrimBare(ws[i], IsQuote);
    }
    ListIsRead(ws, ws);
    IntegersOfFormatAll(ports);
  }

  /** Reading a written value gives the value back. */
  lemma ValueIsRead(lower: char -> char, kind: Kind, v: Value)
    requires Storable(v) && Fits(kind, v)
    requires kind == LowerText ==> ToLower(lower, v.text) == v.text
    ensures ParseValue(lower, kind, Trim(RenderValue(v), IsQuote)) == Some(v)
  {
    match v
    case Words(s) => QuotedIsTrimmed(s);
    case Number(n) =>
      FormatIntIsPlain(n);
      TrimBare(FormatInt(n), IsQuote);
      AtoiOfFormatInt(n);
    case Flag(on) =>
      BoolTexts();
      TrimBare(RenderValue(v), IsQuote);
    case Names(names) =>
      NamesAreRead(names);
      TrimBare(RenderValue(v), IsQuote);
    case PortNumbers(ports) =>
      PortsAreRead(ports);
      TrimBare(RenderValue(v), IsQuote);
  }

  lemma {:induction false} JoinedIsClean(ws: seq<string>, c: char)
    requires c != ',' && c != ' ' && forall i :: 0 <= i < |ws| ==> c !in ws[i]
    ensures c !in Join(ws, ", ")
  {
    if |ws| > 1 {
      JoinedIsClean(ws[1..], c);
    }
  }

  lemma TextIsOnOneLine(s: string)
    requires Quotable(s)
    ensures OnOneLine(Quoted(s))
  {
  }

  lemma BracketedIsOnOneLine(s: string)
    requires '#' !in s && '\n' !in s
    ensures OnOneLine("[" + s + "]")
  {
    var w := "[" + s + "]";
    assert w[0] == '[' && w[|w| - 1] == ']';
    forall i | 0 <= i < |w| ensures w[i] != '#' && w[i] != '\n' {
      assert i == 0 || i == |w| - 1 || w[i] == s[i - 1];
    }
  }

  lemma ListIsOnOneLine(ws: seq<string>)
    requires forall i :: 0 <= i < |ws| ==> '#' !in ws[i] && '\n' !in ws[i]
    ensures OnOneLine("[" + Join(ws, ", ") + "]")
  {
    JoinedIsClean(ws, '#');
    JoinedIsClean(ws, '\n');
    BracketedIsOnOneLine(Join(ws, ", "));
  }

  lemma ValueIsOnOneLine(v: Value)
    requires Storable(v)
    ensures OnOneLine(RenderValue(v))
  {
    match v
    case Words(s) => TextIsOnOneLine(s);
    case Number(n) => FormatIntIsPlain(n);
    case Flag(on) =>
    case Names(names) =>
      forall i | 0 <= i < |names| ensures '#' !in Quoted(names[i]) && '\n' !in Quoted(names[i]) {
        TextIsOnOneLine(names[i]);
      }
      ListIsOnOneLine(QuotedAll(names));
    case PortNumbers(ports) =>
      forall i | 0 <= i < |ports| ensures '#' !in FormatInt(ports[i]) && '\n' !in FormatInt(ports[i]) {
        FormatIntIsPlain(ports[i]);
      }
      ListIsOnOneLine(FormatAll(ports));
  }

  // ---------------------------------------------------------------- lines survive being written and read

  function EntryLine(k: Key, v: Value): string {
    "  " + KeyName(k) + ": " + RenderValue(v)
  }

  lemma NameIsPlain(name: string)
    requires IsName(name)
    ensures OnOneLine(name) && ':' !in name
  {
    assert !IsSpace(name[0]) && !IsSpace(name[|name| - 1]);
  }

  lemma ValueIsCut(name: string, w: string)
    requires IsName(name) && Bare(w, IsSpace)
    ensures Cut(name + ": " + w, ':') == Some((name, " " + w))
    ensures TrimSpace(name) == name && TrimSpace(" " + w) == w
  {
    NameIsPlain(name);
    assert name + ": " + w == name + [':'] + (" " + w);
    CutAt(name, " " + w, ':');
    TrimBare(name, IsSpace);
    assert " " + w + "" == " " + w;
    TrimOf(" ", w, "", IsSpace);
  }

  lemma EntryIsPlain(name: string, w: string)
    requires IsName(name) && OnOneLine(w)
    ensures var line := "  " + name + ": " + w;
            '\n' !in line && Before(line, '#') == line && TrimSpace(line) == name + ": " + w
  {
    NameIsPlain(name);
    var text := name + ": " + w;
    assert "  " + name + ": " + w == "  " + text + "";
    BeforeNothing("  " + name + ": " + w, '#');
    TrimOf("  ", text, "", IsSpace);
  }

  /** A written entry is read back under its own key. */
  lemma EntryIsRead(lower: char -> char, st: Loading, k: Key, v: Value)
    requires st.section == SectionName(SectionOf(k))
    requires Storable(v) && Fits(KindOf(k), v)
    requires KindOf(k) == LowerText ==> ToLower(lower, v.text) == v.text
    ensures '\n' !in EntryLine(k, v)
    ensures ReadLine(lower, st, EntryLine(k, v)) ==
            Ok(st.(values := st.values[k := v], explicit := st.explicit + {k}))
  {
    KeyNameIsName(k);
    SectionNameIsName(SectionOf(k));
    ValueIsOnOneLine(v);
    EntryIsPlain(KeyName(k), RenderValue(v));
    ValueIsCut(KeyName(k), RenderValue(v));
    KeyIsFound(k);
    ValueIsRead(lower, KindOf(k), v);
  }

  lemma HeaderIsRead(lower: char -> char, st: Loading, s: Section)
    ensures '\n' !in SectionName(s) + ":"
    ensures ReadLine(lower, st, SectionName(s) + ":") == Ok(st.(section := SectionName(s)))
  {
    var name := SectionName(s);
    SectionNameIsName(s);
    NameIsPlain(name);
    BeforeNothing(name + ":", '#');
    TrimBare(name + ":", IsSpace);
    assert (name + ":")[..|name|] == name;
  }

  lemma CommentIsSkipped(lower: char -> char, st: Loading, comment: string)
    ensures ReadLine(lower, st, "#" + comment) == Ok(st)
  {
  }

  /** The loader takes a document apart at its newlines. */
  lemma FirstLineIsRead(lower: char -> char, st: Loading, line: string, rest: string)
    requires '\n' !in line && ReadLine(lower, st, line).Ok?
    ensures ReadLines(lower, st, Split(line + "\n" + rest, '\n')) ==
            ReadLines(lower, ReadLine(lower, st, line).value, Split(rest, '\n'))
  {
    SplitFirst(line, rest, '\n');
  }

  lemma {:induction false} BeforeFirst(a: string, rest: string, c: char)
    requires c !in a
    ensures Before(a + [c] + rest, c) == a
  {
    if a != "" {
      BeforeFirst(a[1..], rest, c);
      assert (a + [c] + rest)[1..] == a[1..] + [c] + rest;
      assert a == [a[0]] + a[1..];
    }
  }

  lemma {:induction false} BeforeIsPart(s: string, c: char)
    ensures Before(s, c) <= s && c !in Before(s, c) && (c in s <==> |Before(s, c)| < |s|)
  {
    if s != "" && s[0] != c {
      BeforeIsPart(s[1..], c);
      assert s == [s[0]] + s[1..];
    }
  }

  lemma {:induction false} BeforeIsFirst(s: string, c: char)
    requires c in s
    ensures |Before(s, c)| < |s| && s == Before(s, c) + [c] + s[|Before(s, c)| + 1..]
  {
    if s[0] != c {
      BeforeIsFirst(s[1..], c);
      assert s == [s[0]] + s[1..];
    }
  }

  /** What is written of a quoted text before a comment starts. */
  function Uncommented(s: string): string {
    if '#' in s then "\"" + Before(s, '#') else Quoted(s)
  }

  lemma HashCuts(pre: string, s: string)
    requires '#' !in pre && '#' in s
    ensures Before(pre + Quoted(s), '#') == pre + ("\"" + Before(s, '#'))
  {
    var a := Before(s, '#');
    BeforeIsPart(s, '#');
    BeforeIsFirst(s, '#');
    var rest := s[|a| + 1..] + "\"";
    assert pre + Quoted(s) == (pre + ("\"" + a)) + ['#'] + rest;
    BeforeFirst(pre + ("\"" + a), rest, '#');
  }

  lemma CommentCuts(name: string, s: string)
    requires '#' !in name
    ensures Before("  " + name + ": " + Quoted(s), '#') == "  " + name + ": " + Uncommented(s)
  {
    var pre := "  " + name + ": ";
    if '#' in s {
      HashCuts(pre, s);
    } else {
      BeforeNothing(pre + Quoted(s), '#');
    }
  }

  /** A line is trimmed to the name and what is left of its value. */
  lemma LineIsTrimmed(name: string, w: string)
    requires IsName(name) && w != "" && !IsSpace(w[0])
    ensures var v := TrimRight(w, IsSpace); Bare(v, IsSpace) && TrimSpace("  " + name + ": " + w) == name + ": " + v
  {
    NameIsPlain(name);
    TrimRightEnds(w, IsSpace);
    assert "  " + name + ": " + w == "  " + (name + ": " + w);
    TrimLeftOf("  ", name + ": " + w, IsSpace);
    TrimRightBehind(name + ": ", w, IsSpace);
  }

  /** What the loader keeps of a text. */
  function KeptText(s: string): string {
    Trim(TrimRight(Uncommented(s), IsSpace), IsQuote)
  }

  /** Any text between quotes is read as its kept part, without an error. */
  lemma TextIsRead(lower: char -> char, st: Loading, k: Key, s: string)
    requires st.section == SectionName(SectionOf(k)) && KindOf(k) == PlainText
    ensures ReadLine(lower, st, EntryLine(k, Words(s))) ==
            Ok(Storing(st, k, KeptText(s)))
  {
    var name := KeyName(k);
    KeyNameIsName(k);
    NameIsPlain(name);
    SectionNameIsName(SectionOf(k));
    CommentCuts(name, s);
    LineIsTrimmed(name, Uncommented(s));
    ValueIsCut(name, TrimRight(Uncommented(s), IsSpace));
    KeyIsFound(k);
  }

  /** A text is kept whole exactly when it has no '#' and no quote at its ends. */
  lemma KeptWhole(s: string)
    ensures KeptText(s) == s <==> '#' !in s && (s == "" || Bare(s, IsQuote))
  {
    var v := TrimRight(Uncommented(s), IsSpace);
    TrimRightEnds(Uncommented(s), IsSpace);
    TrimEnds(v, IsQuote);
    if '#' in s {
      BeforeIsPart(s, '#');
      assert v[0] == '"';
    } else {
      assert v == Quoted(s);
      if s == "" || Bare(s, IsQuote) { QuotedIsTrimmed(s); }
    }
  }

  /**
   Which texts survive being written, on one line, and read: exactly those without a '#', behind which
   everything is lost without an error, and without a quote at either end.
   */
  lemma TextSurvives(lower: char -> char, st: Loading, k: Key, s: string)
    requires st.section == SectionName(SectionOf(k)) && KindOf(k) == PlainText && '\n' !in s
    ensures '\n' !in EntryLine(k, Words(s))
    ensures ReadLine(lower, st, EntryLine(k, Words(s))) == Ok(Storing(st, k, s))
      <==> '#' !in s && (s == "" || Bare(s, IsQuote))
  {
    TextLineIsOneLine(k, s);
    TextComesBack(lower, st, k, s);
  }

  lemma TextComesBack(lower: char -> char, st: Loading, k: Key, s: string)
    requires st.section == SectionName(SectionOf(k)) && KindOf(k) == PlainText && '\n' !in s
    ensures ReadLine(lower, st, EntryLine(k, Words(s))) == Ok(Storing(st, k, s))
      <==> '#' !in s && (s == "" || Bare(s, IsQuote))
  {
    TextIsRead(lower, st, k, s);
    KeptWhole(s);
    StoringDiffers(st, k, KeptText(s), s);
  }

  /** The loader's state after assigning a text. */
  function Storing(st: Loading, k: Key, text: string): Loading {
    st.(values := st.values[k := Words(text)], explicit := st.explicit + {k})
  }

  lemma StoringDiffers(st: Loading, k: Key, a: string, b: string)
    ensures Storing(st, k, a) == Storing(st, k, b) <==> a == b
  {
    assert Storing(st, k, a).values[k] == Words(a) && Storing(st, k, b).values[k] == Words(b);
  }

  lemma TextLineIsOneLine(k: Key, s: string)
    requires '\n' !in s
    ensures '\n' !in EntryLine(k, Words(s))
  {
    KeyNameIsName(k);
    NameIsPlain(KeyName(k));
  }
}
