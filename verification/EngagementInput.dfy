/** Validation of the target and the authorization reference of an engagement. */
module EngagementInput {
  import opened Basics
  import opened Text

  /** What the validators take from the Go libraries; addresses are returned in canonical text form. */
  datatype Library = Library(
    isLetter: char -> bool,
    isDigit: char -> bool,
    lower: char -> char,
    parseIP: string -> Option<string>,
    parseCIDR: string -> Option<string>)

  /** Characters that mean nothing to the configuration loader. */
  predicate Harmless(c: char) {
    c != '"' && c != '#' && c != ',' && c != '_' && !IsSpace(c)
  }

  predicate IsAddressChar(c: char) {
    '0' <= c <= '9' || 'a' <= c <= 'f' || c == '.' || c == ':' || c == '/'
  }

  ghost predicate ReturnsAddresses(parse: string -> Option<string>) {
    forall s :: parse(s).Some? ==> parse(s).value != "" && Only(parse(s).value, IsAddressChar)
  }

  ghost predicate LettersAreHarmless(lib: Library) {
    forall c :: lib.isLetter(c) || lib.isDigit(c) ==> Harmless(c) && Harmless(lib.lower(c))
  }

  /** What Unicode and the net package guarantee of those functions. */
  ghost predicate Lawful(lib: Library) {
    && LettersAreHarmless(lib)
    && KeepsLowerCase(lib.lower) && lib.lower('-') == '-' && lib.lower('.') == '.'
    && ReturnsAddresses(lib.parseIP) && ReturnsAddresses(lib.parseCIDR)
  }

  predicate HasPrefix(s: string, prefix: string) {
    |prefix| <= |s| && s[..|prefix|] == prefix
  }

  predicate Contains(s: string, sub: string) {
    exists i :: 0 <= i <= |s| && HasPrefix(s[i..], sub)
  }

  // ---------------------------------------------------------------- targets

  const FORBIDDEN: string := "\r\n\\\"'[]{}#?@"

  predicate IsLabelChar(lib: Library, c: char) {
    lib.isLetter(c) || lib.isDigit(c) || c == '-'
  }

  predicate IsLabel(lib: Library, s: string) {
    && s != "" && ByteLength(s) <= 63 && s[0] != '-' && s[|s| - 1] != '-'
    && forall i :: 0 <= i < |s| ==> IsLabelChar(lib, s[i])
  }

  predicate IsHostName(lib: Library, s: string) {
    && ByteLength(s) <= 253 && '/' !in s && ':' !in s
    && forall i :: 0 <= i < |Split(s, '.')| ==> IsLabel(lib, Split(s, '.')[i])
  }

  function EngagementTarget(lib: Library, value: string): Option<string> {
    var target := TrimSpace(value);
    if target == "" || (exists c :: c in FORBIDDEN && c in target) || Contains(target, "://") then None
    else if lib.parseIP(target).Some? then lib.parseIP(target)
    else if lib.parseCIDR(target).Some? then lib.parseCIDR(target)
    else if IsHostName(lib, target) then Some(ToLower(lib.lower, target))
    else None
  }

  method ValidateEngagementTarget(lib: Library, value: string) returns (r: Option<string>)
    ensures r == EngagementTarget(lib, value)
  {
    var target := TrimSpace(value);
    if target == "" || (exists c :: c in FORBIDDEN && c in target) || Contains(target, "://") {
      return None;
    }
    r := lib.parseIP(target);
    if r.Some? {
      return r;
    }
    r := lib.parseCIDR(target);
    if r.Some? {
      return r;
    }
    if ByteLength(target) > 253 || '/' in target || ':' in target {
      return None;
    }
    var labels := Split(target, '.');
    for i := 0 to |labels|
      invariant forall j :: 0 <= j < i ==> IsLabel(lib, labels[j])
    {
      var s := labels[i];
      if s == "" || ByteLength(s) > 63 || s[0] == '-' || s[|s| - 1] == '-' {
        return None;
      }
      for j := 0 to |s|
        invariant forall m :: 0 <= m < j ==> IsLabelChar(lib, s[m])
      {
        if !lib.isLetter(s[j]) && !lib.isDigit(s[j]) && s[j] != '-' {
          return None;
        }
      }
    }
    r := Some(ToLower(lib.lower, target));
  }

  lemma HostNameChars(lib: Library, s: string, i: nat)
    requires IsHostName(lib, s) && i < |s|
    ensures s[i] == '.' || IsLabelChar(lib, s[i])
  {
    if s[i] != '.' {
      SplitCovers(s, '.', i);
      var part :| part in Split(s, '.') && s[i] in part;
      assert IsLabel(lib, part);
    }
  }

  /** "://" */
  predicate SchemeAt(t: string, i: nat) {
    i + 2 < |t| && t[i] == ':' && t[i + 1] == '/' && t[i + 2] == '/'
  }

  /** No character and no "://" of a URL, a list, a quoted text or a comment. */
  ghost predicate IsPlainTarget(t: string) {
    && '\r' !in t && '\n' !in t && '\\' !in t && '\"' !in t && '\'' !in t && '[' !in t && ']' !in t
    && '{' !in t && '}' !in t && '#' !in t && '?' !in t && '@' !in t
    && forall i :: 0 <= i < |t| ==> !SchemeAt(t, i)
  }

  /** A label between dots: at most 63 bytes of letters, digits and inner hyphens. */
  ghost predicate IsHostLabel(lib: Library, s: string) {
    && 1 <= |s| && ByteLength(s) <= 63 && s[0] != '-' && s[|s| - 1] != '-'
    && forall c :: c in s ==> c != '.' && (lib.isLetter(c) || lib.isDigit(c) || c == '-')
  }

  /** At most 253 bytes of labels with dots between them, without the separators of ports and networks. */
  ghost predicate IsDotted(lib: Library, s: string) {
    && ByteLength(s) <= 253 && '/' !in s && ':' !in s
    && exists labels :: labels != [] && s == Join(labels, ".") && forall l :: l in labels ==> IsHostLabel(lib, l)
  }

  /** A trimmed target that is accepted. */
  ghost predicate IsTarget(lib: Library, t: string) {
    t != "" && IsPlainTarget(t) && (lib.parseIP(t).Some? || lib.parseCIDR(t).Some? || IsDotted(lib, t))
  }

  /** A trimmed reference that is accepted. */
  ghost predicate IsReference(lib: Library, t: string) {
    && 1 <= |t| && ByteLength(t) <= 256 && (|t| >= 8 ==> t[..8] != "REPLACE_")
    && forall c :: c in t ==> lib.isLetter(c) || lib.isDigit(c) || c in {'.', '_', ':', '/', '-'}
  }

  lemma PlainTargets(t: string)
    ensures IsPlainTarget(t) <==> !((exists c :: c in FORBIDDEN && c in t) || Contains(t, "://"))
  {
    forall c
      ensures c in FORBIDDEN <==>
        c in {'\r', '\n', '\\', '\"', '\'', '[', ']', '{', '}', '#', '?', '@'}
    {
      ForbiddenCharacters(c);
    }
    ContainsScheme(t);
  }

  lemma ContainsScheme(t: string)
    ensures Contains(t, "://") <==> exists i :: 0 <= i < |t| && SchemeAt(t, i)
  {
    forall i | 0 <= i <= |t| ensures HasPrefix(t[i..], "://") <==> SchemeAt(t, i) {
      SchemePrefix(t[i..]);
    }
    if i :| 0 <= i < |t| && SchemeAt(t, i) {
      assert HasPrefix(t[i..], "://");
    }
  }

  lemma SchemePrefix(s: string)
    ensures HasPrefix(s, "://") <==> SchemeAt(s, 0)
  {
    if |s| >= 3 { assert s[..3] == [s[0], s[1], s[2]]; }
  }

  lemma ForbiddenCharacters(c: char)
    ensures c in FORBIDDEN <==> c in {'\r', '\n', '\\', '\"', '\'', '[', ']', '{', '}', '#', '?', '@'}
  {
    var f := FORBIDDEN;
    assert |f| == 12 && f[0] == '\r' && f[1] == '\n' && f[2] == '\\' && f[3] == '\"' && f[4] == '\'' && f[5] == '[';
    assert f[6] == ']' && f[7] == '{' && f[8] == '}' && f[9] == '#' && f[10] == '?' && f[11] == '@';
  }

  lemma DottedNames(lib: Library, s: string)
    ensures IsHostName(lib, s) <==> IsDotted(lib, s)
  {
    var parts := Split(s, '.');
    SplitParts(s, '.');
    if IsHostName(lib, s) {
      forall l | l in parts ensures IsHostLabel(lib, l) {
        var i :| 0 <= i < |parts| && parts[i] == l;
        assert IsLabel(lib, parts[i]);
      }
      assert s == Join(parts, ".");
    }
    if IsDotted(lib, s) {
      var labels :| labels != [] && s == Join(labels, ".") && forall l :: l in labels ==> IsHostLabel(lib, l);
      SplitOfJoin(labels, '.');
      forall i | 0 <= i < |parts| ensures IsLabel(lib, parts[i]) {
        assert IsHostLabel(lib, parts[i]);
      }
    }
  }

  /** Exactly which targets are accepted, and as what. */
  lemma TargetMeaning(lib: Library, value: string)
    ensures var t := TrimSpace(value);
      && (EngagementTarget(lib, value).Some? <==> IsTarget(lib, t))
      && (EngagementTarget(lib, value).Some? ==>
            EngagementTarget(lib, value).value ==
              if lib.parseIP(t).Some? then lib.parseIP(t).value
              else if lib.parseCIDR(t).Some? then lib.parseCIDR(t).value
              else seq(|t|, i requires 0 <= i < |t| => lib.lower(t[i])))
  {
    PlainTargets(TrimSpace(value));
    DottedNames(lib, TrimSpace(value));
  }

  /** An accepted target has no character that the loader treats specially, and no underscore. */
  lemma TargetIsHarmless(lib: Library, value: string)
    requires Lawful(lib) && EngagementTarget(lib, value).Some?
    ensures var target := EngagementTarget(lib, value).value;
            target != "" && Only(target, Harmless)
  {
    var target := TrimSpace(value);
    if lib.parseIP(target).None? && lib.parseCIDR(target).None? {
      forall i | 0 <= i < |target|
        ensures Harmless(lib.lower(target[i]))
      {
        HostNameChars(lib, target, i);
      }
    }
  }

  // ---------------------------------------------------------------- authorization references

  predicate IsReferenceChar(lib: Library, c: char) {
    lib.isLetter(c) || lib.isDigit(c) || c == '.' || c == '_' || c == ':' || c == '/' || c == '-'
  }

  function AuthorizationReference(lib: Library, value: string): Option<string> {
    var authorization := TrimSpace(value);
    if authorization == "" || ByteLength(authorization) > 256 || HasPrefix(authorization, "REPLACE_") then None
    else if forall i :: 0 <= i < |authorization| ==> IsReferenceChar(lib, authorization[i]) then Some(authorization)
    else None
  }

  method ValidateAuthorizationReference(lib: Library, value: string) returns (r: Option<string>)
    ensures r == AuthorizationReference(lib, value)
  {
    var authorization := TrimSpace(value);
    if authorization == "" || ByteLength(authorization) > 256 || HasPrefix(authorization, "REPLACE_") {
      return None;
    }
    for i := 0 to |authorization|
      invariant forall j :: 0 <= j < i ==> IsReferenceChar(lib, authorization[j])
    {
      var c := authorization[i];
      if !lib.isLetter(c) && !lib.isDigit(c) && c !in "._:/-" {
        return None;
      }
    }
    r := Some(authorization);
  }

  /** Exactly which references are accepted; an accepted one is kept as it is. */
  lemma ReferenceMeaning(lib: Library, value: string)
    ensures var t := TrimSpace(value);
      && (AuthorizationReference(lib, value).Some? <==> IsReference(lib, t))
      && (AuthorizationReference(lib, value).Some? ==> AuthorizationReference(lib, value).value == t)
  {
    var t := TrimSpace(value);
    forall i | 0 <= i < |t| ensures t[i] in t {}
  }

  lemma AuthorizationIsHarmless(lib: Library, value: string)
    requires Lawful(lib) && AuthorizationReference(lib, value).Some?
    ensures var authorization := AuthorizationReference(lib, value).value;
            && authorization != "" && !HasPrefix(authorization, "REPLACE_")
            && Only(authorization, c => Harmless(c) || c == '_')
  {
    var authorization := AuthorizationReference(lib, value).value;
    forall i | 0 <= i < |authorization|
      ensures Harmless(authorization[i]) || authorization[i] == '_'
    {
      assert IsReferenceChar(lib, authorization[i]);
    }
  }
}
