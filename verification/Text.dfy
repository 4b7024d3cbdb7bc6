/** The string operations of the Go standard library that the models need. */
module Text {

  import opened Basics

  // ---------------------------------------------------------------- characters

  /** Unicode White_Space. */
  predicate IsSpace(c: char) {
    || c == '\t' || c == '\n' || c == '\U{0B}' || c == '\U{0C}' || c == '\r' || c == ' '
    || c == '\U{85}' || c == '\U{A0}' || c == '\U{1680}' || '\U{2000}' <= c <= '\U{200A}'
    || c == '\U{2028}' || c == '\U{2029}' || c == '\U{202F}' || c == '\U{205F}' || c == '\U{3000}'
  }

  predicate AllSpace(s: string) {
    forall i :: 0 <= i < |s| ==> IsSpace(s[i])
  }

  ghost predicate Only(s: string, allowed: char -> bool) {
    forall i :: 0 <= i < |s| ==> allowed(s[i])
  }

  /** Characters of configuration keys and profile names. */
  predicate IsNameChar(c: char) {
    'a' <= c <= 'z' || '0' <= c <= '9' || c == '_'
  }

  /** A non-empty word of lower-case letters, digits and underscores. */
  predicate IsName(s: string) {
    s != "" && forall i :: 0 <= i < |s| ==> IsNameChar(s[i])
  }

  /** strings.ToLower, rune by rune. */
  function ToLower(lower: char -> char, s: string): (r: string)
    ensures |r| == |s| && forall i :: 0 <= i < |s| ==> r[i] == lower(s[i])
  {
    seq(|s|, i requires 0 <= i < |s| => lower(s[i]))
  }

  ghost predicate KeepsLowerCase(lower: char -> char) {
    forall c :: IsNameChar(c) ==> lower(c) == c
  }

  lemma Differ(a: string, b: string, i: nat)
    requires i < |a| && i < |b| && a[i] != b[i]
    ensures a != b
  {
  }

  // ---------------------------------------------------------------- trimming

  function TrimLeft(s: string, cut: char -> bool): string {
    if s != "" && cut(s[0]) then TrimLeft(s[1..], cut) else s
  }

  function TrimRight(s: string, cut: char -> bool): string {
    if s != "" && cut(s[|s| - 1]) then TrimRight(s[..|s| - 1], cut) else s
  }

  function Trim(s: string, cut: char -> bool): string {
    TrimRight(TrimLeft(s, cut), cut)
  }

  function TrimSpace(s: string): string {
    Trim(s, IsSpace)
  }

  /** Nothing to trim at either end. */
  predicate Bare(s: string, cut: char -> bool) {
    s != "" && !cut(s[0]) && !cut(s[|s| - 1])
  }

  lemma {:induction false} TrimLeftOf(pre: string, s: string, cut: char -> bool)
    requires Only(pre, cut) && (s == "" || !cut(s[0]))
    ensures TrimLeft(pre + s, cut) == s
  {
    if pre == "" {
      assert pre + s == s;
    } else {
      assert (pre + s)[1..] == pre[1..] + s;
      TrimLeftOf(pre[1..], s, cut);
    }
  }

  lemma {:induction false} TrimRightOf(s: string, post: string, cut: char -> bool)
    requires Only(post, cut) && (s == "" || !cut(s[|s| - 1]))
    ensures TrimRight(s + post, cut) == s
  {
    if post == "" {
      assert s + post == s;
    } else {
      var init := post[..|post| - 1];
      assert (s + post)[..|s + post| - 1] == s + init;
      TrimRightOf(s, init, cut);
    }
  }

  /** Trimming removes exactly what surrounds a bare string. */
  lemma TrimOf(pre: string, s: string, post: string, cut: char -> bool)
    requires Only(pre, cut) && Only(post, cut) && Bare(s, cut)
    ensures Trim(pre + s + post, cut) == s
  {
    assert pre + s + post == pre + (s + post);
    TrimLeftOf(pre, s + post, cut);
    TrimRightOf(s, post, cut);
  }

  lemma TrimBare(s: string, cut: char -> bool)
    requires Bare(s, cut)
    ensures Trim(s, cut) == s
  {
    assert "" + s + "" == s;
    TrimOf("", s, "", cut);
  }

  lemma {:induction false} TrimLeftEnds(s: string, cut: char -> bool)
    ensures |TrimLeft(s, cut)| <= |s| && (s != "" && cut(s[0]) ==> |TrimLeft(s, cut)| < |s|)
    ensures TrimLeft(s, cut) == "" || !cut(TrimLeft(s, cut)[0])
  {
    if s != "" && cut(s[0]) { TrimLeftEnds(s[1..], cut); }
  }

  lemma {:induction false} TrimRightEnds(s: string, cut: char -> bool)
    ensures TrimRight(s, cut) <= s
    ensures TrimRight(s, cut) == "" || !cut(TrimRight(s, cut)[|TrimRight(s, cut)| - 1])
    ensures s != "" && !cut(s[0]) ==> TrimRight(s, cut) != ""
  {
    if s != "" && cut(s[|s| - 1]) { TrimRightEnds(s[..|s| - 1], cut); }
  }

  /** Trimming leaves nothing to trim, and loses something when the first character is trimmed. */
  lemma TrimEnds(s: string, cut: char -> bool)
    ensures Trim(s, cut) == "" || Bare(Trim(s, cut), cut)
    ensures s != "" && cut(s[0]) ==> |Trim(s, cut)| < |s|
  {
    TrimLeftEnds(s, cut);
    TrimRightEnds(TrimLeft(s, cut), cut);
  }

  /** Nothing is left exactly when there is nothing but white space. */
  lemma {:induction false} TrimBlank(s: string)
    ensures TrimSpace(s) == "" <==> AllSpace(s)
  {
    if AllSpace(s) {
      TrimLeftAll(s, IsSpace);
    } else if s != "" {
      TrimLeftKeeps(s, IsSpace);
      TrimRightEnds(TrimLeft(s, IsSpace), IsSpace);
    }
  }

  lemma {:induction false} TrimLeftAll(s: string, cut: char -> bool)
    requires Only(s, cut)
    ensures TrimLeft(s, cut) == ""
  {
    if s != "" { TrimLeftAll(s[1..], cut); }
  }

  lemma {:induction false} TrimLeftKeeps(s: string, cut: char -> bool)
    requires !Only(s, cut)
    ensures TrimLeft(s, cut) != "" && !cut(TrimLeft(s, cut)[0])
  {
    if cut(s[0]) {
      var i :| 0 <= i < |s| && !cut(s[i]);
      assert !cut(s[1..][i - 1]);
      TrimLeftKeeps(s[1..], cut);
    }
  }

  /** Trimming the right does not reach beyond a part that keeps something. */
  lemma {:induction false} TrimRightBehind(pre: string, s: string, cut: char -> bool)
    requires TrimRight(s, cut) != ""
    ensures TrimRight(pre + s, cut) == pre + TrimRight(s, cut)
  {
    if cut(s[|s| - 1]) {
      assert (pre + s)[..|pre + s| - 1] == pre + s[..|s| - 1];
      TrimRightBehind(pre, s[..|s| - 1], cut);
    }
  }

  // ---------------------------------------------------------------- splitting

  function Split(s: string, sep: char): (parts: seq<string>)
    ensures |parts| >= 1
  {
    if s == "" then [""]
    else
      var rest := Split(s[1..], sep);
      if s[0] == sep then [""] + rest else [[s[0]] + rest[0]] + rest[1..]
  }

  lemma {:induction false} SplitFirst(a: string, rest: string, sep: char)
    requires sep !in a
    ensures Split(a + [sep] + rest, sep) == [a] + Split(rest, sep)
  {
    var s := a + [sep] + rest;
    if a == "" {
      assert s[1..] == rest;
    } else {
      SplitFirst(a[1..], rest, sep);
      assert s[1..] == a[1..] + [sep] + rest;
      assert a == [a[0]] + a[1..];
    }
  }

  lemma {:induction false} SplitNothing(a: string, sep: char)
    requires sep !in a
    ensures Split(a, sep) == [a]
  {
    if a != "" {
      SplitNothing(a[1..], sep);
      assert a == [a[0]] + a[1..];
    }
  }

  /** Splitting loses nothing, and no part has a separator. */
  lemma {:induction false} SplitParts(s: string, sep: char)
    ensures Join(Split(s, sep), [sep]) == s
    ensures forall p :: p in Split(s, sep) ==> sep !in p
  {
    if s != "" {
      var rest := Split(s[1..], sep);
      SplitParts(s[1..], sep);
      assert s == [s[0]] + s[1..];
      if s[0] == sep {
        assert ([""] + rest)[1..] == rest;
      } else {
        var parts := [[s[0]] + rest[0]] + rest[1..];
        assert parts[1..] == rest[1..];
        assert Join(parts, [sep]) == [s[0]] + Join(rest, [sep]);
        assert forall p :: p in parts ==> p == [s[0]] + rest[0] || p in rest;
      }
    }
  }

  /** Splitting finds the parts again. */
  lemma {:induction false} SplitOfJoin(parts: seq<string>, sep: char)
    requires parts != [] && forall p :: p in parts ==> sep !in p
    ensures Split(Join(parts, [sep]), sep) == parts
  {
    if |parts| == 1 {
      SplitNothing(parts[0], sep);
    } else {
      SplitOfJoin(parts[1..], sep);
      SplitFirst(parts[0], Join(parts[1..], [sep]), sep);
      assert parts == [parts[0]] + parts[1..];
    }
  }

  /** Every character is a separator or belongs to a part. */
  lemma {:induction false} SplitCovers(s: string, sep: char, i: nat)
    requires i < |s| && s[i] != sep
    ensures exists p :: p in Split(s, sep) && s[i] in p
  {
    var rest := Split(s[1..], sep);
    if i == 0 {
      assert Split(s, sep)[0] == [s[0]] + rest[0];
      assert s[0] in Split(s, sep)[0];
    } else {
      SplitCovers(s[1..], sep, i - 1);
      var k :| 0 <= k < |rest| && s[i] in rest[k];
      if s[0] == sep {
        assert Split(s, sep)[k + 1] == rest[k];
      } else if k == 0 {
        assert s[i] in Split(s, sep)[0];
      } else {
        assert Split(s, sep)[k] == rest[k];
      }
    }
  }

  /** Splits at the first separator. */
  function Cut(s: string, sep: char): (r: Option<(string, string)>)
    ensures r.None? <==> sep !in s
    ensures r.Some? ==> sep !in r.value.0 && s == r.value.0 + [sep] + r.value.1
  {
    if s == "" then None
    else if s[0] == sep then Some(("", s[1..]))
    else
      match Cut(s[1..], sep)
      case None => None
      case Some((a, b)) => Some(([s[0]] + a, b))
  }

  lemma {:induction false} CutAt(a: string, rest: string, sep: char)
    requires sep !in a
    ensures Cut(a + [sep] + rest, sep) == Some((a, rest))
  {
    var s := a + [sep] + rest;
    if a == "" {
      assert s[1..] == rest;
    } else {
      CutAt(a[1..], rest, sep);
      assert s[1..] == a[1..] + [sep] + rest;
      assert a == [a[0]] + a[1..];
    }
  }

  /** The part before the first occurrence of c, or everything. */
  function Before(s: string, c: char): (r: string)
    ensures r <= s && c !in r && (r == s || s[|r|] == c)
  {
    if s == "" || s[0] == c then "" else [s[0]] + Before(s[1..], c)
  }

  lemma {:induction false} CutBefore(s: string, c: char)
    ensures Cut(s, c) == if |Before(s, c)| < |s| then Some((Before(s, c), s[|Before(s, c)| + 1..])) else None
  {
    if s != "" && s[0] != c { CutBefore(s[1..], c); }
  }

  lemma {:induction false} BeforeNothing(s: string, c: char)
    requires c !in s
    ensures Before(s, c) == s
  {
    if s != "" {
      BeforeNothing(s[1..], c);
      assert s == [s[0]] + s[1..];
    }
  }

  // ---------------------------------------------------------------- numbers

  predicate IsDecimal(c: char) {
    '0' <= c <= '9'
  }

  function Digit(d: nat): (c: char)
    requires d < 10
    ensures IsDecimal(c)
  {
    ('0' as int + d) as char
  }

  /** %d of a non-negative number. */
  function Itoa(n: nat): (s: string)
    ensures s != ""
    ensures forall i :: 0 <= i < |s| ==> IsDecimal(s[i])
  {
    if n < 10 then [Digit(n)] else Itoa(n / 10) + [Digit(n % 10)]
  }

  function DigitValue(c: char): (d: nat)
    requires IsDecimal(c)
    ensures d < 10
  {
    (c as int) - ('0' as int)
  }

  function Decimal(s: string): nat
    requires forall i :: 0 <= i < |s| ==> IsDecimal(s[i])
  {
    if s == "" then 0 else 10 * Decimal(s[..|s| - 1]) + DigitValue(s[|s| - 1])
  }

  lemma {:induction false} DecimalOfItoa(n: nat)
    ensures Decimal(Itoa(n)) == n
  {
    if n >= 10 {
      DecimalOfItoa(n / 10);
      assert Itoa(n)[..|Itoa(n)| - 1] == Itoa(n / 10);
    } else {
      assert Itoa(n)[..0] == "";
    }
  }

  predicate AreDigits(s: string) {
    s != "" && forall i :: 0 <= i < |s| ==> IsDecimal(s[i])
  }

  const MAX_INT: nat := 0x7fff_ffff_ffff_ffff

  /** strconv.Atoi for 64-bit integers. */
  function Atoi(s: string): Option<int> {
    var negative := s != "" && s[0] == '-';
    var digits := if s != "" && (s[0] == '-' || s[0] == '+') then s[1..] else s;
    if !AreDigits(digits) then None
    else
      var n: int := Decimal(digits);
      if negative then (if n <= MAX_INT + 1 then Some(-n) else None)
      else if n <= MAX_INT then Some(n) else None
  }

  /** Digits with or without a sign. */
  predicate Denotes(s: string, n: int) {
    || (AreDigits(s) && Decimal(s) == n)
    || (s != "" && s[0] == '+' && AreDigits(s[1..]) && Decimal(s[1..]) == n)
    || (s != "" && s[0] == '-' && AreDigits(s[1..]) && 0 - Decimal(s[1..]) == n)
  }

  /** Exactly the denoted 64-bit integers are read. */
  lemma AtoiMeaning(s: string, n: int)
    ensures Atoi(s) == Some(n) <==> Denotes(s, n) && -0x8000_0000_0000_0000 <= n <= 0x7fff_ffff_ffff_ffff
  {
    if s != "" && (s[0] == '+' || s[0] == '-') {
      assert !IsDecimal(s[0]);
    }
  }

  /** strconv.ParseBool */
  function ParseBool(s: string): Option<bool> {
    if s in {"1", "t", "T", "TRUE", "true", "True"} then Some(true)
    else if s in {"0", "f", "F", "FALSE", "false", "False"} then Some(false)
    else None
  }

  lemma BoolTexts()
    ensures ParseBool("true") == Some(true) && ParseBool("false") == Some(false)
  {
    assert "false" !in {"1", "t", "T", "TRUE", "true", "True"};
  }

  /** Length in bytes of the UTF-8 encoding. */
  function ByteLength(s: string): nat {
    if s == "" then 0
    else
      var c := s[0] as int;
      (if c < 0x80 then 1 else if c < 0x800 then 2 else if c < 0x1_0000 then 3 else 4) + ByteLength(s[1..])
  }

  /** Every character adds the bytes that it takes by itself (section 3 of RFC 3629). */
  lemma {:induction false} ByteLengthAdds(a: string, b: string)
    ensures ByteLength(a + b) == ByteLength(a) + ByteLength(b)
    ensures |a| == 1 ==>
      var c := a[0] as int;
      && (ByteLength(a) == 1 <==> c <= 0x7f) && (ByteLength(a) == 2 <==> 0x80 <= c <= 0x7ff)
      && (ByteLength(a) == 3 <==> 0x800 <= c <= 0xffff) && (ByteLength(a) == 4 <==> 0x1_0000 <= c)
  {
    if a == "" {
      assert a + b == b;
    } else {
      ByteLengthAdds(a[1..], b);
      assert (a + b)[1..] == a[1..] + b;
    }
  }
}
