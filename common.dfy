/**
 * Building blocks shared by every screen of the back-office: an optional
 * value (TypeScript's `T | null`), JavaScript's `toLowerCase` and
 * `String.prototype.includes`, `Array.prototype.filter`, the forms' email
 * pattern and the browser's own check of an email field, and the decimal
 * record identifiers `<prefix>-<year>-<nnn>` built with `padStart(3, '0')`.
 */
module Common {

  datatype Option<+T> = None | Some(value: T)

  /** An optional string JavaScript treats as true: present and not empty (`x?.s || fallback` takes `s`). */
  predicate Truthy(s: Option<string>) {
    s.Some? && s.value != ""
  }

  /** The colour variants of the shared badge component. */
  datatype BadgeVariant = Primary | Success | Warning | Error | Dark

  /** No two positions of `s` hold the same value. */
  ghost predicate Distinct<T>(s: seq<T>) {
    forall i, j :: 0 <= i < j < |s| ==> s[i] != s[j]
  }

  // ---------------------------------------------------------------------
  // Case folding
  // ---------------------------------------------------------------------

  /** `toLowerCase` on one character: ASCII and Latin-1 capitals. */
  function LowerChar(c: char): char {
    if 'A' <= c <= 'Z' then (c as int + 32) as char
    else if 'À' <= c <= 'Þ' && c != '×' then (c as int + 32) as char
    else c
  }

  function Lower(s: string): (r: string)
    ensures |r| == |s|
    ensures forall i :: 0 <= i < |s| ==> r[i] == LowerChar(s[i])
  {
    seq(|s|, i requires 0 <= i < |s| => LowerChar(s[i]))
  }

  // ---------------------------------------------------------------------
  // Substring search
  // ---------------------------------------------------------------------

  /** `needle` occurs in `hay` starting at position `i`. */
  ghost predicate OccursAt(hay: string, needle: string, i: int) {
    0 <= i && i + |needle| <= |hay| && hay[i..i + |needle|] == needle
  }

  /** `hay.includes(needle)`: true iff `needle` occurs somewhere in `hay`. */
  function Includes(hay: string, needle: string): (r: bool)
    ensures r <==> exists i :: OccursAt(hay, needle, i)
    decreases |hay|
  {
    if |needle| <= |hay| && hay[..|needle|] == needle then
      assert OccursAt(hay, needle, 0);
      true
    else if hay == [] then
      false
    else
      var rest := Includes(hay[1..], needle);
      assert forall i :: OccursAt(hay[1..], needle, i) <==> OccursAt(hay, needle, i + 1) by {
        forall i ensures OccursAt(hay[1..], needle, i) <==> OccursAt(hay, needle, i + 1) {
          if 0 <= i && i + |needle| <= |hay[1..]| {
            assert hay[1..][i..i + |needle|] == hay[i + 1..i + 1 + |needle|];
          }
        }
      }
      assert rest ==> exists i :: OccursAt(hay, needle, i) by {
        if rest {
          var i :| OccursAt(hay[1..], needle, i);
          assert OccursAt(hay, needle, i + 1);
        }
      }
      assert (exists i :: OccursAt(hay, needle, i)) ==> rest by {
        if exists i :: OccursAt(hay, needle, i) {
          var i :| OccursAt(hay, needle, i);
          assert i != 0;
          assert OccursAt(hay[1..], needle, i - 1);
        }
      }
      rest
  }

  /** The empty search term occurs in every string. */
  lemma IncludesEmpty(hay: string)
    ensures Includes(hay, "")
  {
    assert OccursAt(hay, "", 0);
  }

  /** A case-insensitive search for the empty term matches every field. */
  lemma IncludesLowerEmpty(hay: string)
    ensures Includes(Lower(hay), Lower(""))
  {
    assert Lower("") == "";
    IncludesEmpty(Lower(hay));
  }

  // ---------------------------------------------------------------------
  // The email rule of the forms: /^\S+@\S+$/
  // ---------------------------------------------------------------------

  /** JavaScript's `\s`: the characters `\S` does not match. */
  predicate IsWhitespace(c: char) {
    || c == ' ' || c == '\t' || c == '\n' || c == '\r'
    || c == '\U{000B}' || c == '\U{000C}' || c == '\U{00A0}' || c == '\U{1680}'
    || ('\U{2000}' <= c <= '\U{200A}')
    || c == '\U{2028}' || c == '\U{2029}' || c == '\U{202F}' || c == '\U{205F}'
    || c == '\U{3000}' || c == '\U{FEFF}'
  }

  predicate NoWhitespace(s: string) {
    forall i :: 0 <= i < |s| ==> !IsWhitespace(s[i])
  }

  /**
   * `s` matches `^\S+@\S+$`: it has no whitespace and splits as
   * `local + "@" + domain` with both parts non-empty. `\S` also matches
   * `@`, so any `@` other than the first and last character will do.
   */
  predicate MatchesEmailPattern(s: string) {
    NoWhitespace(s) && exists i :: 0 < i < |s| - 1 && s[i] == '@'
  }

  /** The pattern accepts exactly the strings that split around an inner `@` into two non-empty, blank-free parts. */
  lemma EmailPatternSplits(s: string)
    ensures MatchesEmailPattern(s) <==>
              exists i :: 0 < i < |s| - 1 && s[i] == '@' && NoWhitespace(s[..i]) && NoWhitespace(s[i + 1..])
  {
    if exists i :: 0 < i < |s| - 1 && s[i] == '@' && NoWhitespace(s[..i]) && NoWhitespace(s[i + 1..]) {
      var i :| 0 < i < |s| - 1 && s[i] == '@' && NoWhitespace(s[..i]) && NoWhitespace(s[i + 1..]);
      forall j | 0 <= j < |s| ensures !IsWhitespace(s[j]) {
        if j < i {
          assert s[j] == s[..i][j];
        } else if j > i {
          assert s[j] == s[i + 1..][j - i - 1];
        }
      }
    }
  }

  /** What the pattern accepts and rejects, on a few telling inputs. */
  lemma EmailPatternExamples()
    ensures MatchesEmailPattern("admin@clickcelulares.com")
    ensures MatchesEmailPattern("a@b@c")
    ensures !MatchesEmailPattern("@clickcelulares.com")
    ensures !MatchesEmailPattern("admin@")
    ensures !MatchesEmailPattern("ana silva@email.com")
    ensures !MatchesEmailPattern("a@")
  {
    assert "admin@clickcelulares.com"[5] == '@';
    assert "a@b@c"[1] == '@';
    assert "ana silva@email.com"[3] == ' ';
  }

  // ---------------------------------------------------------------------
  // The browser's own check of an <input type="email">: the "valid e-mail
  // address" of the HTML Living Standard, section 4.10.5.1.5
  // ---------------------------------------------------------------------

  predicate IsAsciiAlnum(c: char) {
    'a' <= c <= 'z' || 'A' <= c <= 'Z' || '0' <= c <= '9'
  }

  /** A character the local part may hold: letters, digits and ``.!#$%&'*+/=?^_`{|}~-``. */
  predicate IsLocalChar(c: char) {
    IsAsciiAlnum(c) || c in {'.', '!', '#', '$', '%', '&', '\'', '*', '+', '/', '=', '?', '^', '_', '`', '{', '|', '}', '~', '-'}
  }

  /** A domain label: 1 to 63 letters, digits or hyphens, starting and ending with a letter or digit. */
  predicate IsDomainLabel(s: string) {
    && 1 <= |s| <= 63
    && (forall i :: 0 <= i < |s| ==> IsAsciiAlnum(s[i]) || s[i] == '-')
    && s[0] != '-' && s[|s| - 1] != '-'
  }

  /** The position of the first `c` in `s`. */
  function FirstIndexOf(s: string, c: char): (i: nat)
    requires c in s
    ensures i < |s| && s[i] == c && c !in s[..i]
  {
    if s[0] == c then 0
    else
      assert c in s[1..] by {
        var k :| 0 <= k < |s| && s[k] == c;
        assert s[1..][k - 1] == c;
      }
      var i := FirstIndexOf(s[1..], c);
      assert s[..i + 1] == [s[0]] + s[1..][..i];
      i + 1
  }

  /** One or more domain labels joined by single dots. */
  predicate IsDomain(s: string)
    decreases |s|
  {
    if '.' in s then
      var i := FirstIndexOf(s, '.');
      IsDomainLabel(s[..i]) && IsDomain(s[i + 1..])
    else
      IsDomainLabel(s)
  }

  /**
   * A valid e-mail address in the sense of HTML: a non-empty local part of
   * `IsLocalChar`s, one `@`, then a domain.
   */
  predicate IsValidEmailAddress(s: string) {
    '@' in s &&
    var i := FirstIndexOf(s, '@');
    0 < i && (forall j :: 0 <= j < i ==> IsLocalChar(s[j])) && IsDomain(s[i + 1..])
  }

  /** What `<input type="email">` lets through to the form's submit handler: an empty value, or a valid address. */
  predicate EmailInputAccepts(s: string) {
    s == "" || IsValidEmailAddress(s)
  }

  /** A letter, digit, hyphen or dot: what a domain is made of. */
  predicate IsDomainChar(c: char) {
    IsAsciiAlnum(c) || c == '-' || c == '.'
  }

  /** Every character an address may hold is printable ASCII. */
  lemma AddressCharPrintable(c: char)
    requires IsLocalChar(c) || IsDomainChar(c) || c == '@'
    ensures '!' <= c <= '~'
  {
  }

  /** No character of an address is blank. */
  lemma AddressCharNotBlank(c: char)
    requires IsLocalChar(c) || IsDomainChar(c) || c == '@'
    ensures !IsWhitespace(c)
  {
    AddressCharPrintable(c);
  }

  /** A domain is non-empty and holds only letters, digits, hyphens and dots. */
  lemma {:induction false} DomainChars(s: string)
    requires IsDomain(s)
    ensures s != []
    ensures forall k :: 0 <= k < |s| ==> IsDomainChar(s[k])
    decreases |s|
  {
    if '.' in s {
      var i := FirstIndexOf(s, '.');
      DomainChars(s[i + 1..]);
      forall k | 0 <= k < |s| ensures IsDomainChar(s[k]) {
        if k < i {
          assert s[k] == s[..i][k];
        } else if k > i {
          assert s[k] == s[i + 1..][k - i - 1];
        }
      }
    }
  }

  /** The browser's rule is the stricter one: every valid address also matches `^\S+@\S+$`. */
  lemma ValidEmailMatchesPattern(s: string)
    requires IsValidEmailAddress(s)
    ensures MatchesEmailPattern(s)
  {
    var i := FirstIndexOf(s, '@');
    DomainChars(s[i + 1..]);
    forall k | 0 <= k < |s| ensures !IsWhitespace(s[k]) {
      if k > i {
        assert s[k] == s[i + 1..][k - i - 1];
      }
      AddressCharNotBlank(s[k]);
    }
  }

  /**
   * A required email field with the pattern rule, behind `type="email"`,
   * accepts exactly the valid e-mail addresses.
   */
  lemma EmailFieldRule(s: string)
    ensures (EmailInputAccepts(s) && MatchesEmailPattern(s)) <==> IsValidEmailAddress(s)
  {
    if IsValidEmailAddress(s) {
      ValidEmailMatchesPattern(s);
    }
  }

  /** The first `c` of `a + [c] + b` is the one after `a` when `a` has none. */
  lemma FirstIndexAfter(a: string, c: char, b: string)
    requires c !in a
    ensures c in a + [c] + b && FirstIndexOf(a + [c] + b, c) == |a|
  {
    var s := a + [c] + b;
    assert s[|a|] == c;
  }

  /** A label, a dot and a domain make a domain. */
  lemma DomainCons(first: string, rest: string)
    requires IsDomainLabel(first) && IsDomain(rest)
    ensures IsDomain(first + ['.'] + rest)
  {
    var d := first + ['.'] + rest;
    FirstIndexAfter(first, '.', rest);
    assert d[..|first|] == first;
    assert d[|first| + 1..] == rest;
  }

  /** A non-empty local part, an `@` and a domain make a valid address. */
  lemma ValidEmailCons(local: string, domain: string)
    requires local != [] && forall j :: 0 <= j < |local| ==> IsLocalChar(local[j])
    requires IsDomain(domain)
    ensures IsValidEmailAddress(local + ['@'] + domain)
  {
    var s := local + ['@'] + domain;
    FirstIndexAfter(local, '@', domain);
    assert s[..|local|] == local;
    assert s[|local| + 1..] == domain;
  }

  /** The address splits at its first `@` into `local` and `rest`. */
  lemma SplitAtFirst(local: string, rest: string)
    requires '@' !in local
    ensures IsValidEmailAddress(local + ['@'] + rest) <==>
              local != [] && (forall j :: 0 <= j < |local| ==> IsLocalChar(local[j])) && IsDomain(rest)
  {
    var s := local + ['@'] + rest;
    FirstIndexAfter(local, '@', rest);
    assert s[..|local|] == local;
    assert s[|local| + 1..] == rest;
  }

  /** The shop's own address is valid. */
  lemma ShopEmailValid()
    ensures IsValidEmailAddress("admin" + "@" + ("clickcelulares" + "." + "com"))
  {
    ShopDomainValid();
    AdminLocalPart();
    ValidEmailCons("admin", "clickcelulares" + "." + "com");
  }

  lemma AdminLocalPart()
    ensures forall j :: 0 <= j < |"admin"| ==> IsLocalChar("admin"[j])
  {
  }

  lemma ShopDomainValid()
    ensures IsDomain("clickcelulares" + "." + "com")
  {
    assert IsDomainLabel("clickcelulares");
    assert IsDomain("com");
    DomainCons("clickcelulares", "com");
  }

  /** A domain needs no dot: `a@b` is valid. */
  lemma DotlessDomainValid()
    ensures IsValidEmailAddress("a" + "@" + "b")
  {
    assert IsDomain("b");
    ValidEmailCons("a", "b");
  }

  /** A domain starts with a letter or a digit, never with a hyphen or a dot. */
  lemma DomainStart(s: string)
    requires IsDomain(s)
    ensures s != [] && IsAsciiAlnum(s[0])
  {
    if '.' in s {
      var i := FirstIndexOf(s, '.');
      assert s[0] == s[..i][0];
    }
  }

  /** A domain holds no `@`. */
  lemma AtNotInDomain(s: string)
    requires '@' in s
    ensures !IsDomain(s)
  {
    if IsDomain(s) {
      DomainChars(s);
    }
  }

  /** A second `@` is refused, although `^\S+@\S+$` accepts it. */
  lemma SecondAtRefused()
    ensures !IsValidEmailAddress("a" + "@" + "b@c")
  {
    SplitAtFirst("a", "b@c");
    assert "b@c"[1] == '@';
    AtNotInDomain("b@c");
  }

  /** An empty label, two dots in a row, is refused. */
  lemma EmptyLabelRefused()
    ensures !IsValidEmailAddress("a" + "@" + "b..c")
  {
    SplitAtFirst("a", "b..c");
    assert "b..c" == "b" + ['.'] + ".c";
    FirstIndexAfter("b", '.', ".c");
    if IsDomain(".c") {
      DomainStart(".c");
    }
  }

  /** A label may not start with a hyphen. */
  lemma HyphenLabelRefused()
    ensures !IsValidEmailAddress("a" + "@" + "-b.com")
  {
    SplitAtFirst("a", "-b.com");
    if IsDomain("-b.com") {
      DomainStart("-b.com");
    }
  }

  /** The local part may not be empty. */
  lemma EmptyLocalRefused()
    ensures !IsValidEmailAddress("" + "@" + "b.com")
  {
    SplitAtFirst("", "b.com");
  }

  // ---------------------------------------------------------------------
  // Filtering
  // ---------------------------------------------------------------------

  /** `s.filter(p)`: the elements satisfying `p`, in their original order. */
  function Filter<T>(s: seq<T>, p: T -> bool): (r: seq<T>)
    ensures |r| <= |s|
    ensures forall i :: 0 <= i < |r| ==> r[i] in s && p(r[i])
    ensures forall i :: 0 <= i < |s| && p(s[i]) ==> s[i] in r
  {
    if s == [] then [] else (if p(s[0]) then [s[0]] else []) + Filter(s[1..], p)
  }

  /** `s.find(p)`: the first element satisfying `p`, if there is one. */
  function Find<T>(s: seq<T>, p: T -> bool): (r: Option<T>)
    ensures r.None? <==> forall i :: 0 <= i < |s| ==> !p(s[i])
    ensures r.Some? ==> exists i :: 0 <= i < |s| && s[i] == r.value && FirstMatch(s, p, i)
  {
    if s == [] then None
    else if p(s[0]) then
      assert FirstMatch(s, p, 0);
      Some(s[0])
    else
      var r := Find(s[1..], p);
      assert r.Some? ==> exists i :: 0 <= i < |s| && s[i] == r.value && FirstMatch(s, p, i) by {
        if r.Some? {
          var i :| 0 <= i < |s[1..]| && s[1..][i] == r.value && FirstMatch(s[1..], p, i);
          assert FirstMatch(s, p, i + 1);
        }
      }
      r
  }

  /** Position `i` holds the first element of `s` satisfying `p`. */
  ghost predicate FirstMatch<T>(s: seq<T>, p: T -> bool, i: int) {
    0 <= i < |s| && p(s[i]) && forall j :: 0 <= j < i ==> !p(s[j])
  }

  /** One step of `Filter`. */
  lemma FilterUnfold<T>(s: seq<T>, p: T -> bool)
    requires s != []
    ensures Filter(s, p) == (if p(s[0]) then [s[0]] else []) + Filter(s[1..], p)
  {
  }

  /** Filtering distributes over concatenation, so it keeps relative order. */
  lemma {:induction false} FilterAppend<T>(a: seq<T>, b: seq<T>, p: T -> bool)
    ensures Filter(a + b, p) == Filter(a, p) + Filter(b, p)
  {
    if a == [] {
      assert a + b == b;
    } else {
      assert (a + b)[1..] == a[1..] + b;
      FilterAppend(a[1..], b, p);
    }
  }

  /** When every element satisfies `p`, filtering returns the list unchanged. */
  lemma {:induction false} FilterKeepsAll<T>(s: seq<T>, p: T -> bool)
    requires forall i :: 0 <= i < |s| ==> p(s[i])
    ensures Filter(s, p) == s
  {
    if s != [] {
      FilterKeepsAll(s[1..], p);
    }
  }

  /** Filtering a list with distinct elements keeps them distinct. */
  lemma {:induction false} FilterDistinct<T>(s: seq<T>, p: T -> bool)
    requires Distinct(s)
    ensures Distinct(Filter(s, p))
  {
    if s != [] {
      FilterDistinct(s[1..], p);
      var r := Filter(s, p);
      if p(s[0]) {
        assert s[0] !in s[1..];
        assert s[0] !in Filter(s[1..], p);
        assert r == [s[0]] + Filter(s[1..], p);
      }
    }
  }

  /** Prefix of at most `n` elements: `s.slice(0, n)`. */
  function Take<T>(s: seq<T>, n: nat): (r: seq<T>)
    ensures |r| == if n < |s| then n else |s|
    ensures forall i :: 0 <= i < |r| ==> r[i] == s[i]
  {
    if n < |s| then s[..n] else s
  }

  // ---------------------------------------------------------------------
  // Decimal numbers and record identifiers
  // ---------------------------------------------------------------------

  predicate IsDigit(c: char) {
    '0' <= c <= '9'
  }

  predicate AllDigits(s: string) {
    forall i :: 0 <= i < |s| ==> IsDigit(s[i])
  }

  function DigitChar(d: nat): (c: char)
    requires d < 10
    ensures IsDigit(c) && c as int - '0' as int == d
  {
    ('0' as int + d) as char
  }

  /** `String(n)` for a natural number: its decimal digits, most significant first. */
  function NatToString(n: nat): string {
    if n < 10 then [DigitChar(n)] else NatToString(n / 10) + [DigitChar(n % 10)]
  }

  /** `String(n)` is a non-empty run of decimal digits. */
  lemma {:induction false} NatToStringDigits(n: nat)
    ensures |NatToString(n)| >= 1 && AllDigits(NatToString(n))
  {
    if n >= 10 {
      NatToStringDigits(n / 10);
    }
  }

  /** Reads a string of decimal digits back as a number. */
  function ParseDecimal(s: string): int {
    if s == [] then 0
    else ParseDecimal(s[..|s| - 1]) * 10 + (s[|s| - 1] as int - '0' as int)
  }

  lemma {:induction false} ParseNatToString(n: nat)
    ensures ParseDecimal(NatToString(n)) == n
  {
    if n >= 10 {
      var s := NatToString(n);
      assert s[..|s| - 1] == NatToString(n / 10);
      ParseNatToString(n / 10);
    }
  }

  function Zeros(k: nat): (r: string)
    ensures |r| == k && AllDigits(r)
  {
    if k == 0 then [] else ['0'] + Zeros(k - 1)
  }

  /** Leading zeros do not change the value of a decimal string. */
  lemma {:induction false} ParseLeadingZeros(k: nat, s: string)
    requires AllDigits(s)
    ensures ParseDecimal(Zeros(k) + s) == ParseDecimal(s)
  {
    if s == [] {
      assert Zeros(k) + s == Zeros(k);
      ParseZeros(k);
    } else {
      var t := Zeros(k) + s;
      assert t[..|t| - 1] == Zeros(k) + s[..|s| - 1];
      ParseLeadingZeros(k, s[..|s| - 1]);
    }
  }

  lemma {:induction false} ParseZeros(k: nat)
    ensures ParseDecimal(Zeros(k)) == 0
  {
    if k > 0 {
      assert Zeros(k)[..k - 1] == Zeros(k - 1) by {
        ZerosAll(k);
        ZerosAll(k - 1);
      }
      ParseZeros(k - 1);
      ZerosAll(k);
    }
  }

  lemma {:induction false} ZerosAll(k: nat)
    ensures forall i :: 0 <= i < k ==> Zeros(k)[i] == '0'
  {
    if k > 0 {
      ZerosAll(k - 1);
    }
  }

  /** `String(n).padStart(3, '0')`. */
  function Pad3(n: nat): string {
    var s := NatToString(n);
    if |s| >= 3 then s else Zeros(3 - |s|) + s
  }

  /** `padStart(3, '0')` gives at least three digits, exactly three below 1000, and reads back as `n`. */
  lemma Pad3Digits(n: nat)
    ensures |Pad3(n)| >= 3 && AllDigits(Pad3(n))
    ensures n < 1000 ==> |Pad3(n)| == 3
    ensures ParseDecimal(Pad3(n)) == n
  {
    Pad3Length(n);
    Pad3AllDigits(n);
    Pad3Parses(n);
  }

  lemma Pad3Length(n: nat)
    ensures |Pad3(n)| >= 3
    ensures n < 1000 ==> |Pad3(n)| == 3
  {
    NatToStringShort(n);
  }

  lemma Pad3AllDigits(n: nat)
    ensures AllDigits(Pad3(n))
  {
    var s := NatToString(n);
    NatToStringDigits(n);
    if |s| < 3 {
      DigitsConcat(Zeros(3 - |s|), s);
    }
  }

  lemma Pad3Parses(n: nat)
    ensures ParseDecimal(Pad3(n)) == n
  {
    var s := NatToString(n);
    NatToStringDigits(n);
    ParseNatToString(n);
    if |s| < 3 {
      assert Pad3(n) == Zeros(3 - |s|) + s;
      ParseLeadingZeros(3 - |s|, s);
    } else {
      assert Pad3(n) == s;
    }
  }

  lemma DigitsConcat(a: string, b: string)
    requires AllDigits(a) && AllDigits(b)
    ensures AllDigits(a + b)
  {
    forall i | 0 <= i < |a + b| ensures IsDigit((a + b)[i]) {
      if i >= |a| {
        assert (a + b)[i] == b[i - |a|];
      }
    }
  }

  lemma {:induction false} NatToStringShort(n: nat)
    ensures n < 1000 ==> |NatToString(n)| <= 3
    ensures n < 100 ==> |NatToString(n)| <= 2
    ensures n < 10 ==> |NatToString(n)| == 1
  {
    if n >= 10 {
      NatToStringShort(n / 10);
    }
  }

  /**
   * The identifier the screens assign to a new record:
   * `${prefix}-${year}-${String(k).padStart(3, '0')}`.
   */
  function RecordId(prefix: string, year: nat, k: nat): string {
    prefix + "-" + NatToString(year) + "-" + Pad3(k)
  }

  /** Cutting two strings at the first occurrence of the same separator. */
  lemma SplitAtSeparator(a: string, b: string, a': string, b': string, c: char)
    requires c !in a && c !in a'
    requires a + [c] + b == a' + [c] + b'
    ensures a == a' && b == b'
  {
    var s := a + [c] + b;
    assert s[|a|] == c && s[|a'|] == c;
    assert forall i :: 0 <= i < |a| ==> s[i] == a[i] != c;
    assert forall i :: 0 <= i < |a'| ==> s[i] == a'[i] != c;
    assert a == s[..|a|] == a';
    assert b == s[|a| + 1..] == b';
  }

  /** Distinct (year, number) pairs give distinct record identifiers. */
  lemma RecordIdInjective(prefix: string, y1: nat, k1: nat, y2: nat, k2: nat)
    requires '-' !in prefix
    requires RecordId(prefix, y1, k1) == RecordId(prefix, y2, k2)
    ensures y1 == y2 && k1 == k2
  {
    var s1, s2 := NatToString(y1), NatToString(y2);
    var p1, p2 := Pad3(k1), Pad3(k2);
    NatToStringDigits(y1);
    NatToStringDigits(y2);
    Pad3Digits(k1);
    Pad3Digits(k2);
    assert '-' !in s1 && '-' !in s2 by {
      assert forall i :: 0 <= i < |s1| ==> s1[i] != '-';
      assert forall i :: 0 <= i < |s2| ==> s2[i] != '-';
    }
    assert prefix + ['-'] + (s1 + "-" + p1) == RecordId(prefix, y1, k1);
    assert prefix + ['-'] + (s2 + "-" + p2) == RecordId(prefix, y2, k2);
    SplitAtSeparator(prefix, s1 + "-" + p1, prefix, s2 + "-" + p2, '-');
    assert s1 + ['-'] + p1 == s2 + ['-'] + p2;
    SplitAtSeparator(s1, p1, s2, p2, '-');
    ParseNatToString(y1);
    ParseNatToString(y2);
  }

  /** `id` is `prefix-<some year>-<k>` for some 1 <= k <= n. */
  ghost predicate NumberedWithin(prefix: string, id: string, n: nat) {
    exists y: nat, k: nat :: 1 <= k <= n && id == RecordId(prefix, y, k)
  }

  /**
   * The identifier discipline of a list that only ever grows by prepending
   * `RecordId(prefix, year, |list| + 1)`: identifiers are distinct and each
   * carries a number no larger than the list's length.
   */
  ghost predicate NumberedIds(prefix: string, ids: seq<string>) {
    && Distinct(ids)
    && forall i :: 0 <= i < |ids| ==> NumberedWithin(prefix, ids[i], |ids|)
  }

  /**
   * The next identifier is fresh, and prepending it keeps the discipline,
   * whatever year the clock reports.
   */
  lemma FreshRecordId(prefix: string, ids: seq<string>, year: nat)
    requires '-' !in prefix
    requires NumberedIds(prefix, ids)
    ensures RecordId(prefix, year, |ids| + 1) !in ids
    ensures NumberedIds(prefix, [RecordId(prefix, year, |ids| + 1)] + ids)
  {
    var next := RecordId(prefix, year, |ids| + 1);
    NextRecordIdFresh(prefix, ids, year);
    assert NumberedWithin(prefix, next, |ids| + 1);
    PrependFreshNumbered(prefix, ids, next);
  }

  /** No identifier of the list carries the number after its length. */
  lemma NextRecordIdFresh(prefix: string, ids: seq<string>, year: nat)
    requires '-' !in prefix
    requires NumberedIds(prefix, ids)
    ensures RecordId(prefix, year, |ids| + 1) !in ids
  {
    var next := RecordId(prefix, year, |ids| + 1);
    if next in ids {
      var i :| 0 <= i < |ids| && ids[i] == next;
      var y: nat, k: nat :| 1 <= k <= |ids| && ids[i] == RecordId(prefix, y, k);
      RecordIdInjective(prefix, y, k, year, |ids| + 1);
      assert false;
    }
  }

  lemma NumberedWithinWider(prefix: string, id: string, n: nat, m: nat)
    requires NumberedWithin(prefix, id, n) && n <= m
    ensures NumberedWithin(prefix, id, m)
  {
    var y: nat, k: nat :| 1 <= k <= n && id == RecordId(prefix, y, k);
    assert 1 <= k <= m;
  }

  /** Prepending a fresh identifier numbered within the new length keeps the discipline. */
  lemma PrependFreshNumbered(prefix: string, ids: seq<string>, next: string)
    requires NumberedIds(prefix, ids)
    requires next !in ids && NumberedWithin(prefix, next, |ids| + 1)
    ensures NumberedIds(prefix, [next] + ids)
  {
    PrependWithin(prefix, ids, next);
    PrependDistinct(ids, next);
  }

  lemma PrependWithin(prefix: string, ids: seq<string>, next: string)
    requires forall i :: 0 <= i < |ids| ==> NumberedWithin(prefix, ids[i], |ids|)
    requires NumberedWithin(prefix, next, |ids| + 1)
    ensures forall i :: 0 <= i < |ids| + 1 ==> NumberedWithin(prefix, ([next] + ids)[i], |ids| + 1)
  {
    var ids' := [next] + ids;
    forall i | 0 <= i < |ids'|
      ensures NumberedWithin(prefix, ids'[i], |ids'|)
    {
      if i == 0 {
        HeadWithin(prefix, ids, next);
      } else {
        TailWithin(prefix, ids, next, i);
      }
    }
  }

  lemma HeadWithin(prefix: string, ids: seq<string>, next: string)
    requires NumberedWithin(prefix, next, |ids| + 1)
    ensures NumberedWithin(prefix, ([next] + ids)[0], |ids| + 1)
  {
    assert ([next] + ids)[0] == next;
  }

  lemma TailWithin(prefix: string, ids: seq<string>, next: string, i: int)
    requires 0 < i <= |ids| && NumberedWithin(prefix, ids[i - 1], |ids|)
    ensures NumberedWithin(prefix, ([next] + ids)[i], |ids| + 1)
  {
    var x := ids[i - 1];
    assert ([next] + ids)[i] == x;
    NumberedWithinWider(prefix, x, |ids|, |ids| + 1);
  }

  lemma PrependDistinct<T>(s: seq<T>, x: T)
    requires Distinct(s) && x !in s
    ensures Distinct([x] + s)
  {
    var s' := [x] + s;
    forall i, j | 0 <= i < j < |s'|
      ensures s'[i] != s'[j]
    {
      assert s'[j] == s[j - 1];
      if i > 0 {
        assert s'[i] == s[i - 1];
      }
    }
  }

  /** The digits the seed records use: the year 2023 and the numbers 1 to 5. */
  lemma SeedNumbering()
    ensures NatToString(2023) == "2023"
    ensures Pad3(1) == "001" && Pad3(2) == "002" && Pad3(3) == "003"
    ensures Pad3(4) == "004" && Pad3(5) == "005"
  {
    SeedYearDigits();
    SeedPads();
  }

  lemma SeedYearDigits()
    ensures NatToString(2023) == "2023"
  {
    assert NatToString(2) == "2";
    assert NatToString(20) == "20";
    assert NatToString(202) == "202";
  }

  lemma SeedPads()
    ensures Pad3(1) == "001" && Pad3(2) == "002" && Pad3(3) == "003"
    ensures Pad3(4) == "004" && Pad3(5) == "005"
  {
    assert Zeros(2) == "00";
  }

  /** The identifiers numbered 1 to 5 of 2023, spelled out. */
  lemma SeedRecordIds(prefix: string)
    ensures RecordId(prefix, 2023, 1) == prefix + "-2023-001"
    ensures RecordId(prefix, 2023, 2) == prefix + "-2023-002"
    ensures RecordId(prefix, 2023, 3) == prefix + "-2023-003"
    ensures RecordId(prefix, 2023, 4) == prefix + "-2023-004"
    ensures RecordId(prefix, 2023, 5) == prefix + "-2023-005"
  {
    SeedNumbering();
  }

  /** The ids `prefix-year-001` up to `prefix-year-n`, newest last. */
  function YearRun(prefix: string, year: nat, n: nat): (r: seq<string>)
    ensures |r| == n
    ensures forall i :: 0 <= i < n ==> r[i] == RecordId(prefix, year, i + 1)
  {
    seq(n, i requires 0 <= i < n => RecordId(prefix, year, i + 1))
  }

  /** The first five identifiers of 2023, spelled out. */
  lemma SeedYearRun(prefix: string)
    ensures YearRun(prefix, 2023, 5) ==
              [prefix + "-2023-001", prefix + "-2023-002", prefix + "-2023-003", prefix + "-2023-004", prefix + "-2023-005"]
  {
    SeedRecordIds(prefix);
  }

  /** A run of consecutively numbered ids of one year keeps the id discipline. */
  lemma YearRunNumbered(prefix: string, year: nat, n: nat)
    requires '-' !in prefix
    ensures NumberedIds(prefix, YearRun(prefix, year, n))
  {
    var ids := YearRun(prefix, year, n);
    forall i | 0 <= i < n ensures NumberedWithin(prefix, ids[i], n) {
      assert ids[i] == RecordId(prefix, year, i + 1);
    }
    forall i, j | 0 <= i < j < n ensures ids[i] != ids[j] {
      if ids[i] == ids[j] {
        RecordIdInjective(prefix, year, i + 1, year, j + 1);
      }
    }
  }
}
