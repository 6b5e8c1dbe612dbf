/**
 * String helpers of the service: Python's `str.strip()`, `sanitize_input`,
 * the one-character mappings of `str.upper()` that yield ASCII letters, and
 * the email pattern of `is_valid_email`.
 */
module Text {

  // ---------------------------------------------------------------------
  // Whitespace and str.strip()
  // ---------------------------------------------------------------------

  /** The characters for which Python's `str.isspace()` holds; `str.strip()` removes exactly these. */
  predicate IsSpace(c: char) {
    || c == ' '
    || '\t' <= c <= '\r'
    || '\U{1c}' <= c <= '\U{1f}'
    || c == '\U{85}'
    || c == '\U{a0}'
    || c == '\U{1680}'
    || '\U{2000}' <= c <= '\U{200a}'
    || c == '\U{2028}'
    || c == '\U{2029}'
    || c == '\U{202f}'
    || c == '\U{205f}'
    || c == '\U{3000}'
  }

  /** Every character of `s[lo..hi]` is whitespace. */
  ghost predicate AllSpace(s: string, lo: int, hi: int)
    requires 0 <= lo <= hi <= |s|
  {
    forall k :: lo <= k < hi ==> IsSpace(s[k])
  }

  /** Neither the first nor the last character is whitespace. */
  predicate NoEdgeSpace(s: string) {
    s == [] || (!IsSpace(s[0]) && !IsSpace(s[|s| - 1]))
  }

  /** `s.lstrip()`: drops the leading whitespace and nothing else. */
  function TrimStart(s: string): (r: string)
    ensures |r| <= |s| && r == s[|s| - |r|..]
    ensures AllSpace(s, 0, |s| - |r|)
    ensures r == [] || !IsSpace(r[0])
  {
    if s != [] && IsSpace(s[0]) then
      var r := TrimStart(s[1..]);
      assert forall k :: 1 <= k < |s| ==> s[k] == s[1..][k - 1];
      r
    else s
  }

  /** `s.rstrip()`: drops the trailing whitespace and nothing else. */
  function TrimEnd(s: string): (r: string)
    ensures |r| <= |s| && r == s[..|r|]
    ensures AllSpace(s, |r|, |s|)
    ensures r == [] || !IsSpace(r[|r| - 1])
  {
    if s != [] && IsSpace(s[|s| - 1]) then
      var r := TrimEnd(s[..|s| - 1]);
      assert forall k :: 0 <= k < |s| - 1 ==> s[k] == s[..|s| - 1][k];
      r
    else s
  }

  /** `s.strip()`. */
  function Strip(s: string): (r: string)
    ensures NoEdgeSpace(r)
    ensures |r| <= |s|
  {
    TrimEnd(TrimStart(s))
  }

  /**
   * What `s.strip()` cuts: the result is the piece of `s` starting at `i`,
   * and everything before `i` and after the piece is whitespace.
   */
  lemma StripSpec(s: string)
    ensures var i, r := |s| - |TrimStart(s)|, Strip(s);
      && i + |r| <= |s|
      && r == s[i..i + |r|]
      && AllSpace(s, 0, i)
      && AllSpace(s, i + |r|, |s|)
  {
    var t := TrimStart(s);
    var r := TrimEnd(t);
    var i := |s| - |t|;
    PrefixOfSuffix(s, i, t, r);
    AllSpaceOfSuffix(s, i, t, |r|);
  }

  /** A prefix of the suffix `s[i..]` is the slice of `s` starting at `i`. */
  lemma PrefixOfSuffix<T>(s: seq<T>, i: nat, t: seq<T>, r: seq<T>)
    requires i <= |s| && t == s[i..]
    requires |r| <= |t| && r == t[..|r|]
    ensures r == s[i..i + |r|]
  {
    forall k | 0 <= k < |r| ensures r[k] == s[i + k] {
      assert r[k] == t[k];
    }
  }

  /** Trailing whitespace of the suffix `s[i..]` is trailing whitespace of `s`. */
  lemma AllSpaceOfSuffix(s: string, i: nat, t: string, lo: int)
    requires i <= |s| && t == s[i..]
    requires 0 <= lo <= |t| && AllSpace(t, lo, |t|)
    ensures AllSpace(s, i + lo, |s|)
  {
    forall k | i + lo <= k < |s| ensures IsSpace(s[k]) {
      assert s[k] == t[k - i];
    }
  }

  /** Stripping a string that has no whitespace at either end changes nothing. */
  lemma StripKeepsTrimmed(s: string)
    requires NoEdgeSpace(s)
    ensures Strip(s) == s
  {
  }

  /** `s.strip()` is empty exactly when `s` is all whitespace. */
  lemma StripEmptyIffAllSpace(s: string)
    ensures Strip(s) == "" <==> AllSpace(s, 0, |s|)
  {
    if AllSpace(s, 0, |s|) {
      StripAllSpace(s);
    }
  }

  lemma {:induction false} StripAllSpace(s: string)
    requires AllSpace(s, 0, |s|)
    ensures TrimStart(s) == ""
  {
    if s != [] {
      assert AllSpace(s[1..], 0, |s| - 1) by {
        forall k | 0 <= k < |s| - 1 ensures IsSpace(s[1..][k]) { assert s[1..][k] == s[k + 1]; }
      }
      StripAllSpace(s[1..]);
    }
  }

  // ---------------------------------------------------------------------
  // sanitize_input
  // ---------------------------------------------------------------------

  /** The characters `re.sub(r'[<>"\']', '', ...)` deletes. */
  predicate IsDangerous(c: char) {
    c == '<' || c == '>' || c == '"' || c == '\''
  }

  predicate NoDangerous(s: string) {
    forall k :: 0 <= k < |s| ==> !IsDangerous(s[k])
  }

  /** `re.sub(r'[<>"\']', '', s)`: deletes every `<`, `>`, `"` and `'`. */
  function RemoveDangerous(s: string): (r: string)
    ensures NoDangerous(r)
    ensures |r| <= |s|
  {
    if s == [] then []
    else (if IsDangerous(s[0]) then [] else [s[0]]) + RemoveDangerous(s[1..])
  }

  /**
   * On one character the deletion drops a dangerous character and keeps any
   * other; with `RemoveDangerousConcat` this fixes the result on every string.
   */
  lemma RemoveDangerousOne(c: char)
    ensures RemoveDangerous([c]) == if IsDangerous(c) then [] else [c]
  {
    assert [c][1..] == [];
  }

  /** The deletion works character by character: it distributes over concatenation. */
  lemma {:induction false} RemoveDangerousConcat(a: string, b: string)
    ensures RemoveDangerous(a + b) == RemoveDangerous(a) + RemoveDangerous(b)
  {
    if a == [] {
      assert a + b == b;
    } else {
      assert (a + b)[0] == a[0];
      assert (a + b)[1..] == a[1..] + b;
      RemoveDangerousConcat(a[1..], b);
    }
  }

  /** A string without any of the four characters is left as it is. */
  lemma {:induction false} RemoveDangerousKeepsClean(s: string)
    requires NoDangerous(s)
    ensures RemoveDangerous(s) == s
  {
    if s != [] {
      assert NoDangerous(s[1..]) by {
        forall k | 0 <= k < |s| - 1 ensures !IsDangerous(s[1..][k]) { assert s[1..][k] == s[k + 1]; }
      }
      RemoveDangerousKeepsClean(s[1..]);
    }
  }

  /** Cutting a clean string short keeps it clean. */
  lemma PrefixKeepsClean(s: string, n: nat)
    requires NoDangerous(s) && n <= |s|
    ensures NoDangerous(s[..n])
  {
    forall k | 0 <= k < n ensures !IsDangerous(s[..n][k]) {
      assert s[..n][k] == s[k];
    }
  }

  /** Stripping cannot bring back a deleted character. */
  lemma StripKeepsClean(s: string)
    requires NoDangerous(s)
    ensures NoDangerous(Strip(s))
  {
    StripSpec(s);
    var i, r := |s| - |TrimStart(s)|, Strip(s);
    forall k | 0 <= k < |r| ensures !IsDangerous(r[k]) {
      assert r[k] == s[i + k];
    }
  }

  /**
   * `sanitize_input(text)`: falsy input gives `""`; otherwise the four
   * dangerous characters are deleted and the result is stripped. The output
   * never holds a dangerous character nor edge whitespace, and a string that
   * is already clean is returned unchanged.
   */
  function Sanitize(text: string): (r: string)
    ensures NoDangerous(r) && NoEdgeSpace(r)
    ensures text == "" ==> r == ""
    ensures NoDangerous(text) && NoEdgeSpace(text) ==> r == text
  {
    if text == "" then ""
    else
      var cleaned := RemoveDangerous(text);
      StripKeepsClean(cleaned);
      if NoDangerous(text) then
        RemoveDangerousKeepsClean(text);
        Strip(cleaned)
      else
        Strip(cleaned)
  }

  /** Sanitizing twice is the same as sanitizing once. */
  lemma SanitizeIdempotent(text: string)
    ensures Sanitize(Sanitize(text)) == Sanitize(text)
  {
  }

  // ---------------------------------------------------------------------
  // str.upper()
  // ---------------------------------------------------------------------

  /**
   * `c.upper()` for the characters whose upper case is one ASCII letter: the
   * ASCII lower-case letters, dotless i (U+0131, upper case `I`) and long s
   * (U+017F, upper case `S`). Every other character is kept as it is; this
   * includes the characters Python expands to several (`ß` to `SS`, the
   * ligature `ﬁ` to `FI` and the like), which the model does not expand.
   */
  function UpperChar(c: char): char {
    if 'a' <= c <= 'z' then (c as int - 32) as char
    else if c == '\U{131}' then 'I'
    else if c == '\U{17f}' then 'S'
    else c
  }

  /** `s.upper()` restricted to one-character mappings: UpperChar at every position. */
  function Upper(s: string): (r: string)
    ensures |r| == |s|
    ensures forall k :: 0 <= k < |s| ==> r[k] == UpperChar(s[k])
  {
    if s == [] then [] else [UpperChar(s[0])] + Upper(s[1..])
  }

  // ---------------------------------------------------------------------
  // is_valid_email
  // ---------------------------------------------------------------------

  predicate IsAsciiLetter(c: char) { 'a' <= c <= 'z' || 'A' <= c <= 'Z' }

  predicate IsAsciiDigit(c: char) { '0' <= c <= '9' }

  /** `[a-zA-Z0-9._%+-]` */
  predicate IsLocalChar(c: char) {
    IsAsciiLetter(c) || IsAsciiDigit(c) || c == '.' || c == '_' || c == '%' || c == '+' || c == '-'
  }

  /** `[a-zA-Z0-9.-]` */
  predicate IsDomainChar(c: char) {
    IsAsciiLetter(c) || IsAsciiDigit(c) || c == '.' || c == '-'
  }

  /** Every character of `s[lo..hi]` is in the local-part class. */
  predicate AllLocal(s: string, lo: int, hi: int)
    requires 0 <= lo <= hi <= |s|
  {
    forall k :: lo <= k < hi ==> IsLocalChar(s[k])
  }

  /** Every character of `s[lo..hi]` is in the domain class. */
  predicate AllDomain(s: string, lo: int, hi: int)
    requires 0 <= lo <= hi <= |s|
  {
    forall k :: lo <= k < hi ==> IsDomainChar(s[k])
  }

  /** Every character of `s[lo..hi]` is an ASCII letter. */
  predicate AllLetters(s: string, lo: int, hi: int)
    requires 0 <= lo <= hi <= |s|
  {
    forall k :: lo <= k < hi ==> IsAsciiLetter(s[k])
  }

  /**
   * `s` as a whole is matched by `[a-zA-Z0-9._%+-]+@[a-zA-Z0-9.-]+\.[a-zA-Z]{2,}`:
   * some position `i` holds the `@` and some later position `j` the `.`
   * before the final letters, with every piece drawn from its class.
   */
  ghost predicate MatchesAddress(s: string) {
    exists i, j :: AddressAt(s, i, j)
  }

  /** The pattern matches `s` with its `@` at `i` and its final `.` at `j`. */
  predicate AddressAt(s: string, i: int, j: int) {
    && 0 < i && i + 1 < j && j + 2 < |s|
    && s[i] == '@' && s[j] == '.'
    && AllLocal(s, 0, i) && AllDomain(s, i + 1, j) && AllLetters(s, j + 1, |s|)
  }

  /**
   * What `re.match('^...$', email)` accepts: Python's `$` matches at the
   * end of the string and also just before a final newline.
   */
  ghost predicate MatchesEmailPattern(email: string) {
    || MatchesAddress(email)
    || (|email| > 0 && email[|email| - 1] == '\n' && MatchesAddress(email[..|email| - 1]))
  }

  /** `s.find(c)`, with `|s|` for "not found". */
  function IndexOf(s: string, c: char): (r: nat)
    ensures r <= |s|
    ensures r < |s| ==> s[r] == c
    ensures forall k :: 0 <= k < r ==> s[k] != c
  {
    if s == [] then 0 else if s[0] == c then 0 else 1 + IndexOf(s[1..], c)
  }

  /** `s.rfind(c)`, with `-1` for "not found". */
  function LastIndexOf(s: string, c: char): (r: int)
    ensures -1 <= r < |s|
    ensures r >= 0 ==> s[r] == c
    ensures forall k :: r < k < |s| ==> s[k] != c
  {
    if s == [] then -1
    else if s[|s| - 1] == c then |s| - 1
    else LastIndexOf(s[..|s| - 1], c)
  }

  /**
   * Decides the address pattern without backtracking: the local part ends at
   * the first `@` (no class after it contains `@`), and the final letters
   * start after the last `.` (letters contain no `.`).
   */
  function CheckAddress(s: string): bool {
    AddressAt(s, IndexOf(s, '@'), LastIndexOf(s, '.'))
  }

  lemma IndexOfIs(s: string, c: char, i: nat)
    requires i < |s| && s[i] == c
    requires forall k :: 0 <= k < i ==> s[k] != c
    ensures IndexOf(s, c) == i
  {
  }

  lemma LastIndexOfIs(s: string, c: char, j: nat)
    requires j < |s| && s[j] == c
    requires forall k :: j < k < |s| ==> s[k] != c
    ensures LastIndexOf(s, c) == j
  {
  }

  /**
   * In a match, the `@` is the first one and no other `@` follows it, and
   * the `.` before the final letters is the last one.
   */
  lemma MatchPositions(s: string, i: int, j: int)
    requires AddressAt(s, i, j)
    ensures IndexOf(s, '@') == i && LastIndexOf(s, '.') == j
    ensures forall k :: i < k < |s| ==> s[k] != '@'
  {
    assert forall k :: 0 <= k < i ==> s[k] != '@' by {
      forall k | 0 <= k < i ensures s[k] != '@' {
        assert IsLocalChar(s[k]);
      }
    }
    IndexOfIs(s, '@', i);
    assert forall k :: j < k < |s| ==> s[k] != '.' && s[k] != '@' by {
      forall k | j < k < |s| ensures s[k] != '.' && s[k] != '@' {
        assert IsAsciiLetter(s[k]);
      }
    }
    LastIndexOfIs(s, '.', j);
    assert forall k :: i < k < j ==> s[k] != '@' by {
      forall k | i < k < j ensures s[k] != '@' {
        assert IsDomainChar(s[k]);
      }
    }
  }

  /** The backtracking-free decision agrees with the pattern on every string. */
  lemma CheckAddressExact(s: string)
    ensures CheckAddress(s) <==> MatchesAddress(s)
  {
    if MatchesAddress(s) {
      var i, j :| AddressAt(s, i, j);
      MatchPositions(s, i, j);
    }
  }

  /**
   * `is_valid_email(email)`: accepted exactly when the email pattern
   * matches, including Python's acceptance of one trailing newline.
   */
  function IsValidEmail(email: string): (r: bool)
    ensures r <==> MatchesEmailPattern(email)
  {
    CheckAddressExact(email);
    if |email| > 0 && email[|email| - 1] == '\n' then
      CheckAddressExact(email[..|email| - 1]);
      CheckAddress(email) || CheckAddress(email[..|email| - 1])
    else
      CheckAddress(email)
  }

  /**
   * The shape of an accepted address: exactly one `@` with a non-empty local
   * part before it, and a domain whose last `.` is followed by at least two
   * letters.
   */
  lemma AddressShape(s: string)
    requires MatchesAddress(s)
    ensures var i := IndexOf(s, '@');
      0 < i < |s| && forall k :: i < k < |s| ==> s[k] != '@'
    ensures var i, j := IndexOf(s, '@'), LastIndexOf(s, '.');
      i + 1 < j && j + 2 < |s| && AllLetters(s, j + 1, |s|)
  {
    var i, j :| AddressAt(s, i, j);
    MatchPositions(s, i, j);
  }

  /**
   * A sanitized email has no trailing newline, so for it the validator
   * accepts exactly the strings the address pattern matches as a whole.
   */
  lemma SanitizedEmailMatchesWhole(email: string)
    requires NoEdgeSpace(email)
    ensures IsValidEmail(email) <==> MatchesAddress(email)
  {
  }

  /** The address used by the demonstration client is accepted. */
  lemma DemoAddressAccepted()
    ensures IsValidEmail("demo@example.com")
  {
    var s := "demo@example.com";
    assert AddressAt(s, 4, 12);
  }

  /** A one-letter top-level domain is refused. */
  lemma ShortDomainRejected()
    ensures !IsValidEmail("user@example.c")
  {
    var s := "user@example.c";
    IndexOfIs(s, '@', 4);
    LastIndexOfIs(s, '.', 12);
    if MatchesAddress(s) {
      AddressShape(s);
    }
    assert s[|s| - 1] != '\n';
  }

  /** A second `@` is refused. */
  lemma SecondAtRejected()
    ensures !IsValidEmail("a@b@example.com")
  {
    var s := "a@b@example.com";
    IndexOfIs(s, '@', 1);
    assert s[3] == '@';
    if MatchesAddress(s) {
      AddressShape(s);
    }
    assert s[|s| - 1] != '\n';
  }
}
