/**
 The regular expressions that guard what reaches a generated file.

 Python's `re.match` with a closing `$` also accepts one line break after the text, so the
 `Matches...` predicates below drop a final line break before they test the characters.
 `fullmatch`, which the proxy uses for group slugs and country codes, does not.
 */
module Grammar {

  predicate Lower(c: char) { 'a' <= c <= 'z' }

  predicate Upper(c: char) { 'A' <= c <= 'Z' }

  predicate Digit(c: char) { '0' <= c <= '9' }

  predicate SlugChar(c: char) { Lower(c) || Digit(c) || c == '_' || c == '-' }

  function Chomp(s: string): string {
    if s != "" && s[|s| - 1] == '\n' then s[..|s| - 1] else s
  }

  /** `[a-z0-9][a-z0-9_-]{0,max-1}` over the whole text. */
  predicate SlugText(s: string, max: nat) {
    && 1 <= |s| <= max
    && s[0] != '_' && s[0] != '-'
    && forall i :: 0 <= i < |s| ==> SlugChar(s[i])
  }

  predicate MatchesSlug(s: string) { SlugText(Chomp(s), 24) }

  predicate MatchesSetName(s: string) { SlugText(Chomp(s), 48) }

  predicate MatchesTable(s: string) {
    var t := Chomp(s);
    && 1 <= |t| <= 24
    && Lower(t[0])
    && forall i :: 0 <= i < |t| ==> Lower(t[i]) || Digit(t[i]) || t[i] == '_'
  }

  predicate MatchesInterface(s: string) {
    var t := Chomp(s);
    && 1 <= |t| <= 15
    && forall i :: 0 <= i < |t| ==>
      Lower(t[i]) || Upper(t[i]) || Digit(t[i]) || t[i] in {'_', '.', '@', '-'}
  }

  predicate MatchesRuleId(s: string) {
    var t := Chomp(s);
    && 1 <= |t| <= 64
    && forall i :: 0 <= i < |t| ==>
      Lower(t[i]) || Upper(t[i]) || Digit(t[i]) || t[i] in {'_', '.', ':', '-'}
  }

  // ----- host names -----

  predicate LabelEdge(c: char) { Lower(c) || Digit(c) }

  /** The length without a final line break. */
  function TextLength(s: string): (n: nat)
    ensures n <= |s|
  {
    if s != "" && s[|s| - 1] == '\n' then |s| - 1 else |s|
  }

  /**
   Labels `[a-z0-9]([a-z0-9-]{0,61}[a-z0-9])?` with single dots between them: a dot stands between
   two letters or digits, both ends are one, and 64 characters in a row hold a dot.
   */
  predicate MatchesHostname(s: string) {
    var n := TextLength(s);
    && 0 < n && |s| <= 253
    && LabelEdge(s[0]) && LabelEdge(s[n - 1])
    && (forall i :: 0 <= i < n ==> HostChar(s, i, n))
    && (forall i :: 0 <= i && i + 64 <= n ==> DotWithin(s, i))
  }

  predicate HostChar(s: string, i: nat, n: nat)
    requires i < n <= |s|
  {
    || LabelEdge(s[i]) || s[i] == '-'
    || (s[i] == '.' && 0 < i < n - 1 && LabelEdge(s[i - 1]) && LabelEdge(s[i + 1]))
  }

  predicate DotWithin(s: string, i: nat)
    requires i + 64 <= |s|
  {
    exists k :: i <= k < i + 64 && s[k] == '.'
  }

  /** `^[A-Z]{2}$`, as a full match. */
  predicate CountryCode(s: string) {
    |s| == 2 && Upper(s[0]) && Upper(s[1])
  }

  predicate MatchesUsername(s: string) {
    var t := Chomp(s);
    && 1 <= |t| <= 64
    && (Lower(t[0]) || Upper(t[0]) || Digit(t[0]))
    && forall i :: 0 <= i < |t| ==> Lower(t[i]) || Upper(t[i]) || Digit(t[i]) || t[i] in {'.', '_', '-'}
  }

  predicate MatchesSha256(s: string) {
    var t := Chomp(s);
    |t| == 64 && forall i :: 0 <= i < |t| ==> Digit(t[i]) || 'a' <= t[i] <= 'f'
  }

  /** `slug.replace('-', '_')`. */
  function Underscored(s: string): (r: string)
    ensures |r| == |s|
    ensures forall i :: 0 <= i < |s| ==> r[i] == (if s[i] == '-' then '_' else s[i])
  {
    seq(|s|, i requires 0 <= i < |s| => if s[i] == '-' then '_' else s[i])
  }
}
