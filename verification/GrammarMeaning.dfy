/**
 The regular expressions the validators match, said of the text: alphabets, lengths, and labels
 joined by dots. Each accepts one final line break, as Python's `re.match` with a trailing `$` does.
 */
module GrammarMeaning {
  import opened Grammar
  import opened Text

  const DIGITS := "0123456789"

  predicate SmallOrDigit(c: char) { c in SMALL || c in DIGITS }

  predicate LetterOrDigit(c: char) { c in SMALL || c in CAPITALS || c in DIGITS }

  lemma CharactersMean(c: char)
    ensures Lower(c) <==> c in SMALL
    ensures Upper(c) <==> c in CAPITALS
    ensures Digit(c) <==> c in DIGITS
  {
    SmallAt(c);
    CapitalAt(c);
    assert Digit(c) ==> DIGITS[c as int - 48] == c;
  }

  lemma AllCharactersMean()
    ensures forall c {:trigger Lower(c)} {:trigger c in SMALL} :: Lower(c) <==> c in SMALL
    ensures forall c {:trigger Upper(c)} {:trigger c in CAPITALS} :: Upper(c) <==> c in CAPITALS
    ensures forall c {:trigger Digit(c)} {:trigger c in DIGITS} :: Digit(c) <==> c in DIGITS
  {
    forall c: char
      ensures (Lower(c) <==> c in SMALL) && (Upper(c) <==> c in CAPITALS) && (Digit(c) <==> c in DIGITS)
    {
      CharactersMean(c);
    }
  }

  predicate Unbroken(t: string) { t != "" ==> t[|t| - 1] != '\n' }

  lemma OneBreakOff(t: string)
    requires Unbroken(t)
    ensures Chomp(t) == t && Chomp(t + "\n") == t
  {
    assert (t + "\n")[..|t|] == t;
  }

  /** `[a-z0-9][a-z0-9_-]*` of at most so many characters. */
  predicate SlugShape(t: string, most: nat) {
    && 1 <= |t| <= most && SmallOrDigit(t[0])
    && forall i :: 0 <= i < |t| ==> SmallOrDigit(t[i]) || t[i] == '_' || t[i] == '-'
  }

  lemma SlugTextMeans(t: string, most: nat)
    ensures SlugText(t, most) <==> SlugShape(t, most)
  {
    AllCharactersMean();
  }

  lemma SlugMeans(t: string)
    requires Unbroken(t)
    ensures MatchesSlug(t) <==> SlugShape(t, 24)
    ensures MatchesSlug(t + "\n") <==> SlugShape(t, 24)
    ensures MatchesSetName(t) <==> SlugShape(t, 48)
    ensures MatchesSetName(t + "\n") <==> SlugShape(t, 48)
  {
    OneBreakOff(t);
    SlugTextMeans(t, 24);
    SlugTextMeans(t, 48);
  }

  /** `[a-z][a-z0-9_]{0,23}` */
  predicate TableShape(t: string) {
    && 1 <= |t| <= 24 && t[0] in SMALL
    && forall i :: 0 <= i < |t| ==> SmallOrDigit(t[i]) || t[i] == '_'
  }

  lemma TableMeans(t: string)
    requires Unbroken(t)
    ensures MatchesTable(t) <==> TableShape(t)
    ensures MatchesTable(t + "\n") <==> TableShape(t)
  {
    OneBreakOff(t);
    AllCharactersMean();
  }

  /** `[A-Za-z0-9…]{1,most}`, the extra characters given. */
  predicate WordShape(t: string, extra: string, most: nat) {
    1 <= |t| <= most && forall i :: 0 <= i < |t| ==> LetterOrDigit(t[i]) || t[i] in extra
  }

  lemma InterfaceMeans(t: string)
    requires Unbroken(t)
    ensures MatchesInterface(t) <==> WordShape(t, "_.@-", 15)
    ensures MatchesInterface(t + "\n") <==> WordShape(t, "_.@-", 15)
  {
    OneBreakOff(t);
    AllCharactersMean();
  }

  lemma RuleIdMeans(t: string)
    requires Unbroken(t)
    ensures MatchesRuleId(t) <==> WordShape(t, "_.:-", 64)
    ensures MatchesRuleId(t + "\n") <==> WordShape(t, "_.:-", 64)
  {
    OneBreakOff(t);
    AllCharactersMean();
  }

  lemma UsernameMeans(t: string)
    requires Unbroken(t)
    ensures MatchesUsername(t) <==> WordShape(t, "._-", 64) && LetterOrDigit(t[0])
    ensures MatchesUsername(t + "\n") <==> WordShape(t, "._-", 64) && LetterOrDigit(t[0])
  {
    OneBreakOff(t);
    AllCharactersMean();
  }

  lemma Sha256Means(t: string)
    requires Unbroken(t)
    ensures MatchesSha256(t) <==> |t| == 64 && forall i :: 0 <= i < 64 ==> t[i] in "0123456789abcdef"
    ensures MatchesSha256(t + "\n") <==> MatchesSha256(t)
  {
    OneBreakOff(t);
    forall c: char
      ensures Digit(c) || 'a' <= c <= 'f' <==> c in "0123456789abcdef"
    {
      HexDigit(c);
    }
  }

  lemma HexDigit(c: char)
    ensures Digit(c) || 'a' <= c <= 'f' <==> c in "0123456789abcdef"
  {
    var hex := "0123456789abcdef";
    if Digit(c) {
      assert hex[c as int - 48] == c;
    } else if 'a' <= c <= 'f' {
      assert hex[c as int - 87] == c;
    }
  }

  lemma CountryMeans(s: string)
    ensures CountryCode(s) <==> |s| == 2 && s[0] in CAPITALS && s[1] in CAPITALS
  {
    AllCharactersMean();
  }

  // ----- host names -----

  /** `[a-z0-9]([a-z0-9-]{0,61}[a-z0-9])?` */
  predicate LabelShape(l: string) {
    && 1 <= |l| <= 63 && l[0] != '-' && l[|l| - 1] != '-'
    && forall i :: 0 <= i < |l| ==> SmallOrDigit(l[i]) || l[i] == '-'
  }

  /** The same with the edges as the host name pattern takes them. */
  predicate LabelText(l: string) {
    && 1 <= |l| <= 63 && LabelEdge(l[0]) && LabelEdge(l[|l| - 1])
    && forall i :: 0 <= i < |l| ==> LabelEdge(l[i]) || l[i] == '-'
  }

  lemma LabelMeans(l: string)
    ensures LabelShape(l) <==> LabelText(l)
  {
    forall i | 0 <= i < |l|
      ensures LabelEdge(l[i]) <==> SmallOrDigit(l[i])
    {
      CharactersMean(l[i]);
    }
  }

  function Dotted(labels: seq<string>): string {
    if labels == [] then "" else if |labels| == 1 then labels[0] else labels[0] + "." + Dotted(labels[1..])
  }

  predicate Labels(labels: seq<string>) {
    labels != [] && forall l :: l in labels ==> LabelShape(l)
  }

  /** The character-wise form, of a text without a line break at the end. */
  predicate HostShape(t: string) {
    && t != "" && LabelEdge(t[0]) && LabelEdge(t[|t| - 1])
    && (forall i :: 0 <= i < |t| ==> HostChar(t, i, |t|))
    && (forall i :: 0 <= i && i + 64 <= |t| ==> DotWithin(t, i))
  }

  function FirstDot(t: string): (k: nat)
    ensures k <= |t| && (k < |t| ==> t[k] == '.') && forall i :: 0 <= i < k ==> t[i] != '.'
  {
    if t == "" || t[0] == '.' then 0 else 1 + FirstDot(t[1..])
  }

  lemma LabelIsShort(t: string, k: nat)
    requires HostShape(t) && k <= |t| && forall i :: 0 <= i < k ==> t[i] != '.'
    ensures k <= 63
  {
    assert k >= 64 ==> DotWithin(t, 0);
  }

  lemma FirstIsLabel(t: string, k: nat)
    requires HostShape(t) && k == FirstDot(t)
    ensures LabelShape(t[..k])
  {
    LabelIsShort(t, k);
    if k < |t| {
      assert HostChar(t, k, |t|);
    }
    forall i | 0 <= i < k
      ensures LabelEdge(t[i]) || t[i] == '-'
    {
      assert HostChar(t, i, |t|);
    }
    LabelMeans(t[..k]);
  }

  lemma RestIsHost(t: string, k: nat)
    requires HostShape(t) && k < |t| && t[k] == '.'
    ensures HostShape(t[k + 1..])
  {
    var r := t[k + 1..];
    assert HostChar(t, k, |t|);
    forall i | 0 <= i < |r|
      ensures HostChar(r, i, |r|)
    {
      assert HostChar(t, k + 1 + i, |t|);
    }
    forall i | 0 <= i && i + 64 <= |r|
      ensures DotWithin(r, i)
    {
      assert DotWithin(t, k + 1 + i);
      var j :| k + 1 + i <= j < k + 1 + i + 64 && t[j] == '.';
      assert r[j - k - 1] == '.';
    }
  }

  lemma OneMoreLabel(l: string, rest: seq<string>)
    requires LabelShape(l) && Labels(rest)
    ensures Labels([l] + rest) && Dotted([l] + rest) == l + "." + Dotted(rest)
  {
    assert ([l] + rest)[1..] == rest;
  }

  lemma CutAtDot(t: string, k: nat)
    requires k < |t| && t[k] == '.'
    ensures t == t[..k] + "." + t[k + 1..]
  {
  }

  lemma {:induction false} HostHasLabels(t: string) returns (labels: seq<string>)
    requires HostShape(t)
    ensures Labels(labels) && t == Dotted(labels)
    decreases |t|
  {
    var k := FirstDot(t);
    FirstIsLabel(t, k);
    if k == |t| {
      labels := [t];
      assert t[..k] == t;
    } else {
      var l, tail := t[..k], t[k + 1..];
      RestIsHost(t, k);
      CutAtDot(t, k);
      var rest := HostHasLabels(tail);
      OneMoreLabel(l, rest);
      labels := [l] + rest;
    }
  }

  lemma OneLabelIsHost(l: string)
    requires LabelShape(l)
    ensures HostShape(l)
  {
    LabelMeans(l);
  }

  lemma CharsOfJoined(l: string, t: string, i: nat)
    requires LabelText(l) && HostShape(t) && i < |l| + 1 + |t|
    ensures HostChar(l + "." + t, i, |l| + 1 + |t|)
  {
    var s, n := l + "." + t, |l|;
    if i < n {
      assert s[i] == l[i];
    } else if i == n {
      assert s[n - 1] == l[n - 1] && s[n + 1] == t[0];
    } else {
      CharsBehind(l, t, i - n - 1);
    }
  }

  lemma CharsBehind(l: string, t: string, i: nat)
    requires HostShape(t) && i < |t|
    ensures HostChar(l + "." + t, |l| + 1 + i, |l| + 1 + |t|)
  {
    var s, n := l + "." + t, |l|;
    assert HostChar(t, i, |t|);
    assert s[n + 1 + i] == t[i];
    if 0 < i < |t| - 1 {
      assert s[n + i] == t[i - 1] && s[n + 2 + i] == t[i + 1];
    }
  }

  lemma DotInJoined(l: string, t: string, i: nat)
    requires |l| <= 63 && HostShape(t) && i + 64 <= |l| + 1 + |t|
    ensures DotWithin(l + "." + t, i)
  {
    var s, n := l + "." + t, |l|;
    if i <= n {
      assert s[n] == '.';
    } else {
      assert DotWithin(t, i - n - 1);
      var j :| i - n - 1 <= j < i - n - 1 + 64 && t[j] == '.';
      assert s[n + 1 + j] == '.';
    }
  }

  lemma LabelThenHost(l: string, t: string)
    requires LabelShape(l) && HostShape(t)
    ensures HostShape(l + "." + t)
  {
    LabelMeans(l);
    var s := l + "." + t;
    assert s[0] == l[0] && s[|s| - 1] == t[|t| - 1];
    forall i | 0 <= i < |s|
      ensures HostChar(s, i, |s|)
    {
      CharsOfJoined(l, t, i);
    }
    forall i | 0 <= i && i + 64 <= |s|
      ensures DotWithin(s, i)
    {
      DotInJoined(l, t, i);
    }
  }

  lemma {:induction false} LabelsAreHost(labels: seq<string>)
    requires Labels(labels)
    ensures HostShape(Dotted(labels))
  {
    assert labels[0] in labels;
    if |labels| == 1 {
      OneLabelIsHost(labels[0]);
    } else {
      LabelsAreHost(labels[1..]);
      LabelThenHost(labels[0], Dotted(labels[1..]));
    }
  }

  lemma HostMatches(t: string)
    requires Unbroken(t)
    ensures MatchesHostname(t) <==> |t| <= 253 && HostShape(t)
    ensures MatchesHostname(t + "\n") <==> |t| <= 252 && HostShape(t)
  {
    var s := t + "\n";
    assert TextLength(t) == |t| && TextLength(s) == |t|;
    if t != "" {
      forall i | 0 <= i < |t|
        ensures HostChar(s, i, |t|) <==> HostChar(t, i, |t|)
      {
      }
      forall i | 0 <= i && i + 64 <= |t|
        ensures DotWithin(s, i) <==> DotWithin(t, i)
      {
        assert forall k :: i <= k < i + 64 ==> s[k] == t[k];
      }
    }
  }

  /** A host name is labels of at most 63 characters joined by dots, 253 in all, a final line break included. */
  lemma HostnameMeans(t: string)
    requires Unbroken(t)
    ensures MatchesHostname(t) <==> |t| <= 253 && exists labels :: Labels(labels) && t == Dotted(labels)
    ensures MatchesHostname(t + "\n") <==> |t| <= 252 && exists labels :: Labels(labels) && t == Dotted(labels)
  {
    HostMatches(t);
    if HostShape(t) {
      var labels := HostHasLabels(t);
    }
    if labels :| Labels(labels) && t == Dotted(labels) {
      LabelsAreHost(labels);
    }
  }
}
