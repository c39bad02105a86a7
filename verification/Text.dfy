/**
 The string methods the repository leans on. Letters are ASCII.
 */
module Text {
  import opened Grammar

  predicate Blank(c: char) { c == ' ' || c == '\n' || c == '\t' || c == '\r' }

  /** `" ".join(words)`. */
  function JoinWords(words: seq<string>): string {
    if words == [] then "" else if |words| == 1 then words[0] else words[0] + " " + JoinWords(words[1..])
  }

  function WordEnd(s: string): (n: nat)
    ensures n <= |s| && (n < |s| ==> Blank(s[n]))
    ensures forall i :: 0 <= i < n ==> !Blank(s[i])
  {
    if s == "" || Blank(s[0]) then 0 else 1 + WordEnd(s[1..])
  }

  /** `text.split()`. */
  function SplitWords(s: string): seq<string>
    decreases |s|
  {
    if s == "" then []
    else if Blank(s[0]) then SplitWords(s[1..])
    else [s[..WordEnd(s)]] + SplitWords(s[WordEnd(s)..])
  }

  predicate Word(s: string) {
    s != "" && forall i :: 0 <= i < |s| ==> !Blank(s[i])
  }

  lemma {:induction false} SplitOne(word: string, rest: string)
    requires Word(word) && rest != "" && Blank(rest[0])
    ensures SplitWords(word + rest) == [word] + SplitWords(rest[1..])
  {
    var s := word + rest;
    assert WordEnd(s) == |word| by {
      assert forall i :: 0 <= i < |word| ==> s[i] == word[i];
      assert s[|word|] == rest[0];
    }
    assert s[..|word|] == word && s[|word|..] == rest;
  }

  function UpperChar(c: char): char {
    if Lower(c) then (c as int - 32) as char else c
  }

  function Uppercase(s: string): string {
    seq(|s|, i requires 0 <= i < |s| => UpperChar(s[i]))
  }

  function Stripped(s: string): string
    decreases |s|
  {
    if s == "" then ""
    else if Blank(s[0]) then Stripped(s[1..])
    else if Blank(s[|s| - 1]) then Stripped(s[..|s| - 1])
    else s
  }

  function LowerChar(c: char): char {
    if Upper(c) then (c as int + 32) as char else c
  }

  function Lowercase(s: string): string {
    seq(|s|, i requires 0 <= i < |s| => LowerChar(s[i]))
  }

  predicate EndsWith(s: string, suffix: string) {
    |suffix| <= |s| && s[|s| - |suffix|..] == suffix
  }

  /** `s.rstrip(".")`. */
  function WithoutDots(s: string): string
    decreases |s|
  {
    if s != "" && s[|s| - 1] == '.' then WithoutDots(s[..|s| - 1]) else s
  }

  lemma {:induction false} StrippedEdges(s: string)
    ensures Stripped(s) != "" ==> !Blank(Stripped(s)[0]) && !Blank(Stripped(s)[|Stripped(s)| - 1])
    decreases |s|
  {
    if s != "" {
      if Blank(s[0]) {
        StrippedEdges(s[1..]);
      } else if Blank(s[|s| - 1]) {
        StrippedEdges(s[..|s| - 1]);
      }
    }
  }

  /** Nothing to strip where neither end is blank. */
  lemma StrippedNothing(s: string)
    requires s != "" ==> !Blank(s[0]) && !Blank(s[|s| - 1])
    ensures Stripped(s) == s
  {
  }

  lemma {:induction false} WithoutDotsPrefix(s: string)
    ensures |WithoutDots(s)| <= |s| && WithoutDots(s) == s[..|WithoutDots(s)|]
    ensures WithoutDots(s) != "" ==> WithoutDots(s)[|WithoutDots(s)| - 1] != '.'
    decreases |s|
  {
    if s != "" && s[|s| - 1] == '.' {
      WithoutDotsPrefix(s[..|s| - 1]);
    }
  }

  // ----- what the methods do, said of the text alone -----

  predicate AllBlank(s: string) {
    forall i :: 0 <= i < |s| ==> s[i] in " \n\t\r"
  }

  lemma BlankMeans(c: char)
    ensures Blank(c) <==> c in " \n\t\r"
  {
  }

  lemma OneInFront(s: string, before: string, core: string, after: string)
    requires s != "" && s[1..] == before + core + after
    ensures s == ([s[0]] + before) + core + after
  {
    assert s == [s[0]] + s[1..];
  }

  lemma OneBehind(s: string, before: string, core: string, after: string)
    requires s != "" && s[..|s| - 1] == before + core + after
    ensures s == before + core + (after + [s[|s| - 1]])
  {
    assert s == s[..|s| - 1] + [s[|s| - 1]];
  }

  lemma {:induction false} StrippedFrom(s: string) returns (before: string, after: string)
    ensures s == before + Stripped(s) + after
    ensures (forall i :: 0 <= i < |before| ==> Blank(before[i])) && forall i :: 0 <= i < |after| ==> Blank(after[i])
    decreases |s|
  {
    before, after := "", "";
    if s != "" {
      if Blank(s[0]) {
        before, after := StrippedFrom(s[1..]);
        OneInFront(s, before, Stripped(s[1..]), after);
        before := [s[0]] + before;
      } else if Blank(s[|s| - 1]) {
        before, after := StrippedFrom(s[..|s| - 1]);
        OneBehind(s, before, Stripped(s[..|s| - 1]), after);
        after := after + [s[|s| - 1]];
      }
    }
  }

  lemma AllBlankMeans(s: string)
    requires forall i :: 0 <= i < |s| ==> Blank(s[i])
    ensures AllBlank(s)
  {
    forall i | 0 <= i < |s|
      ensures s[i] in " \n\t\r"
    {
      BlankMeans(s[i]);
    }
  }

  /** Stripping takes blanks from both ends, and all of them. */
  lemma StrippedMeans(s: string) returns (before: string, after: string)
    ensures s == before + Stripped(s) + after && AllBlank(before) && AllBlank(after)
    ensures Stripped(s) != "" ==> Stripped(s)[0] !in " \n\t\r" && Stripped(s)[|Stripped(s)| - 1] !in " \n\t\r"
  {
    before, after := StrippedFrom(s);
    AllBlankMeans(before);
    AllBlankMeans(after);
    StrippedEdges(s);
    if Stripped(s) != "" {
      BlankMeans(Stripped(s)[0]);
      BlankMeans(Stripped(s)[|Stripped(s)| - 1]);
    }
  }

  /** And from the right of it the dots, and all of them. */
  lemma {:induction false} WithoutDotsMeans(s: string) returns (dots: string)
    ensures s == WithoutDots(s) + dots && forall i :: 0 <= i < |dots| ==> dots[i] == '.'
    ensures WithoutDots(s) != "" ==> WithoutDots(s)[|WithoutDots(s)| - 1] != '.'
    decreases |s|
  {
    if s != "" && s[|s| - 1] == '.' {
      dots := WithoutDotsMeans(s[..|s| - 1]);
      dots := dots + ".";
      assert s == s[..|s| - 1] + ".";
    } else {
      dots := "";
    }
  }

  const CAPITALS := "ABCDEFGHIJKLMNOPQRSTUVWXYZ"
  const SMALL := "abcdefghijklmnopqrstuvwxyz"

  /** Capitals become the small letters they stand for, and nothing else changes. */
  lemma LowercaseMeans(s: string, i: nat)
    requires i < |s|
    ensures |Lowercase(s)| == |s|
    ensures s[i] !in CAPITALS ==> Lowercase(s)[i] == s[i]
    ensures forall k :: 0 <= k < 26 && s[i] == CAPITALS[k] ==> Lowercase(s)[i] == SMALL[k]
  {
    CapitalAt(s[i]);
  }

  lemma UppercaseMeans(s: string, i: nat)
    requires i < |s|
    ensures |Uppercase(s)| == |s|
    ensures s[i] !in SMALL ==> Uppercase(s)[i] == s[i]
    ensures forall k :: 0 <= k < 26 && s[i] == SMALL[k] ==> Uppercase(s)[i] == CAPITALS[k]
  {
    SmallAt(s[i]);
  }

  lemma CapitalAt(c: char)
    ensures c in CAPITALS <==> Upper(c)
    ensures Upper(c) ==> CAPITALS[c as int - 65] == c
    ensures forall k :: 0 <= k < 26 ==> CAPITALS[k] as int == 65 + k && SMALL[k] as int == 97 + k
  {
  }

  lemma SmallAt(c: char)
    ensures c in SMALL <==> Lower(c)
    ensures Lower(c) ==> SMALL[c as int - 97] == c
    ensures forall k :: 0 <= k < 26 ==> CAPITALS[k] as int == 65 + k && SMALL[k] as int == 97 + k
  {
  }
}
