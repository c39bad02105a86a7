/**
 What is written is what is read: the interface section comes back unchanged, the peer
 sections are those of the requested peers and no others, and a second sync does nothing.
 */
module WireGuardRoundTrip {
  import opened Ordering
  import opened Text
  import opened WireGuardConfig

  // ----- joining and splitting lines -----

  predicate OneLine(s: string) {
    forall i :: 0 <= i < |s| ==> s[i] != '\n'
  }

  predicate AllOneLine(lines: seq<string>) {
    forall l :: l in lines ==> OneLine(l)
  }

  lemma LineSplits(line: string, rest: string)
    requires OneLine(line)
    ensures SplitLines(line + "\n" + rest) == [line] + SplitLines(rest)
  {
    var s := line + "\n" + rest;
    assert s[|line|] == '\n';
    assert forall i :: 0 <= i < |line| ==> s[i] == line[i];
    assert LineEnd(s) == |line|;
    assert s[..|line|] == line && s[|line| + 1..] == rest;
  }

  lemma JoinLinesStep(lines: seq<string>)
    requires |lines| > 1
    ensures JoinLines(lines) + "\n" == lines[0] + "\n" + (JoinLines(lines[1..]) + "\n")
  {
  }

  lemma {:induction false} SplitJoined(lines: seq<string>)
    requires lines != [] && AllOneLine(lines)
    ensures SplitLines(JoinLines(lines) + "\n") == lines
  {
    var line, rest := lines[0], lines[1..];
    assert line in lines && OneLine(line);
    if rest == [] {
      LineSplits(line, "");
      assert line + "\n" == line + "\n" + "";
    } else {
      SplitJoined(rest);
      LineSplits(line, JoinLines(rest) + "\n");
      JoinLinesStep(lines);
    }
  }

  lemma {:induction false} JoinConcat(a: seq<string>, b: seq<string>)
    requires a != [] && b != []
    ensures JoinLines(a + b) == JoinLines(a) + "\n" + JoinLines(b)
  {
    if |a| == 1 {
      assert (a + b)[1..] == b;
    } else {
      JoinConcat(a[1..], b);
      assert (a + b)[1..] == a[1..] + b;
    }
  }

  lemma {:induction false} SplitIsOneLine(s: string)
    ensures AllOneLine(SplitLines(s))
    decreases |s|
  {
    if s != "" {
      var n := LineEnd(s);
      assert OneLine(s[..n]);
      if n < |s| {
        SplitIsOneLine(s[n + 1..]);
        OneLineMore(s[..n], SplitLines(s[n + 1..]));
      } else {
        OneLineMore(s[..n], []);
      }
    }
  }

  lemma OneLineMore(line: string, lines: seq<string>)
    requires OneLine(line) && AllOneLine(lines)
    ensures AllOneLine([line] + lines)
  {
  }

  // ----- stripping -----

  lemma {:induction false} RStripPrefix(s: string)
    ensures RStrip(s) <= s
    ensures RStrip(s) != "" ==> !Blank(RStrip(s)[|RStrip(s)| - 1])
    ensures RStrip(RStrip(s)) == RStrip(s)
    decreases |s|
  {
    if s != "" && Blank(s[|s| - 1]) {
      RStripPrefix(s[..|s| - 1]);
    }
  }

  lemma {:induction false} RStripBlankTail(s: string, tail: string)
    requires forall i :: 0 <= i < |tail| ==> Blank(tail[i])
    ensures RStrip(s + tail) == RStrip(s)
    decreases |tail|
  {
    if tail == "" {
      assert s + tail == s;
    } else {
      var n := |tail| - 1;
      assert (s + tail)[..|s + tail| - 1] == s + tail[..n];
      RStripBlankTail(s, tail[..n]);
    }
  }

  lemma {:induction false} StrippedOneLine(s: string)
    requires OneLine(s)
    ensures OneLine(Stripped(s))
    decreases |s|
  {
    if s != "" {
      if Blank(s[0]) {
        StrippedOneLine(s[1..]);
      } else if Blank(s[|s| - 1]) {
        StrippedOneLine(s[..|s| - 1]);
      }
    }
  }

  lemma {:induction false} StrippedDropsTail(s: string)
    requires s != "" && Blank(s[|s| - 1])
    ensures Stripped(s) == Stripped(s[..|s| - 1])
    decreases |s|
  {
    if |s| > 1 && Blank(s[0]) {
      StrippedDropsTail(s[1..]);
      assert s[1..][..|s[1..]| - 1] == s[..|s| - 1][1..];
    }
  }

  lemma {:induction false} StrippedOfRStrip(s: string)
    ensures Stripped(RStrip(s)) == Stripped(s)
    decreases |s|
  {
    if s != "" && Blank(s[|s| - 1]) {
      StrippedDropsTail(s);
      StrippedOfRStrip(s[..|s| - 1]);
    }
  }

  lemma StrippedTwice(s: string)
    ensures Stripped(Stripped(s)) == Stripped(s)
  {
    StrippedEdges(s);
    StrippedNothing(Stripped(s));
  }

  /** Trailing empty lines are dropped. */
  function Trimmed(lines: seq<string>): seq<string>
    decreases |lines|
  {
    if lines != [] && lines[|lines| - 1] == "" then Trimmed(lines[..|lines| - 1]) else lines
  }

  predicate RightStripped(lines: seq<string>) {
    forall l :: l in lines ==> l != "" ==> !Blank(l[|l| - 1])
  }

  lemma {:induction false} TrimmedPrefix(lines: seq<string>)
    ensures Trimmed(lines) <= lines
    ensures Trimmed(lines) != [] ==> Trimmed(lines)[|Trimmed(lines)| - 1] != ""
    decreases |lines|
  {
    if lines != [] && lines[|lines| - 1] == "" {
      TrimmedPrefix(lines[..|lines| - 1]);
    }
  }

  lemma JoinedEndsAs(init: seq<string>, last: string)
    requires last != ""
    ensures JoinLines(init + [last]) != "" && JoinLines(init + [last])[|JoinLines(init + [last])| - 1] == last[|last| - 1]
  {
    if init == [] {
      assert init + [last] == [last];
    } else {
      JoinConcat(init, [last]);
    }
  }

  lemma JoinedWithEmpty(init: seq<string>)
    ensures RStrip(JoinLines(init + [""])) == RStrip(JoinLines(init))
  {
    if init == [] {
      assert init + [""] == [""];
    } else {
      JoinConcat(init, [""]);
      assert JoinLines(init + [""]) == JoinLines(init) + "\n";
      RStripBlankTail(JoinLines(init), "\n");
    }
  }

  /** Stripping the text is dropping its last empty lines, where no line ends in a blank. */
  lemma {:induction false} RStripJoined(lines: seq<string>)
    requires RightStripped(lines)
    ensures RStrip(JoinLines(lines)) == JoinLines(Trimmed(lines))
    decreases |lines|
  {
    if lines != [] {
      var n := |lines| - 1;
      var init, last := lines[..n], lines[n];
      assert lines == init + [last];
      if last == "" {
        RStripJoined(init);
        JoinedWithEmpty(init);
      } else {
        assert last in lines;
        JoinedEndsAs(init, last);
      }
    }
  }

  // ----- the interface lines, read again -----

  lemma {:induction false} InterfaceLinesConcat(a: seq<string>, b: seq<string>, inside: bool)
    ensures InterfaceLines(a + b, inside) == InterfaceLines(a, inside) + InterfaceLines(b, InsideAfter(a, inside))
    decreases |a|
  {
    if a == [] {
      assert a + b == b;
    } else {
      var t := Stripped(a[0]);
      assert (a + b)[0] == a[0] && (a + b)[1..] == a[1..] + b;
      InterfaceLinesConcat(a[1..], b, if StartsSection(t) then IsInterface(t) else inside);
    }
  }

  function InsideAfter(lines: seq<string>, inside: bool): bool
    decreases |lines|
  {
    if lines == [] then inside
    else
      var t := Stripped(lines[0]);
      InsideAfter(lines[1..], if StartsSection(t) then IsInterface(t) else inside)
  }

  lemma {:induction false} InterfaceLinesShorter(lines: seq<string>, inside: bool)
    ensures |InterfaceLines(lines, inside)| <= |lines|
    decreases |lines|
  {
    if lines != [] {
      var t := Stripped(lines[0]);
      InterfaceLinesShorter(lines[1..], if StartsSection(t) then IsInterface(t) else inside);
    }
  }

  /** An interface header or no header at all, with no blank at the end and no line break. */
  predicate CleanLine(l: string) {
    && OneLine(l) && (l != "" ==> !Blank(l[|l| - 1]))
    && (StartsSection(Stripped(l)) ==> IsInterface(Stripped(l)))
  }

  ghost predicate Clean(lines: seq<string>) {
    forall l :: l in lines ==> CleanLine(l)
  }

  lemma HeaderIsClean(l: string)
    requires OneLine(l) && IsInterface(Stripped(l))
    ensures CleanLine(Stripped(l)) && Stripped(Stripped(l)) == Stripped(l)
  {
    StrippedOneLine(l);
    StrippedTwice(l);
    StrippedEdges(l);
  }

  lemma OtherIsClean(l: string)
    requires OneLine(l) && !StartsSection(Stripped(l))
    ensures CleanLine(RStrip(l))
  {
    RStripPrefix(l);
    StrippedOfRStrip(l);
  }

  lemma {:induction false} InterfaceLinesClean(lines: seq<string>, inside: bool)
    requires AllOneLine(lines)
    ensures Clean(InterfaceLines(lines, inside))
    decreases |lines|
  {
    if lines != [] {
      var l, rest := lines[0], lines[1..];
      var t := Stripped(l);
      assert l in lines && AllOneLine(rest);
      InterfaceLinesClean(rest, if StartsSection(t) then IsInterface(t) else inside);
      if StartsSection(t) {
        if IsInterface(t) {
          HeaderIsClean(l);
        }
      } else {
        OtherIsClean(l);
      }
    }
  }

  lemma {:induction false} HeaderFirst(lines: seq<string>)
    ensures InterfaceLines(lines, false) != [] ==> StartsSection(Stripped(InterfaceLines(lines, false)[0]))
    decreases |lines|
  {
    if lines != [] {
      var t := Stripped(lines[0]);
      StrippedTwice(lines[0]);
      if !(StartsSection(t) && IsInterface(t)) {
        HeaderFirst(lines[1..]);
      }
    }
  }

  /** Reading the interface lines again gives the same lines. */
  lemma {:induction false} InterfaceLinesTwice(lines: seq<string>, inside: bool)
    requires AllOneLine(lines)
    ensures InterfaceLines(InterfaceLines(lines, inside), inside) == InterfaceLines(lines, inside)
    decreases |lines|
  {
    if lines != [] {
      var l, rest := lines[0], lines[1..];
      var t := Stripped(l);
      assert l in lines && AllOneLine(rest);
      StrippedTwice(l);
      StrippedOfRStrip(l);
      RStripPrefix(l);
      if StartsSection(t) {
        InterfaceLinesTwice(rest, IsInterface(t));
        if IsInterface(t) {
          assert ([t] + InterfaceLines(rest, true))[1..] == InterfaceLines(rest, true);
        } else {
          assert InterfaceLines(lines, inside) == InterfaceLines(rest, false);
          FromOutside(rest, inside);
        }
      } else {
        InterfaceLinesTwice(rest, inside);
        if inside {
          var again := [RStrip(l)] + InterfaceLines(rest, true);
          assert again[0] == RStrip(l) && again[1..] == InterfaceLines(rest, true);
          assert InterfaceLines(again, true) == [RStrip(RStrip(l))] + InterfaceLines(again[1..], true);
        } else {
          assert InterfaceLines(lines, false) == InterfaceLines(rest, false);
        }
      }
    }
  }

  /** Lines found from outside begin with a header, so it does not matter where reading them starts. */
  lemma FromOutside(lines: seq<string>, inside: bool)
    requires AllOneLine(lines)
    requires InterfaceLines(InterfaceLines(lines, false), false) == InterfaceLines(lines, false)
    ensures InterfaceLines(InterfaceLines(lines, false), inside) == InterfaceLines(lines, false)
  {
    HeaderFirst(lines);
  }

  /** The same for the lines without trailing empty ones. */
  lemma TrimmedReadsBack(lines: seq<string>)
    requires InterfaceLines(lines, false) == lines
    ensures InterfaceLines(Trimmed(lines), false) == Trimmed(lines)
  {
    var t := Trimmed(lines);
    TrimmedPrefix(lines);
    var tail := lines[|t|..];
    assert lines == t + tail;
    InterfaceLinesConcat(t, tail, false);
    InterfaceLinesShorter(t, false);
    InterfaceLinesShorter(tail, InsideAfter(t, false));
  }

  // ----- the rendered text, as lines -----

  predicate CleanPeer(p: Peer) {
    && OneLine(p.publicKey) && Token(p.publicKey)
    && forall ip :: ip in p.allowedIps ==> Token(ip)
  }

  /** A key or an address: no comma, no blank. */
  predicate Token(s: string) {
    s != "" && forall i :: 0 <= i < |s| ==> s[i] != ',' && !Blank(s[i])
  }

  function PeerLines(peers: seq<Peer>): seq<string> {
    if peers == [] then [] else ["", "[Peer]", KeyLine(peers[0]), IpsLine(peers[0])] + PeerLines(peers[1..])
  }

  lemma JoinFour(a: string, b: string, c: string, d: string)
    ensures JoinLines([a, b, c, d]) == a + "\n" + (b + "\n" + (c + "\n" + d))
  {
    assert [c, d][1..] == [d] && JoinLines([c, d]) == c + "\n" + d;
    assert [b, c, d][1..] == [c, d] && JoinLines([b, c, d]) == b + "\n" + (c + "\n" + d);
    assert [a, b, c, d][1..] == [b, c, d];
  }

  lemma BlockLines(head: seq<string>, p: Peer)
    requires head != []
    ensures JoinLines(head) + "\n" + Block(p) == JoinLines(head + ["", "[Peer]", KeyLine(p), IpsLine(p)]) + "\n"
  {
    var k, i := KeyLine(p), IpsLine(p);
    JoinConcat(head, ["", "[Peer]", k, i]);
    JoinFour("", "[Peer]", k, i);
    assert "\n[Peer]\n" == "" + "\n" + ("[Peer]" + "\n");
    assert Block(p) == "" + "\n" + ("[Peer]" + "\n" + (k + "\n" + i)) + "\n";
  }

  lemma {:induction false} BlocksAreLines(head: seq<string>, peers: seq<Peer>)
    requires head != []
    ensures JoinLines(head) + "\n" + Blocks(peers) == JoinLines(head + PeerLines(peers)) + "\n"
    decreases |peers|
  {
    if peers == [] {
      assert head + PeerLines(peers) == head;
    } else {
      var p, rest := peers[0], peers[1..];
      var here := ["", "[Peer]", KeyLine(p), IpsLine(p)];
      BlockLines(head, p);
      BlocksAreLines(head + here, rest);
      Regroup(JoinLines(head) + "\n", Block(p), Blocks(rest));
      RegroupLines(head, here, PeerLines(rest));
    }
  }

  lemma Regroup(a: string, b: string, c: string)
    ensures a + (b + c) == (a + b) + c
  {
  }

  lemma RegroupLines(a: seq<string>, b: seq<string>, c: seq<string>)
    ensures a + (b + c) == (a + b) + c
  {
  }

  /** The head of a rendered file: the section's lines, or one empty line. */
  function Head(lines: seq<string>): seq<string> {
    if lines == [] then [""] else lines
  }

  lemma HeadJoins(lines: seq<string>)
    ensures JoinLines(Head(lines)) == JoinLines(lines)
  {
  }

  lemma {:induction false} PeerLinesOneLine(peers: seq<Peer>)
    requires forall p :: p in peers ==> OneLine(KeyLine(p)) && OneLine(IpsLine(p))
    ensures AllOneLine(PeerLines(peers))
  {
    if peers != [] {
      assert peers[0] in peers;
      PeerLinesOneLine(peers[1..]);
    }
  }

  lemma {:induction false} JoinedOneLine(parts: seq<string>, separator: string)
    requires OneLine(separator) && forall p :: p in parts ==> OneLine(p)
    ensures OneLine(JoinWith(parts, separator))
  {
    if |parts| > 0 {
      assert parts[0] in parts;
      if |parts| > 1 {
        JoinedOneLine(parts[1..], separator);
      }
    }
  }

  lemma CleanPeerLines(p: Peer)
    requires CleanPeer(p)
    ensures OneLine(KeyLine(p)) && OneLine(IpsLine(p))
  {
    JoinedOneLine(p.allowedIps, ", ");
  }

  /** The file, split into lines again. */
  lemma RenderedLines(lines: seq<string>, peers: seq<Peer>)
    requires Clean(lines) && Trimmed(lines) == lines && forall p :: p in peers ==> CleanPeer(p)
    ensures SplitLines(Render(JoinLines(lines) + "\n", peers)) == Head(lines) + PeerLines(SortBy(peers, PeerKey))
  {
    var sorted := SortBy(peers, PeerKey);
    forall p | p in sorted
      ensures OneLine(KeyLine(p)) && OneLine(IpsLine(p))
    {
      SortByMember(peers, PeerKey, p);
      CleanPeerLines(p);
    }
    PeerLinesOneLine(sorted);
    RStripBlankTail(JoinLines(lines), "\n");
    RStripJoined(lines);
    HeadJoins(lines);
    BlocksAreLines(Head(lines), sorted);
    SplitJoined(Head(lines) + PeerLines(sorted));
  }

  // ----- the interface section comes back -----

  lemma {:induction false} PeerLinesHoldNoInterface(peers: seq<Peer>, inside: bool)
    ensures InterfaceLines(PeerLines(peers), inside) == if inside && peers != [] then [""] else []
    decreases |peers|
  {
    if peers != [] {
      var p, rest := peers[0], peers[1..];
      var lines := PeerLines(peers);
      PeerLinesHoldNoInterface(rest, false);
      KeywordsAreNoHeaders(p);
      assert lines[1..] == ["[Peer]", KeyLine(p), IpsLine(p)] + PeerLines(rest);
      assert lines[1..][1..] == [KeyLine(p), IpsLine(p)] + PeerLines(rest);
      assert lines[1..][1..][1..] == [IpsLine(p)] + PeerLines(rest);
      assert lines[1..][1..][1..][1..] == PeerLines(rest);
      assert RStrip("") == "" && Stripped("") == "";
      assert InterfaceLines(lines[1..][1..][1..], false) == [];
      assert InterfaceLines(lines[1..][1..], false) == [];
      assert InterfaceLines(lines[1..], inside) == [];
    }
  }

  lemma {:induction false} StrippedFirst(s: string)
    requires s != "" && !Blank(s[0])
    ensures Stripped(s) != "" && Stripped(s)[0] == s[0]
    decreases |s|
  {
    if |s| > 1 && Blank(s[|s| - 1]) {
      StrippedFirst(s[..|s| - 1]);
    }
  }

  lemma KeywordsAreNoHeaders(p: Peer)
    ensures !StartsSection(Stripped(KeyLine(p))) && !StartsSection(Stripped(IpsLine(p)))
    ensures Stripped(KeyLine(p)) != "" && Stripped(IpsLine(p)) != ""
    ensures Stripped("[Peer]") == "[Peer]" && !IsInterface("[Peer]") && IsPeer("[Peer]")
  {
    StrippedFirst(KeyLine(p));
    StrippedFirst(IpsLine(p));
    StrippedNothing("[Peer]");
    assert Lowercase("[Peer]")[1] == 'p' && "[interface]"[1] == 'i';
    assert Lowercase("[Peer]") == "[peer]";
  }

  lemma TrimmedOneMore(lines: seq<string>)
    requires Trimmed(lines) == lines
    ensures Trimmed(lines + [""]) == lines
  {
    assert (lines + [""])[..|lines|] == lines;
  }

  /** The section, and the lines it is made of. */
  lemma SectionLines(config: string) returns (lines: seq<string>)
    ensures SectionOf(config) == JoinLines(lines) + "\n"
    ensures Clean(lines) && Trimmed(lines) == lines && InterfaceLines(lines, false) == lines
  {
    var all := InterfaceLines(SplitLines(config), false);
    SplitIsOneLine(config);
    InterfaceLinesClean(SplitLines(config), false);
    InterfaceLinesTwice(SplitLines(config), false);
    TrimmedReadsBack(all);
    TrimmedPrefix(all);
    RStripJoined(all);
    lines := Trimmed(all);
  }

  /** Parsing a rendered configuration gives the interface section it was rendered with. */
  lemma SectionRoundTrip(config: string, peers: seq<Peer>)
    requires forall p :: p in peers ==> CleanPeer(p)
    ensures SectionOf(Render(SectionOf(config), peers)) == SectionOf(config)
  {
    var lines := SectionLines(config);
    var sorted := SortBy(peers, PeerKey);
    RenderedLines(lines, peers);
    InterfaceLinesConcat(Head(lines), PeerLines(sorted), false);
    PeerLinesHoldNoInterface(sorted, InsideAfter(Head(lines), false));
    assert Stripped("") == "";
    assert InterfaceLines(Head(lines), false) == lines;
    var again := InterfaceLines(SplitLines(Render(SectionOf(config), peers)), false);
    assert again == lines || again == lines + [""];
    RStripJoined(again);
    TrimmedOneMore(lines);
  }
}
