/**
 What the interface section of a configuration holds, line by line: the header, and behind it
 everything up to the next section, the private key with it.
 */
module WireGuardSection {
  import opened Wrappers
  import opened Ordering
  import opened Grammar
  import opened Text
  import opened WireGuardConfig
  import opened WireGuardRoundTrip

  // ----- headers -----

  /** The text in small letters, capitals allowed. */
  predicate AnyCase(t: string, small: string) {
    |t| == |small| && forall i :: 0 <= i < |t| ==> t[i] == small[i] || exists k :: 0 <= k < 26 && small[i] == SMALL[k] && t[i] == CAPITALS[k]
  }

  lemma LowerCharIs(t: string, i: nat, c: char)
    requires i < |t| && !Upper(c)
    ensures Lowercase(t)[i] == c <==> t[i] == c || exists k :: 0 <= k < 26 && c == SMALL[k] && t[i] == CAPITALS[k]
  {
    LowercaseMeans(t, i);
    CapitalAt(c);
    CapitalAt(t[i]);
    if t[i] in CAPITALS {
      assert CAPITALS[t[i] as int - 65] == t[i];
    }
  }

  /** Lower case is found in any case. */
  lemma LowercaseIs(t: string, small: string)
    requires forall i :: 0 <= i < |small| ==> !Upper(small[i])
    ensures Lowercase(t) == small <==> AnyCase(t, small)
  {
    forall i | 0 <= i < |t| && |t| == |small|
      ensures Lowercase(t)[i] == small[i]
         <==> t[i] == small[i] || exists k :: 0 <= k < 26 && small[i] == SMALL[k] && t[i] == CAPITALS[k]
    {
      LowerCharIs(t, i, small[i]);
    }
  }

  lemma HeadersMean(t: string)
    ensures IsInterface(t) <==> AnyCase(t, "[interface]")
  {
    LowercaseIs(t, "[interface]");
  }

  lemma PeerHeadersMean(t: string)
    ensures IsPeer(t) <==> AnyCase(t, "[peer]")
  {
    LowercaseIs(t, "[peer]");
  }

  // ----- rendering -----

  lemma BlockMeans(p: Peer)
    ensures Block(p) == "\n[Peer]\n" + "PublicKey = " + p.publicKey + "\nAllowedIPs = " + JoinWith(p.allowedIps, ", ") + "\n"
  {
  }

  /** A file is the section and the block of every peer, once each, by public key in code point order. */
  lemma RenderMeans(section: string, peers: seq<Peer>) returns (ordered: seq<Peer>)
    ensures multiset(ordered) == multiset(peers)
    ensures forall i, j :: 0 <= i < j < |ordered| ==> TextLeq(ordered[i].publicKey, ordered[j].publicKey)
    ensures Render(section, peers) == RStrip(section) + "\n" + Blocks(ordered)
  {
    ordered := SortBy(peers, PeerKey);
    SortByPermutes(peers, PeerKey);
    SortBySorted(peers, PeerKey);
    forall i, j | 0 <= i < j < |ordered|
      ensures TextLeq(ordered[i].publicKey, ordered[j].publicKey)
    {
      TextOrder(ordered[i].publicKey, ordered[j].publicKey);
    }
  }

  // ----- lines -----

  /** A line that starts a section, once blanks are taken off, and one that starts the interface. */
  predicate Starts(line: string) { Stripped(line) != "" && Stripped(line)[0] == '[' }

  predicate StartsInterface(line: string) { AnyCase(Stripped(line), "[interface]") }

  // ----- the lines of a section -----

  lemma {:induction false} RStripMeans(s: string) returns (blanks: string)
    ensures s == RStrip(s) + blanks && AllBlank(blanks)
    ensures RStrip(s) != "" ==> RStrip(s)[|RStrip(s)| - 1] !in " \n\t\r"
    decreases |s|
  {
    if s != "" && Blank(s[|s| - 1]) {
      blanks := RStripMeans(s[..|s| - 1]);
      blanks := blanks + [s[|s| - 1]];
      assert s == s[..|s| - 1] + [s[|s| - 1]];
    } else {
      blanks := "";
    }
  }

  function RightTrimmed(lines: seq<string>): seq<string> {
    seq(|lines|, i requires 0 <= i < |lines| => RStrip(lines[i]))
  }

  lemma {:induction false} BodyKept(body: seq<string>)
    requires forall l :: l in body ==> !Starts(l)
    ensures InterfaceLines(body, true) == RightTrimmed(body) && InsideAfter(body, true)
    decreases |body|
  {
    if body != [] {
      assert body[0] in body;
      BodyKept(body[1..]);
      assert RightTrimmed(body) == [RStrip(body[0])] + RightTrimmed(body[1..]);
    }
  }

  lemma {:induction false} OthersDropped(lines: seq<string>)
    requires forall l :: l in lines ==> !StartsInterface(l)
    ensures InterfaceLines(lines, false) == [] && !InsideAfter(lines, false)
    decreases |lines|
  {
    if lines != [] {
      assert lines[0] in lines;
      HeadersMean(Stripped(lines[0]));
      OthersDropped(lines[1..]);
    }
  }

  /** One interface section, among others: kept are its header and its lines, blanks taken off, in order, and nothing else. */
  lemma SectionHolds(before: seq<string>, header: string, body: seq<string>, rest: seq<string>)
    requires StartsInterface(header)
    requires forall l :: l in before || l in rest ==> !StartsInterface(l)
    requires forall l :: l in body ==> !Starts(l)
    requires rest != [] ==> Starts(rest[0])
    ensures InterfaceLines(before + ([header] + (body + rest)), false) == [Stripped(header)] + RightTrimmed(body)
  {
    OthersDropped(before);
    InterfaceLinesConcat(before, [header] + (body + rest), false);
    HeaderStarts(header);
    assert ([header] + (body + rest))[1..] == body + rest;
    BodyKept(body);
    InterfaceLinesConcat(body, rest, true);
    if rest != [] {
      HeadersMean(Stripped(rest[0]));
      assert rest[0] in rest;
      OthersDropped(rest);
      assert InterfaceLines(rest, true) == InterfaceLines(rest, false);
    }
  }

  lemma HeaderStarts(header: string)
    requires StartsInterface(header)
    ensures Starts(header) && IsInterface(Stripped(header))
  {
    HeadersMean(Stripped(header));
    assert "[interface]"[0] == '[';
  }

  // ----- the section as text -----

  lemma {:induction false} TrimmedKeeps(lines: seq<string>, l: string)
    requires l in lines && l != ""
    ensures l in Trimmed(lines)
    decreases |lines|
  {
    if lines[|lines| - 1] == "" {
      assert lines == lines[..|lines| - 1] + [""];
      TrimmedKeeps(lines[..|lines| - 1], l);
    }
  }

  /** The lines of the section are the lines kept, but for empty ones at the end. */
  lemma SectionReads(config: string)
    ensures var kept := Trimmed(InterfaceLines(SplitLines(config), false));
            kept != [] ==> SplitLines(SectionOf(config)) == kept
  {
    var kept := InterfaceLines(SplitLines(config), false);
    SplitIsOneLine(config);
    InterfaceLinesClean(SplitLines(config), false);
    assert RightStripped(kept) by {
      assert forall l :: l in kept ==> CleanLine(l);
    }
    RStripJoined(kept);
    TrimmedPrefix(kept);
    if Trimmed(kept) != [] {
      assert AllOneLine(Trimmed(kept)) by {
        assert forall l :: l in Trimmed(kept) ==> l in kept;
        assert forall l :: l in kept ==> CleanLine(l);
      }
      SplitJoined(Trimmed(kept));
    }
  }

  /** A line of the section is a line of the section text. */
  lemma KeptIsWritten(config: string, l: string)
    requires l in InterfaceLines(SplitLines(config), false) && l != ""
    ensures l in SplitLines(SectionOf(config))
  {
    TrimmedKeeps(InterfaceLines(SplitLines(config), false), l);
    SectionReads(config);
  }

  lemma BodyIsWritten(config: string, before: seq<string>, header: string, body: seq<string>, rest: seq<string>, line: string)
    requires SplitLines(config) == before + ([header] + (body + rest)) && StartsInterface(header)
    requires forall l :: l in before || l in rest ==> !StartsInterface(l)
    requires forall l :: l in body ==> !Starts(l)
    requires rest != [] ==> Starts(rest[0])
    requires line in body && line != "" && RStrip(line) == line
    ensures line in SplitLines(SectionOf(config))
  {
    var i :| 0 <= i < |body| && body[i] == line;
    SectionHolds(before, header, body, rest);
    assert RightTrimmed(body)[i] == line;
    assert ([Stripped(header)] + RightTrimmed(body))[1 + i] == line;
    KeptIsWritten(config, line);
  }

  /**
   A sync keeps every line of the interface section, whatever peers are asked for and whatever
   `wg` answers: the private key stays where it was.
   */
  method LineStays(wg: Interface, before: seq<string>, header: string, body: seq<string>, rest: seq<string>, line: string,
                   peers: seq<Peer>, shown: bool, synced: bool)
    returns (r: Result<bool, SyncError>)
    requires SplitLines(wg.config) == before + ([header] + (body + rest)) && StartsInterface(header)
    requires forall l :: l in before || l in rest ==> !StartsInterface(l)
    requires forall l :: l in body ==> !Starts(l)
    requires rest != [] ==> Starts(rest[0])
    requires line in body && line != "" && RStrip(line) == line
    requires forall p :: p in peers ==> CleanPeer(p)
    modifies wg
    ensures line in SplitLines(SectionOf(wg.config)) && SectionOf(wg.config) == old(SectionOf(wg.config))
  {
    BodyIsWritten(wg.config, before, header, body, rest, line);
    SectionRoundTrip(wg.config, peers);
    r := wg.Sync(peers, shown, synced);
  }

  /** What `wg showconf` prints of an interface with a key, a port and one peer. */
  lemma PrivateKeyKept(key: string)
    requires OneLine(key) && key != "" && !Blank(key[|key| - 1])
    ensures InterfaceLines(["[Interface]", "ListenPort = 51820", "PrivateKey = " + key, "", "[Peer]", "PublicKey = p"], false)
         == ["[Interface]", "ListenPort = 51820", "PrivateKey = " + key, ""]
  {
    var line := "PrivateKey = " + key;
    var body, rest := ["ListenPort = 51820", line, ""], ["[Peer]", "PublicKey = p"];
    KeyLineIsPlain(key);
    PlainLines();
    SectionHolds([], "[Interface]", body, rest);
    assert [] + (["[Interface]"] + (body + rest)) == ["[Interface]", "ListenPort = 51820", line, "", "[Peer]", "PublicKey = p"];
    assert RightTrimmed(body) == body;
  }

  lemma KeyLineIsPlain(key: string)
    requires key != "" && !Blank(key[|key| - 1])
    ensures var line := "PrivateKey = " + key; Stripped(line) == line && RStrip(line) == line && !Starts(line)
  {
    var line := "PrivateKey = " + key;
    assert line[0] == 'P' && line[|line| - 1] == key[|key| - 1];
    StrippedNothing(line);
  }

  lemma PlainLines()
    ensures StartsInterface("[Interface]") && Starts("[Peer]") && !StartsInterface("[Peer]") && !StartsInterface("PublicKey = p")
    ensures !Starts("ListenPort = 51820") && RStrip("ListenPort = 51820") == "ListenPort = 51820"
    ensures !Starts("") && RStrip("") == ""
  {
    StrippedNothing("[Interface]");
    StrippedNothing("[Peer]");
    StrippedNothing("PublicKey = p");
    StrippedNothing("ListenPort = 51820");
    assert SMALL[8] == 'i' && CAPITALS[8] == 'I';
  }
}
