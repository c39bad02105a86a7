/**
 The peer sections of a rendered configuration are those of the requested peers, each telling
 its peer apart from every other, so comparing sections is comparing peers.
 */
module WireGuardPeers {
  import opened Wrappers
  import opened Ordering
  import opened Text
  import opened WireGuardConfig
  import opened WireGuardRoundTrip

  // ----- one line, normalised -----

  lemma EqualsFound(key: string, value: string)
    requires forall i :: 0 <= i < |key| ==> key[i] != '='
    ensures EqualsAt(key + "=" + value) == |key|
  {
    var s := key + "=" + value;
    assert s[|key|] == '=';
    assert forall i :: 0 <= i < |key| ==> s[i] == key[i];
  }

  lemma CommaSplits(part: string, rest: string)
    requires forall i :: 0 <= i < |part| ==> part[i] != ','
    ensures SplitCommas(part + "," + rest) == [part] + SplitCommas(rest)
  {
    var s := part + "," + rest;
    assert s[|part|] == ',';
    assert forall i :: 0 <= i < |part| ==> s[i] == part[i];
    assert CommaAt(s) == |part|;
    assert s[..|part|] == part && s[|part| + 1..] == rest;
  }

  lemma NoComma(part: string)
    requires forall i :: 0 <= i < |part| ==> part[i] != ','
    ensures SplitCommas(part) == [part]
  {
  }

  lemma TokenStripped(s: string)
    requires Token(s)
    ensures Stripped(" " + s) == s && Stripped(s) == s
  {
    StrippedNothing(s);
    assert (" " + s)[1..] == s;
  }

  lemma PartsOf(piece: string, pieces: seq<string>)
    ensures Parts([piece] + pieces) == (if Stripped(piece) != "" then [Stripped(piece)] else []) + Parts(pieces)
  {
    assert ([piece] + pieces)[1..] == pieces;
  }

  predicate Tokens(parts: seq<string>) {
    parts == [] || (Token(parts[0]) && Tokens(parts[1..]))
  }

  lemma {:induction false} TokensOne(parts: seq<string>)
    requires forall p :: p in parts ==> Token(p)
    ensures Tokens(parts)
  {
    if parts != [] {
      assert parts[0] in parts;
      TokensOne(parts[1..]);
    }
  }

  lemma ListEnd(last: string)
    requires Token(last)
    ensures Parts(SplitCommas(" " + last)) == [last]
  {
    TokenStripped(last);
    NoComma(" " + last);
    assert [" " + last] == [" " + last] + [];
    PartsOf(" " + last, []);
  }

  lemma ListStep(first: string, tail: string)
    requires Token(first)
    ensures Parts(SplitCommas((" " + first) + "," + tail)) == [first] + Parts(SplitCommas(tail))
  {
    TokenStripped(first);
    CommaSplits(" " + first, tail);
    PartsOf(" " + first, SplitCommas(tail));
  }

  lemma SpaceMoves(first: string, joined: string)
    ensures " " + (first + ", " + joined) == (" " + first) + "," + (" " + joined)
  {
  }

  lemma JoinStep(parts: seq<string>, separator: string)
    requires |parts| > 1
    ensures JoinWith(parts, separator) == parts[0] + separator + JoinWith(parts[1..], separator)
  {
  }

  /** A blank before each part, as written between commas, is lost in reading. */
  lemma {:induction false} ListReadsBack(parts: seq<string>)
    requires parts != [] && Tokens(parts)
    ensures Parts(SplitCommas(" " + JoinWith(parts, ", "))) == parts
    decreases |parts|
  {
    var first, rest := parts[0], parts[1..];
    if rest == [] {
      ListEnd(first);
    } else {
      var joined := JoinWith(rest, ", ");
      ListReadsBack(rest);
      ListStep(first, " " + joined);
      JoinStep(parts, ", ");
      SpaceMoves(first, joined);
    }
  }

  lemma KeyNames()
    ensures Lowercase(Stripped("PublicKey ")) == "publickey"
    ensures Lowercase(Stripped("AllowedIPs ")) == "allowedips"
  {
    assert "PublicKey "[..9] == "PublicKey" && "AllowedIPs "[..10] == "AllowedIPs";
    StrippedNothing("PublicKey");
    StrippedNothing("AllowedIPs");
    StrippedDropsTail("PublicKey ");
    StrippedDropsTail("AllowedIPs ");
    assert Lowercase("PublicKey") == "publickey" && Lowercase("AllowedIPs") == "allowedips";
  }

  /** What stands before the equals sign, and how it reads. */
  predicate KeyReads(key: string, name: string) {
    && key != "" && !Blank(key[0]) && (forall i :: 0 <= i < |key| ==> key[i] != '=')
    && Lowercase(Stripped(key)) == name
  }

  lemma KeysRead()
    ensures KeyReads("PublicKey ", "publickey") && KeyReads("AllowedIPs ", "allowedips")
  {
    KeyNames();
  }

  function KeyEntry(p: Peer): string { "publickey=" + p.publicKey }

  function IpsEntry(p: Peer): string { "allowedips=" + JoinWith(p.allowedIps, ",") }

  lemma {:induction false} JoinedEnds(parts: seq<string>)
    requires parts != [] && Tokens(parts)
    ensures JoinWith(parts, ", ") != "" && !Blank(JoinWith(parts, ", ")[|JoinWith(parts, ", ")| - 1])
    decreases |parts|
  {
    if |parts| > 1 {
      JoinedEnds(parts[1..]);
    }
  }

  /** A key, an equals sign and a list, as they are written. */
  lemma FieldReadsBack(key: string, name: string, parts: seq<string>)
    requires KeyReads(key, name)
    requires parts != [] && Tokens(parts)
    ensures Normal(Stripped(key + "=" + (" " + JoinWith(parts, ", ")))) == name + "=" + JoinWith(parts, ",")
  {
    var list := JoinWith(parts, ", ");
    var line := key + "=" + (" " + list);
    JoinedEnds(parts);
    assert line[0] == key[0] && line[|line| - 1] == list[|list| - 1];
    StrippedNothing(line);
    EqualsFound(key, " " + list);
    assert line[..|key|] == key && line[|key| + 1..] == " " + list;
    ListReadsBack(parts);
  }

  lemma KeyLineReadsBack(p: Peer)
    requires CleanPeer(p)
    ensures Normal(Stripped(KeyLine(p))) == KeyEntry(p)
  {
    var key := p.publicKey;
    assert JoinWith([key], ", ") == key && JoinWith([key], ",") == key;
    assert KeyLine(p) == "PublicKey " + "=" + (" " + key);
    assert KeyEntry(p) == "publickey" + "=" + key;
    assert Normal(Stripped(KeyLine(p))) == "publickey" + "=" + key by {
      KeysRead();
      TokensOne([key]);
      FieldReadsBack("PublicKey ", "publickey", [key]);
    }
  }

  lemma EmptyField(key: string)
    requires forall i :: 0 <= i < |key| ==> key[i] != '='
    ensures Normal(key + "=") == Lowercase(Stripped(key)) + "="
  {
    var t := key + "=";
    assert t == key + "=" + "";
    EqualsFound(key, "");
    assert t[..|key|] == key && t[|key| + 1..] == "";
    NothingListed();
  }

  lemma NothingListed()
    ensures JoinWith(Parts(SplitCommas("")), ",") == ""
  {
    NoComma("");
    assert [""] == [""] + [] && Stripped("") == "";
    PartsOf("", []);
  }

  lemma NoIpsReadBack()
    ensures Normal(Stripped("AllowedIPs = ")) == "allowedips="
  {
    var line := "AllowedIPs = ";
    assert line[..|line| - 1] == "AllowedIPs =";
    StrippedDropsTail(line);
    StrippedNothing("AllowedIPs =");
    assert "AllowedIPs =" == "AllowedIPs " + "=";
    EmptyField("AllowedIPs ");
    KeyNames();
  }

  lemma IpsFieldWritten(list: string)
    ensures "AllowedIPs = " + list == "AllowedIPs " + "=" + (" " + list)
  {
  }

  lemma IpsFieldReadsBack(parts: seq<string>)
    requires parts != [] && Tokens(parts)
    ensures Normal(Stripped("AllowedIPs " + "=" + (" " + JoinWith(parts, ", ")))) == "allowedips" + "=" + JoinWith(parts, ",")
  {
    KeysRead();
    FieldReadsBack("AllowedIPs ", "allowedips", parts);
  }

  lemma IpsReadBack(p: Peer)
    requires CleanPeer(p) && p.allowedIps != []
    ensures Normal(Stripped(IpsLine(p))) == IpsEntry(p)
  {
    TokensOne(p.allowedIps);
    IpsFieldReadsBack(p.allowedIps);
    IpsFieldWritten(JoinWith(p.allowedIps, ", "));
  }

  lemma IpsLineReadsBack(p: Peer)
    requires CleanPeer(p)
    ensures Normal(Stripped(IpsLine(p))) == IpsEntry(p)
  {
    if p.allowedIps == [] {
      assert IpsLine(p) == "AllowedIPs = " && IpsEntry(p) == "allowedips=";
      NoIpsReadBack();
    } else {
      IpsReadBack(p);
    }
  }

  // ----- the sections of a file -----

  /** What one peer contributes. */
  function Entry(p: Peer): seq<string> {
    SortBy([KeyEntry(p), IpsEntry(p)], TextKey)
  }

  ghost function Entries(peers: seq<Peer>): set<seq<string>> {
    set p | p in peers :: Entry(p)
  }

  /** Interface lines hold no peer. */
  lemma {:induction false} HeadHoldsNoPeer(head: seq<string>, rest: seq<string>)
    requires Clean(head)
    ensures Sections(head + rest, false, []) == Sections(rest, false, [])
    decreases |head|
  {
    if head == [] {
      assert head + rest == rest;
    } else {
      var l := head[0];
      assert CleanLine(l);
      assert (head + rest)[0] == l && (head + rest)[1..] == head[1..] + rest;
      assert IsInterface(Stripped(l)) ==> !IsPeer(Stripped(l)) by {
        assert "[interface]"[1] != "[peer]"[1];
      }
      HeadHoldsNoPeer(head[1..], rest);
    }
  }

  lemma HeaderStep(rest: seq<string>, inPeer: bool, current: seq<string>)
    ensures Sections([""] + (["[Peer]"] + rest), inPeer, current) == Flushed(inPeer, current) + Sections(rest, true, [])
  {
    var l1 := ["[Peer]"] + rest;
    assert ([""] + l1)[1..] == l1 && l1[1..] == rest;
    assert Stripped("") == "";
    PeerHeader();
    assert Sections(l1, inPeer, current) == Flushed(inPeer, current) + Sections(rest, true, []);
  }

  lemma PeerHeader()
    ensures Stripped("[Peer]") == "[Peer]" && IsPeer("[Peer]") && StartsSection("[Peer]")
  {
    KeywordsAreNoHeaders(Peer("", []));
  }

  lemma LineStep(line: string, rest: seq<string>, current: seq<string>)
    requires Stripped(line) != "" && !StartsSection(Stripped(line))
    ensures Sections([line] + rest, true, current) == Sections(rest, true, current + [Normal(Stripped(line))])
  {
    assert ([line] + rest)[1..] == rest;
  }

  /** A block ends the one before it, and leaves its own two lines to be flushed. */
  lemma BlockSections(p: Peer, rest: seq<string>, inPeer: bool, current: seq<string>)
    requires CleanPeer(p)
    ensures Sections(["", "[Peer]", KeyLine(p), IpsLine(p)] + rest, inPeer, current)
         == Flushed(inPeer, current) + Sections(rest, true, [KeyEntry(p), IpsEntry(p)])
  {
    var k, i := KeyLine(p), IpsLine(p);
    assert ["", "[Peer]", k, i] + rest == [""] + (["[Peer]"] + ([k] + ([i] + rest)));
    KeywordsAreNoHeaders(p);
    KeyLineReadsBack(p);
    IpsLineReadsBack(p);
    HeaderStep([k] + ([i] + rest), inPeer, current);
    LineStep(k, [i] + rest, []);
    LineStep(i, rest, [] + [KeyEntry(p)]);
    assert [] + [KeyEntry(p)] + [IpsEntry(p)] == [KeyEntry(p), IpsEntry(p)];
  }

  lemma {:induction false} PeersSections(peers: seq<Peer>, inPeer: bool, current: seq<string>)
    requires forall p :: p in peers ==> CleanPeer(p)
    ensures Sections(PeerLines(peers), inPeer, current) == Flushed(inPeer, current) + Entries(peers)
    decreases |peers|
  {
    if peers != [] {
      var p, rest := peers[0], peers[1..];
      assert p in peers && peers == [p] + rest;
      BlockSections(p, PeerLines(rest), inPeer, current);
      PeersSections(rest, true, [KeyEntry(p), IpsEntry(p)]);
      assert Entries(peers) == {Entry(p)} + Entries(rest);
    }
  }

  /** The peer sections of a rendered file are those of the peers it was rendered for, and no others. */
  lemma RenderedSections(config: string, peers: seq<Peer>)
    requires forall p :: p in peers ==> CleanPeer(p)
    ensures PeerSections(Render(SectionOf(config), peers)) == Entries(peers)
  {
    var lines := SectionLines(config);
    var sorted := SortBy(peers, PeerKey);
    RenderedLines(lines, peers);
    forall p
      ensures p in sorted <==> p in peers
    {
      SortByMember(peers, PeerKey, p);
    }
    assert Clean(Head(lines)) by {
      if lines == [] {
        assert Stripped("") == "";
      }
    }
    HeadHoldsNoPeer(Head(lines), PeerLines(sorted));
    PeersSections(sorted, false, []);
    assert Entries(sorted) == Entries(peers);
  }

  // ----- sections tell peers apart -----

  lemma ListInjective(a: seq<string>, b: seq<string>)
    requires Tokens(a) && Tokens(b)
    requires JoinWith(a, ",") == JoinWith(b, ",")
    ensures a == b
  {
    NotEmptyJoined(a);
    NotEmptyJoined(b);
    if a != [] {
      SplitJoinedCommas(a);
      SplitJoinedCommas(b);
    }
  }

  lemma NotEmptyJoined(parts: seq<string>)
    requires Tokens(parts)
    ensures JoinWith(parts, ",") == "" <==> parts == []
  {
  }

  lemma {:induction false} SplitJoinedCommas(parts: seq<string>)
    requires parts != [] && Tokens(parts)
    ensures SplitCommas(JoinWith(parts, ",")) == parts
    decreases |parts|
  {
    var first, rest := parts[0], parts[1..];
    if rest == [] {
      NoComma(first);
    } else {
      SplitJoinedCommas(rest);
      CommaSplits(first, JoinWith(rest, ","));
      JoinStep(parts, ",");
    }
  }

  lemma EntryTells(p: Peer, q: Peer)
    requires CleanPeer(p) && CleanPeer(q) && Entry(p) == Entry(q)
    ensures p == q
  {
    SortByMember([KeyEntry(p), IpsEntry(p)], TextKey, KeyEntry(p));
    SortByMember([KeyEntry(q), IpsEntry(q)], TextKey, KeyEntry(p));
    SortByMember([KeyEntry(p), IpsEntry(p)], TextKey, IpsEntry(p));
    SortByMember([KeyEntry(q), IpsEntry(q)], TextKey, IpsEntry(p));
    assert KeyEntry(p)[0] == 'p' && KeyEntry(q)[0] == 'p' && IpsEntry(p)[0] == 'a' && IpsEntry(q)[0] == 'a';
    assert KeyEntry(p) == KeyEntry(q) && IpsEntry(p) == IpsEntry(q);
    assert KeyEntry(p)[10..] == p.publicKey && KeyEntry(q)[10..] == q.publicKey;
    assert IpsEntry(p)[11..] == JoinWith(p.allowedIps, ",") && IpsEntry(q)[11..] == JoinWith(q.allowedIps, ",");
    TokensOne(p.allowedIps);
    TokensOne(q.allowedIps);
    ListInjective(p.allowedIps, q.allowedIps);
  }

  ghost function PeerSet(peers: seq<Peer>): set<Peer> { set p | p in peers }

  /** A sync against a file that was rendered is skipped exactly when the peers are the same. */
  lemma SkippedExactlyWhenSame(config: string, have: seq<Peer>, want: seq<Peer>)
    requires (forall p :: p in have ==> CleanPeer(p)) && (forall p :: p in want ==> CleanPeer(p))
    ensures var current := Render(SectionOf(config), have);
            PeerSections(current) == PeerSections(Render(SectionOf(current), want)) <==> PeerSet(have) == PeerSet(want)
  {
    var current := Render(SectionOf(config), have);
    RenderedSections(config, have);
    RenderedSections(current, want);
    if Entries(have) == Entries(want) {
      SameEntries(have, want);
      SameEntries(want, have);
      assert PeerSet(have) == PeerSet(want);
    }
    if PeerSet(have) == PeerSet(want) {
      forall p
        ensures p in have <==> p in want
      {
        assert p in have <==> p in PeerSet(have);
        assert p in want <==> p in PeerSet(want);
      }
      assert Entries(have) == Entries(want);
    }
  }

  lemma SameEntries(a: seq<Peer>, b: seq<Peer>)
    requires (forall p :: p in a ==> CleanPeer(p)) && (forall p :: p in b ==> CleanPeer(p))
    requires Entries(a) <= Entries(b)
    ensures forall p :: p in a ==> p in b
  {
    forall p | p in a
      ensures p in b
    {
      assert Entry(p) in Entries(a);
      var q :| q in b && Entry(q) == Entry(p);
      EntryTells(p, q);
    }
  }

  /** A second sync of the same peers finds nothing to do, whether `wg` would take it or not, and the private part is as it was. */
  method SyncTwice(wg: Interface, peers: seq<Peer>, shown: bool, synced: bool)
    returns (first: Result<bool, SyncError>, second: Result<bool, SyncError>, ghost between: string)
    requires forall p :: p in peers ==> CleanPeer(p)
    modifies wg
    ensures first == Ok(PeerSections(old(wg.config)) != Entries(peers))
    ensures second == if shown then Ok(false) else Err(ShowFailed)
    ensures wg.config == between && between == if first.value then Render(SectionOf(old(wg.config)), peers) else old(wg.config)
    ensures SectionOf(wg.config) == old(SectionOf(wg.config))
    ensures PeerSections(wg.config) == Entries(peers)
  {
    ghost var before := wg.config;
    RenderedSections(before, peers);
    SectionRoundTrip(before, peers);
    first := wg.Sync(peers, true, true);
    between := wg.config;
    RenderedSections(between, peers);
    second := wg.Sync(peers, shown, synced);
  }
}
