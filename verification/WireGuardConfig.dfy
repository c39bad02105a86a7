/**
 The WireGuard configuration of the gateway: its interface section is read back from the
 running interface, its peer sections are written from the control plane.

 Lines end in `\n`; the other line breaks Python knows do not occur in `wg showconf`.
 */
module WireGuardConfig {
  import opened Wrappers
  import opened Ordering
  import opened Text

  // ----- lines -----

  function LineEnd(s: string): (n: nat)
    ensures n <= |s| && (n < |s| ==> s[n] == '\n')
    ensures forall i :: 0 <= i < n ==> s[i] != '\n'
  {
    if s == "" || s[0] == '\n' then 0 else 1 + LineEnd(s[1..])
  }

  /** `text.splitlines()`. */
  function SplitLines(s: string): seq<string>
    decreases |s|
  {
    if s == "" then []
    else
      var n := LineEnd(s);
      [s[..n]] + (if n < |s| then SplitLines(s[n + 1..]) else [])
  }

  /** `"\n".join(lines)`. */
  function JoinLines(lines: seq<string>): string {
    if lines == [] then "" else if |lines| == 1 then lines[0] else lines[0] + "\n" + JoinLines(lines[1..])
  }

  /** `text.rstrip()`. */
  function RStrip(s: string): string
    decreases |s|
  {
    if s != "" && Blank(s[|s| - 1]) then RStrip(s[..|s| - 1]) else s
  }

  predicate StartsSection(s: string) { s != "" && s[0] == '[' }

  predicate IsInterface(s: string) { Lowercase(s) == "[interface]" }

  predicate IsPeer(s: string) { Lowercase(s) == "[peer]" }

  // ----- the interface section -----

  /** The lines of the interface blocks, headers included. */
  function InterfaceLines(lines: seq<string>, inside: bool): seq<string>
    decreases |lines|
  {
    if lines == [] then []
    else
      var t := Stripped(lines[0]);
      if StartsSection(t) then (if IsInterface(t) then [t] else []) + InterfaceLines(lines[1..], IsInterface(t))
      else (if inside then [RStrip(lines[0])] else []) + InterfaceLines(lines[1..], inside)
  }

  function SectionOf(config: string): string {
    RStrip(JoinLines(InterfaceLines(SplitLines(config), false))) + "\n"
  }

  /** `interface_section`. */
  method InterfaceSection(config: string) returns (section: string)
    ensures section == SectionOf(config)
  {
    var all := SplitLines(config);
    var lines: seq<string> := [];
    var inside := false;
    for i := 0 to |all|
      invariant lines + InterfaceLines(all[i..], inside) == InterfaceLines(all, false)
    {
      assert all[i..][0] == all[i] && all[i..][1..] == all[i + 1..];
      var t := Stripped(all[i]);
      if StartsSection(t) {
        inside := IsInterface(t);
        if inside {
          lines := lines + [t];
        }
      } else if inside {
        lines := lines + [RStrip(all[i])];
      }
    }
    assert all[|all|..] == [] && lines == InterfaceLines(all, false);
    section := RStrip(JoinLines(lines)) + "\n";
  }

  // ----- rendering -----

  datatype Peer = Peer(publicKey: string, allowedIps: seq<string>)

  function JoinWith(parts: seq<string>, separator: string): string {
    if parts == [] then "" else if |parts| == 1 then parts[0] else parts[0] + separator + JoinWith(parts[1..], separator)
  }

  function KeyLine(p: Peer): string { "PublicKey = " + p.publicKey }

  function IpsLine(p: Peer): string { "AllowedIPs = " + JoinWith(p.allowedIps, ", ") }

  function Block(p: Peer): string { "\n[Peer]\n" + KeyLine(p) + "\n" + IpsLine(p) + "\n" }

  function Blocks(peers: seq<Peer>): string {
    if peers == [] then "" else Block(peers[0]) + Blocks(peers[1..])
  }

  function PeerKey(p: Peer): Key { TextKey(p.publicKey) }

  function Render(section: string, peers: seq<Peer>): string {
    RStrip(section) + "\n" + Blocks(SortBy(peers, PeerKey))
  }

  /** `render_config`. */
  method RenderConfig(section: string, peers: seq<Peer>) returns (config: string)
    ensures config == Render(section, peers)
  {
    var sorted := SortBy(peers, PeerKey);
    config := RStrip(section) + "\n";
    for i := 0 to |sorted|
      invariant config + Blocks(sorted[i..]) == Render(section, peers)
    {
      assert sorted[i..][0] == sorted[i] && sorted[i..][1..] == sorted[i + 1..];
      config := config + Block(sorted[i]);
    }
  }

  // ----- reading peers back -----

  function EqualsAt(s: string): (n: nat)
    ensures n <= |s| && (n < |s| ==> s[n] == '=')
    ensures forall i :: 0 <= i < n ==> s[i] != '='
  {
    if s == "" || s[0] == '=' then 0 else 1 + EqualsAt(s[1..])
  }

  function CommaAt(s: string): (n: nat)
    ensures n <= |s| && (n < |s| ==> s[n] == ',')
    ensures forall i :: 0 <= i < n ==> s[i] != ','
  {
    if s == "" || s[0] == ',' then 0 else 1 + CommaAt(s[1..])
  }

  /** `value.split(",")`. */
  function SplitCommas(s: string): seq<string>
    decreases |s|
  {
    var n := CommaAt(s);
    if n < |s| then [s[..n]] + SplitCommas(s[n + 1..]) else [s]
  }

  function Parts(pieces: seq<string>): seq<string> {
    if pieces == [] then []
    else (if Stripped(pieces[0]) != "" then [Stripped(pieces[0])] else []) + Parts(pieces[1..])
  }

  /** One line of a peer block, normalised. */
  function Normal(line: string): string {
    var n := EqualsAt(line);
    var value := if n < |line| then line[n + 1..] else "";
    Lowercase(Stripped(line[..n])) + "=" + JoinWith(Parts(SplitCommas(value)), ",")
  }

  function Flushed(inPeer: bool, current: seq<string>): set<seq<string>> {
    if inPeer && current != [] then {SortBy(current, TextKey)} else {}
  }

  function Sections(lines: seq<string>, inPeer: bool, current: seq<string>): set<seq<string>>
    decreases |lines|
  {
    if lines == [] then Flushed(inPeer, current)
    else
      var t := Stripped(lines[0]);
      if StartsSection(t) then Flushed(inPeer, current) + Sections(lines[1..], IsPeer(t), [])
      else Sections(lines[1..], inPeer, if inPeer && t != "" then current + [Normal(t)] else current)
  }

  function PeerSections(config: string): set<seq<string>> {
    Sections(SplitLines(config), false, [])
  }

  /** `_peer_sections`. */
  method ReadPeerSections(config: string) returns (sections: set<seq<string>>)
    ensures sections == PeerSections(config)
  {
    var lines := SplitLines(config);
    var current: seq<string> := [];
    var inPeer := false;
    sections := {};
    for i := 0 to |lines|
      invariant sections + Sections(lines[i..], inPeer, current) == PeerSections(config)
    {
      assert lines[i..][0] == lines[i] && lines[i..][1..] == lines[i + 1..];
      var t := Stripped(lines[i]);
      if StartsSection(t) {
        if inPeer && current != [] {
          sections := sections + {SortBy(current, TextKey)};
        }
        current := [];
        inPeer := IsPeer(t);
      } else if inPeer && t != "" {
        current := current + [Normal(t)];
      }
    }
    if inPeer && current != [] {
      sections := sections + {SortBy(current, TextKey)};
    }
  }

  // ----- the interface -----

  datatype SyncError = ShowFailed | SyncFailed

  class Interface {
    /** What `wg showconf` prints. */
    var config: string

    constructor (config: string)
      ensures this.config == config
    {
      this.config := config;
    }

    /** `sync`: whether anything changed. An accepted configuration reads back as it was written. */
    method Sync(peers: seq<Peer>, shown: bool, synced: bool) returns (r: Result<bool, SyncError>)
      modifies this
      ensures r == Err(ShowFailed) <==> !shown
      ensures r.Ok? ==> (r.value <==> PeerSections(old(config)) != PeerSections(Render(SectionOf(old(config)), peers)))
      ensures r == Ok(true) ==> synced && config == Render(SectionOf(old(config)), peers)
      ensures shown && synced ==> r.Ok?
      ensures shown && PeerSections(old(config)) == PeerSections(Render(SectionOf(old(config)), peers)) ==> r.Ok?
      ensures r != Ok(true) ==> config == old(config)
    {
      if !shown {
        return Err(ShowFailed);
      }
      var section := InterfaceSection(config);
      var desired := RenderConfig(section, peers);
      var have := ReadPeerSections(config);
      var want := ReadPeerSections(desired);
      if have == want {
        return Ok(false);
      }
      if !synced {
        return Err(SyncFailed);
      }
      config := desired;
      return Ok(true);
    }
  }
}
