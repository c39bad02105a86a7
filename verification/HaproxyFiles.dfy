/**
 The pattern files beside the configuration, and that every reference finds the file meant
 for it: file names are formed from slugs, set names and positions and never collide.
 */
module HaproxyFiles {
  import opened Wrappers
  import opened Ordering
  import opened GroupClaim
  import opened Net
  import opened HaproxyModel
  import opened HaproxyProgram
  import opened HaproxyGenerator
  import opened HaproxyPolicy

  // ----- names -----

  datatype FileRef =
    | SetRef(name: string)
    | TokenRef(slug: string)
    | FilterRef(slug: string, index: nat)
    | RevokedRef
    | PeersRef
    | GroupsRef

  function FileName(r: FileRef): string {
    match r
    case SetRef(n) => SetFile(n)
    case TokenRef(s) => TokenFile(s)
    case FilterRef(s, i) => FilterFile(s, i)
    case RevokedRef => SSO_REVOKED_FILE
    case PeersRef => PEERS_MAP_FILE
    case GroupsRef => GROUPS_MAP_FILE
  }

  lemma MiddleInjective(p: string, a: string, b: string, e: string)
    requires p + a + e == p + b + e
    ensures a == b
  {
    assert |a| == |b|;
    assert (p + a + e)[|p|..|p| + |a|] == a;
    assert (p + b + e)[|p|..|p| + |b|] == b;
  }

  lemma {:induction false} DecimalInjective(m: nat, n: nat)
    requires Decimal(m) == Decimal(n)
    ensures m == n
  {
    if m >= 10 && n >= 10 {
      var a, b := Decimal(m / 10), Decimal(n / 10);
      assert Decimal(m)[..|a|] == a && Decimal(n)[..|b|] == b;
      assert Decimal(m)[|a|] == DigitChar(m % 10) && Decimal(n)[|b|] == DigitChar(n % 10);
      DecimalInjective(m / 10, n / 10);
    }
  }

  /** Behind the last underscore there are only digits, so the slug cannot end later. */
  lemma NoLonger(s: string, i: nat, t: string, j: nat)
    requires s + "_" + Decimal(i) == t + "_" + Decimal(j)
    ensures |t| <= |s|
  {
    var x := s + "_" + Decimal(i);
    forall k | |s| < k < |x|
      ensures x[k] != '_'
    {
      assert x[k] == Decimal(i)[k - |s| - 1];
    }
    assert (t + "_" + Decimal(j))[|t|] == '_';
  }

  /** The last underscore splits a slug from the position behind it. */
  lemma PositionSplits(s: string, i: nat, t: string, j: nat)
    requires s + "_" + Decimal(i) == t + "_" + Decimal(j)
    ensures s == t && i == j
  {
    var x, y := s + "_" + Decimal(i), t + "_" + Decimal(j);
    NoLonger(s, i, t, j);
    NoLonger(t, j, s, i);
    assert x[..|s|] == s && y[..|t|] == t;
    assert x[|s| + 1..] == Decimal(i) && y[|t| + 1..] == Decimal(j);
    DecimalInjective(i, j);
  }

  lemma FilterFileInjective(s: string, i: nat, t: string, j: nat)
    requires FilterFile(s, i) == FilterFile(t, j)
    ensures s == t && i == j
  {
    assert FilterFile(s, i) == "ipf_" + (s + "_" + Decimal(i)) + ".lst";
    assert FilterFile(t, j) == "ipf_" + (t + "_" + Decimal(j)) + ".lst";
    MiddleInjective("ipf_", s + "_" + Decimal(i), t + "_" + Decimal(j), ".lst");
    PositionSplits(s, i, t, j);
  }

  function Initials(r: FileRef): string {
    match r
    case SetRef(_) => "set_"
    case TokenRef(_) => "tok_"
    case FilterRef(_, _) => "ipf_"
    case RevokedRef => "sso_"
    case PeersRef => "peer"
    case GroupsRef => "grou"
  }

  lemma StartsWithFirst(p: string, a: string, b: string)
    ensures (p + a + b)[..|p|] == p
  {
  }

  lemma FilterFileStarts(slug: string, index: nat)
    ensures |FilterFile(slug, index)| >= 4 && FilterFile(slug, index)[..4] == "ipf_"
  {
    var start := "ipf_" + slug + "_";
    StartsWithFirst("ipf_", slug, "_");
    StartsWithFirst(start, Decimal(index), ".lst");
    assert FilterFile(slug, index)[..4] == start[..4];
  }

  lemma SetFileStarts(name: string)
    ensures |SetFile(name)| >= 4 && SetFile(name)[..4] == "set_"
  {
    StartsWithFirst("set_", name, ".lst");
  }

  lemma TokenFileStarts(slug: string)
    ensures |TokenFile(slug)| >= 4 && TokenFile(slug)[..4] == "tok_"
  {
    StartsWithFirst("tok_", slug, ".map");
  }

  lemma SingleFilesStart()
    ensures SSO_REVOKED_FILE[..4] == "sso_" && PEERS_MAP_FILE[..4] == "peer" && GROUPS_MAP_FILE[..4] == "grou"
  {
  }

  lemma NameStarts(r: FileRef)
    ensures |FileName(r)| >= 4 && FileName(r)[..4] == Initials(r)
  {
    match r
    case SetRef(n) => SetFileStarts(n);
    case TokenRef(s) => TokenFileStarts(s);
    case FilterRef(s, i) => FilterFileStarts(s, i);
    case _ => SingleFilesStart();
  }

  lemma InitialsTell(q: FileRef, r: FileRef)
    requires Initials(q) == Initials(r)
    ensures q.SetRef? == r.SetRef? && q.TokenRef? == r.TokenRef? && q.FilterRef? == r.FilterRef?
    ensures q.RevokedRef? == r.RevokedRef? && q.PeersRef? == r.PeersRef? && q.GroupsRef? == r.GroupsRef?
  {
    assert Initials(q)[0] == Initials(r)[0] && Initials(q)[1] == Initials(r)[1];
  }

  /** Different references are different files. */
  lemma FileNameInjective(q: FileRef, r: FileRef)
    requires FileName(q) == FileName(r)
    ensures q == r
  {
    NameStarts(q);
    NameStarts(r);
    InitialsTell(q, r);
    match q
    case SetRef(n) => MiddleInjective("set_", n, r.name, ".lst");
    case TokenRef(s) => MiddleInjective("tok_", s, r.slug, ".map");
    case FilterRef(s, i) => FilterFileInjective(s, i, r.slug, r.index);
    case _ =>
  }

  /** An error page is none of the files a rule refers to. */
  lemma ErrorPagesApart(page: string, r: FileRef)
    requires |page| >= 4 && page[..4] == "err_"
    ensures page != FileName(r)
  {
    NameStarts(r);
    assert "err_"[0] != Initials(r)[0];
  }

  // ----- contents -----

  function Parsed(cidrs: seq<CidrText>): seq<Network> {
    if cidrs == [] then []
    else (match ParseCidr(cidrs[0]) case Some(n) => [n] case None => []) + Parsed(cidrs[1..])
  }

  function AddressFile(cidrs: seq<CidrText>): FileBody {
    Networks(SortBy(Parsed(cidrs), NetworkKey))
  }

  function Ones(keys: seq<string>): map<string, string> {
    map k | k in keys :: "1"
  }

  function KeyFile(keys: seq<string>): FileBody {
    Entries(Ones(keys))
  }

  function PeersByAddress(peers: seq<PeerEntry>): map<Address, string> {
    if peers == [] then map[]
    else PeersByAddress(peers[..|peers| - 1])[peers[|peers| - 1].address := peers[|peers| - 1].peerLabel]
  }

  function GroupsByAddress(peers: seq<PeerEntry>): map<Address, string> {
    if peers == [] then map[]
    else
      var before, last := GroupsByAddress(peers[..|peers| - 1]), peers[|peers| - 1];
      if last.groups == [] then before else before[last.address := Joined(SortBy(last.groups, TextKey))]
  }

  lemma {:induction false} ParsedMean(cidrs: seq<CidrText>, n: Network)
    ensures n in Parsed(cidrs) <==> exists c :: c in cidrs && ParseCidr(c) == Some(n)
  {
    if cidrs != [] {
      ParsedMean(cidrs[1..], n);
      assert cidrs == [cidrs[0]] + cidrs[1..];
    }
  }

  lemma AddressFileMeans(w: World, file: string, cidrs: seq<CidrText>, a: Address)
    requires file in w.files && w.files[file] == AddressFile(cidrs)
    ensures InFile(w, file, a) <==> SrcIn(cidrs, a)
  {
    var ns := SortBy(Parsed(cidrs), NetworkKey);
    if InFile(w, file, a) {
      var n :| n in ns && Contains(n, a);
      SortByMember(Parsed(cidrs), NetworkKey, n);
      ParsedMean(cidrs, n);
    }
    if c :| c in cidrs && ParseCidr(c).Some? && Contains(ParseCidr(c).value, a) {
      var n := ParseCidr(c).value;
      ParsedMean(cidrs, n);
      SortByMember(Parsed(cidrs), NetworkKey, n);
    }
  }

  // ----- what the rules may rely on -----

  /** Each reference a rule can make finds its own file. */
  ghost predicate Resolves(spec: ProxySpec, files: map<string, FileBody>) {
    && (forall x :: x in spec.sourceSets ==> SetFile(x.name) in files && files[SetFile(x.name)] == AddressFile(x.members))
    && (forall s :: s in spec.services ==> ServiceResolves(s, files))
    && SSO_REVOKED_FILE in files && files[SSO_REVOKED_FILE] == KeyFile(spec.ssoRevoked)
    && PEERS_MAP_FILE in files && files[PEERS_MAP_FILE] == Peers(PeersByAddress(spec.peers))
    && GROUPS_MAP_FILE in files && files[GROUPS_MAP_FILE] == Peers(GroupsByAddress(spec.peers))
  }

  ghost predicate ServiceResolves(s: Service, files: map<string, FileBody>) {
    && (s.tokenHashes != [] ==> TokenFile(s.slug) in files && files[TokenFile(s.slug)] == KeyFile(s.tokenHashes))
    && (forall i :: 0 <= i < |s.filters| && s.filters[i].kind.IsIp() ==>
          FilterFile(s.slug, i) in files && files[FilterFile(s.slug, i)] == AddressFile(s.filters[i].networks))
  }

  ghost predicate UniqueNames(spec: ProxySpec) {
    && (forall i, j :: 0 <= i < j < |spec.services| ==> spec.services[i].slug != spec.services[j].slug)
    && (forall i, j :: 0 <= i < j < |spec.sourceSets| ==> spec.sourceSets[i].name != spec.sourceSets[j].name)
  }

  /** `files` holds what was put under each reference. */
  ghost predicate Holds(files: map<string, FileBody>, put: map<FileRef, FileBody>) {
    forall r :: r in put ==> FileName(r) in files && files[FileName(r)] == put[r]
  }

  method Put(files: map<string, FileBody>, r: FileRef, body: FileBody, ghost put: map<FileRef, FileBody>)
    returns (files': map<string, FileBody>, ghost put': map<FileRef, FileBody>)
    requires Holds(files, put)
    ensures put' == put[r := body] && Holds(files', put')
  {
    files', put' := files[FileName(r) := body], put[r := body];
    forall q | q in put'
      ensures FileName(q) in files' && files'[FileName(q)] == put'[q]
    {
      if q != r && FileName(q) == FileName(r) {
        FileNameInjective(q, r);
      }
    }
  }

  ghost predicate ServicePut(s: Service, n: nat, put: map<FileRef, FileBody>)
    requires n <= |s.filters|
  {
    && (s.tokenHashes != [] ==> TokenRef(s.slug) in put && put[TokenRef(s.slug)] == KeyFile(s.tokenHashes))
    && (forall i :: 0 <= i < n && s.filters[i].kind.IsIp() ==>
          FilterRef(s.slug, i) in put && put[FilterRef(s.slug, i)] == AddressFile(s.filters[i].networks))
  }

  predicate Mentions(r: FileRef, slug: string) {
    (r.TokenRef? || r.FilterRef?) && r.slug == slug
  }

  /** Only files of this service were touched. */
  ghost predicate OnlyOf(slug: string, put: map<FileRef, FileBody>, put': map<FileRef, FileBody>) {
    forall r :: r in put && !Mentions(r, slug) ==> r in put' && put'[r] == put[r]
  }

  method PutService(s: Service, files: map<string, FileBody>, ghost put: map<FileRef, FileBody>)
    returns (files': map<string, FileBody>, ghost put': map<FileRef, FileBody>)
    requires Holds(files, put)
    ensures Holds(files', put') && ServicePut(s, |s.filters|, put') && OnlyOf(s.slug, put, put')
  {
    files', put' := files, put;
    if s.tokenHashes != [] {
      files', put' := Put(files', TokenRef(s.slug), KeyFile(s.tokenHashes), put');
    }
    for i := 0 to |s.filters|
      invariant Holds(files', put') && ServicePut(s, i, put') && OnlyOf(s.slug, put, put')
    {
      if s.filters[i].kind.IsIp() {
        files', put' := Put(files', FilterRef(s.slug, i), AddressFile(s.filters[i].networks), put');
      }
    }
    assert ErrorFile(s.slug)[..4] == "err_";
    files' := PutPage(ErrorFile(s.slug), files', put');
  }

  ghost predicate SetsPut(spec: ProxySpec, n: nat, put: map<FileRef, FileBody>)
    requires n <= |spec.sourceSets|
  {
    forall i :: 0 <= i < n ==>
      SetRef(spec.sourceSets[i].name) in put && put[SetRef(spec.sourceSets[i].name)] == AddressFile(spec.sourceSets[i].members)
  }

  ghost predicate ServicesPut(spec: ProxySpec, n: nat, put: map<FileRef, FileBody>)
    requires n <= |spec.services|
  {
    forall i :: 0 <= i < n ==> ServicePut(spec.services[i], |spec.services[i].filters|, put)
  }

  lemma OtherServiceKept(s: Service, slug: string, put: map<FileRef, FileBody>, put': map<FileRef, FileBody>)
    requires s.slug != slug && OnlyOf(slug, put, put') && ServicePut(s, |s.filters|, put)
    ensures ServicePut(s, |s.filters|, put')
  {
  }

  method PutServices(spec: ProxySpec, files: map<string, FileBody>, ghost put: map<FileRef, FileBody>)
    returns (files': map<string, FileBody>, ghost put': map<FileRef, FileBody>)
    requires UniqueNames(spec) && Holds(files, put) && SetsPut(spec, |spec.sourceSets|, put)
    ensures Holds(files', put') && SetsPut(spec, |spec.sourceSets|, put') && ServicesPut(spec, |spec.services|, put')
  {
    files', put' := files, put;
    for i := 0 to |spec.services|
      invariant Holds(files', put') && SetsPut(spec, |spec.sourceSets|, put') && ServicesPut(spec, i, put')
    {
      ghost var before := put';
      files', put' := PutService(spec.services[i], files', put');
      forall k | 0 <= k < i
        ensures ServicePut(spec.services[k], |spec.services[k].filters|, put')
      {
        OtherServiceKept(spec.services[k], spec.services[i].slug, before, put');
      }
    }
  }

  method PutSets(spec: ProxySpec) returns (files: map<string, FileBody>, ghost put: map<FileRef, FileBody>)
    requires UniqueNames(spec)
    ensures Holds(files, put) && SetsPut(spec, |spec.sourceSets|, put)
  {
    files, put := map[], map[];
    for i := 0 to |spec.sourceSets|
      invariant Holds(files, put) && SetsPut(spec, i, put)
    {
      files, put := Put(files, SetRef(spec.sourceSets[i].name), AddressFile(spec.sourceSets[i].members), put);
    }
  }

  /** One of the three files there is only one of. */
  method PutSingle(spec: ProxySpec, r: FileRef, body: FileBody, files: map<string, FileBody>, ghost put: map<FileRef, FileBody>)
    returns (files': map<string, FileBody>, ghost put': map<FileRef, FileBody>)
    requires Holds(files, put) && SetsPut(spec, |spec.sourceSets|, put) && ServicesPut(spec, |spec.services|, put)
    requires r.RevokedRef? || r.PeersRef? || r.GroupsRef?
    ensures Holds(files', put') && SetsPut(spec, |spec.sourceSets|, put') && ServicesPut(spec, |spec.services|, put')
    ensures put' == put[r := body]
  {
    files', put' := Put(files, r, body, put);
    forall k | 0 <= k < |spec.services|
      ensures ServicePut(spec.services[k], |spec.services[k].filters|, put')
    {
      assert ServicePut(spec.services[k], |spec.services[k].filters|, put);
    }
  }

  method PutPage(page: string, files: map<string, FileBody>, ghost put: map<FileRef, FileBody>)
    returns (files': map<string, FileBody>)
    requires Holds(files, put)
    requires |page| >= 4 && page[..4] == "err_"
    ensures Holds(files', put)
  {
    files' := files[page := Page];
    forall r | r in put
      ensures FileName(r) in files' && files'[FileName(r)] == put[r]
    {
      ErrorPagesApart(page, r);
    }
  }

  /** `render_files`: every file the configuration references, under its name. */
  method RenderFiles(spec: ProxySpec) returns (files: map<string, FileBody>)
    requires UniqueNames(spec)
    ensures Resolves(spec, files)
  {
    ghost var put;
    files, put := PutSets(spec);
    files, put := PutServices(spec, files, put);
    files, put := PutSingle(spec, RevokedRef, KeyFile(spec.ssoRevoked), files, put);
    assert DEFAULT_ERROR_FILE[..4] == "err_";
    files := PutPage(DEFAULT_ERROR_FILE, files, put);
    files, put := PutSingle(spec, PeersRef, Peers(PeersByAddress(spec.peers)), files, put);
    files, put := PutSingle(spec, GroupsRef, Peers(GroupsByAddress(spec.peers)), files, put);
    PutMeansResolved(spec, files, put);
  }

  lemma PutMeansResolved(spec: ProxySpec, files: map<string, FileBody>, put: map<FileRef, FileBody>)
    requires Holds(files, put)
    requires SetsPut(spec, |spec.sourceSets|, put) && ServicesPut(spec, |spec.services|, put)
    requires RevokedRef in put && put[RevokedRef] == KeyFile(spec.ssoRevoked)
    requires PeersRef in put && put[PeersRef] == Peers(PeersByAddress(spec.peers))
    requires GroupsRef in put && put[GroupsRef] == Peers(GroupsByAddress(spec.peers))
    ensures Resolves(spec, files)
  {
    forall x | x in spec.sourceSets
      ensures SetFile(x.name) in files && files[SetFile(x.name)] == AddressFile(x.members)
    {
      var i :| 0 <= i < |spec.sourceSets| && spec.sourceSets[i] == x;
      assert SetRef(spec.sourceSets[i].name) in put;
      assert FileName(SetRef(x.name)) == SetFile(x.name);
    }
    forall s | s in spec.services
      ensures ServiceResolves(s, files)
    {
      var k :| 0 <= k < |spec.services| && spec.services[k] == s;
      assert ServicePut(s, |s.filters|, put);
      assert FileName(TokenRef(s.slug)) == TokenFile(s.slug);
      forall i | 0 <= i < |s.filters| && s.filters[i].kind.IsIp()
        ensures FilterFile(s.slug, i) in files && files[FilterFile(s.slug, i)] == AddressFile(s.filters[i].networks)
      {
        assert FilterRef(s.slug, i) in put;
        assert FileName(FilterRef(s.slug, i)) == FilterFile(s.slug, i);
      }
    }
    assert FileName(RevokedRef) in files && FileName(PeersRef) in files && FileName(GroupsRef) in files;
  }

  // ----- lookups, resolved -----

  /** A set reference finds the addresses of that set. */
  lemma SetFileMeans(spec: ProxySpec, w: World, name: string, a: Address)
    requires UniqueNames(spec) && Resolves(spec, w.files)
    requires exists x :: x in spec.sourceSets && x.name == name
    ensures InFile(w, SetFile(name), a) <==> InSourceSet(spec, name, a)
  {
    var x :| x in spec.sourceSets && x.name == name;
    AddressFileMeans(w, SetFile(name), x.members, a);
    if InSourceSet(spec, name, a) {
      var y :| y in spec.sourceSets && y.name == name && SrcIn(y.members, a);
      var i :| 0 <= i < |spec.sourceSets| && spec.sourceSets[i] == x;
      var j :| 0 <= j < |spec.sourceSets| && spec.sourceSets[j] == y;
      assert i == j;
    }
  }

  ghost predicate HasPeerSet(spec: ProxySpec) {
    exists x :: x in spec.sourceSets && x.name == PEER_SET
  }

  /** What the authentication rules of a service look up is what was meant. */
  ghost predicate LookupsFind(spec: ProxySpec, w: World, s: Service, q: Request) {
    && SSO_REVOKED_FILE in w.files && w.files[SSO_REVOKED_FILE] == KeyFile(spec.ssoRevoked)
    && (s.tokenHashes != [] ==> TokenFile(s.slug) in w.files && w.files[TokenFile(s.slug)] == KeyFile(s.tokenHashes))
    && (InFile(w, SetFile(PEER_SET), q.src) <==> InSourceSet(spec, PEER_SET, q.src))
  }

  lemma LookupsResolved(spec: ProxySpec, w: World, s: Service, q: Request)
    requires UniqueNames(spec) && Resolves(spec, w.files) && HasPeerSet(spec) && s in spec.services
    ensures LookupsFind(spec, w, s, q)
  {
    SetFileMeans(spec, w, PEER_SET, q.src);
    assert ServiceResolves(s, w.files);
  }

  /** A key of the file answers "1", which is what the rules compare with. */
  lemma KeyFileMeans(w: World, file: string, keys: seq<string>, key: string)
    requires file in w.files && w.files[file] == KeyFile(keys)
    ensures Entry(w, file, key) == if key in keys then Some("1") else None
  {
  }

  // ----- who sits behind an address -----

  /** An address answers with its peer's label, the last peer's if two share it. */
  lemma {:induction false} LabelsMean(peers: seq<PeerEntry>, a: Address)
    ensures a in PeersByAddress(peers) <==> exists p :: p in peers && p.address == a
    ensures forall i :: (0 <= i < |peers| && peers[i].address == a && forall j :: i < j < |peers| ==> peers[j].address != a) ==>
              PeersByAddress(peers)[a] == peers[i].peerLabel
  {
    if peers != [] {
      var n := |peers| - 1;
      LabelsMean(peers[..n], a);
      assert peers == peers[..n] + [peers[n]];
    }
  }

  /** An address answers with the groups of its peer, or not at all where the peer has none. */
  lemma {:induction false} GroupTextsMean(peers: seq<PeerEntry>, a: Address)
    ensures a in GroupsByAddress(peers) <==> exists p :: p in peers && p.address == a && p.groups != []
    ensures forall i :: (0 <= i < |peers| && peers[i].address == a && peers[i].groups != []
                         && forall j :: i < j < |peers| ==> peers[j].address != a || peers[j].groups == []) ==>
              GroupsByAddress(peers)[a] == Joined(SortBy(peers[i].groups, TextKey))
  {
    if peers != [] {
      var n := |peers| - 1;
      GroupTextsMean(peers[..n], a);
      assert peers == peers[..n] + [peers[n]];
    }
  }

  /** The text for one peer's groups: the slugs in text order with commas between, so each is found between two commas. */
  lemma GroupTextMeans(groups: seq<string>, slug: string) returns (ordered: seq<string>)
    requires CommaFree(slug) && groups != [] && forall g :: g in groups ==> CommaFree(g)
    ensures multiset(ordered) == multiset(groups) && InTextOrder(ordered)
    ensures var text := Joined(SortBy(groups, TextKey));
            text == Joined(ordered) && (Occurs("," + slug + ",", "," + text + ",") <==> slug in groups)
  {
    ordered := SortBy(groups, TextKey);
    SortByPermutes(groups, TextKey);
    TextsInOrder(groups);
    SortedMembers(groups, ordered);
    PatternMeansMembership(slug, ordered);
    assert |ordered| == |multiset(ordered)| == |groups|;
  }

  lemma SortedMembers(a: seq<string>, b: seq<string>)
    requires multiset(a) == multiset(b)
    ensures forall x :: x in a <==> x in b
  {
    forall x: string
      ensures x in a <==> x in b
    {
      assert x in a <==> x in multiset(a);
      assert x in b <==> x in multiset(b);
    }
  }
}
