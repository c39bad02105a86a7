/**
 The files the compiler renders and the files the agent manages: the same, but for the list of
 revoked sessions.
 */
module ManagedFiles {
  import opened HaproxyGenerator
  import opened HaproxyFiles
  import Proxy = ProxyApplier

  /** A managed name begins as the rendered files do. */
  lemma ManagedMeans(name: string)
    ensures Proxy.IsManaged(name)
       <==> && |name| >= 4
            && (name[..4] in ["set_", "tok_", "ipf_", "err_"]
                || (|name| >= 9 && name[..9] == "peers.map") || (|name| >= 10 && name[..10] == "groups.map"))
  {
    var prefixes := ["set_", "tok_", "ipf_", "err_", "peers.map", "groups.map"];
    assert Proxy.IsManaged(name) <==> exists p :: p in prefixes && p <= name;
    if p :| p in prefixes && p <= name {
      assert name[..|p|] == p;
      var i :| 0 <= i < 6 && prefixes[i] == p;
      assert |prefixes[4]| == 9 && |prefixes[5]| == 10;
      assert i < 4 ==> |p| == 4;
    }
    if |name| >= 4 && name[..4] in ["set_", "tok_", "ipf_", "err_"] {
      assert name[..4] in prefixes && name[..4] <= name;
    }
    if |name| >= 9 && name[..9] == "peers.map" {
      assert prefixes[4] in prefixes && prefixes[4] <= name;
    }
    if |name| >= 10 && name[..10] == "groups.map" {
      assert prefixes[5] in prefixes && prefixes[5] <= name;
    }
  }

  lemma BeginsAs(start: string, rest: string)
    requires start in ["set_", "tok_", "ipf_", "err_"]
    ensures Proxy.IsManaged(start + rest)
  {
    assert (start + rest)[..4] == start;
    ManagedMeans(start + rest);
  }

  /** Of the files a rule refers to, all are managed but the revocation list. */
  lemma RenderedManaged(r: FileRef)
    ensures Proxy.IsManaged(FileName(r)) <==> !r.RevokedRef?
  {
    match r
    case SetRef(n) =>
      BeginsAs("set_", n + ".lst");
      assert SetFile(n) == "set_" + (n + ".lst");
    case TokenRef(s) =>
      BeginsAs("tok_", s + ".map");
      assert TokenFile(s) == "tok_" + (s + ".map");
    case FilterRef(s, i) =>
      BeginsAs("ipf_", s + "_" + Decimal(i) + ".lst");
      assert FilterFile(s, i) == "ipf_" + (s + "_" + Decimal(i) + ".lst");
    case RevokedRef => Proxy.RevokedIsUnmanaged();
    case PeersRef => ManagedMeans(PEERS_MAP_FILE);
    case GroupsRef => ManagedMeans(GROUPS_MAP_FILE);
  }

  /** All of them can be pushed over the socket. */
  lemma RenderedPushable(r: FileRef)
    ensures Proxy.Pushable(FileName(r))
  {
    match r
    case SetRef(n) => assert SetFile(n)[|SetFile(n)| - 4..] == ".lst";
    case TokenRef(s) => assert TokenFile(s)[|TokenFile(s)| - 4..] == ".map";
    case FilterRef(s, i) => assert FilterFile(s, i)[|FilterFile(s, i)| - 4..] == ".lst";
    case RevokedRef => assert SSO_REVOKED_FILE[|SSO_REVOKED_FILE| - 4..] == ".map";
    case PeersRef => assert PEERS_MAP_FILE[|PEERS_MAP_FILE| - 4..] == ".map";
    case GroupsRef => assert GROUPS_MAP_FILE[|GROUPS_MAP_FILE| - 4..] == ".map";
  }

  /** An error page is managed, and only a reload can change it. */
  lemma ErrorPagesNeedReload(slug: string)
    ensures Proxy.IsManaged(ErrorFile(slug)) && !Proxy.Pushable(ErrorFile(slug))
    ensures Proxy.IsManaged(DEFAULT_ERROR_FILE) && !Proxy.Pushable(DEFAULT_ERROR_FILE)
  {
    var page := ErrorFile(slug);
    assert page[..4] == "err_" && page[|page| - 1] == 'p' && page[|page| - 2] == 't';
    assert DEFAULT_ERROR_FILE[..4] == "err_" && DEFAULT_ERROR_FILE[|DEFAULT_ERROR_FILE| - 2] == 't';
    ManagedMeans(page);
    ManagedMeans(DEFAULT_ERROR_FILE);
    NotPushable(page);
    NotPushable(DEFAULT_ERROR_FILE);
  }

  lemma NotPushable(name: string)
    requires |name| >= 2 && name[|name| - 2] == 't' && name[|name| - 1] == 'p'
    ensures !Proxy.Pushable(name)
  {
    if |name| >= 4 {
      assert name[|name| - 4..][3] == 'p' && name[|name| - 4..][2] == 't';
      assert ".map"[2] == 'a' && ".lst"[3] == 't';
    }
  }
}
