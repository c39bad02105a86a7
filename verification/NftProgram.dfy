/**
 The nftables program the generator emits, as a syntax tree, and what the kernel makes of
 a packet that runs through one of its chains.

 Sets are resolved by name. Declaring a set twice adds to it, so membership asks for some
 declaration of that name. A chain gives the verdict of the first rule whose matches all
 hold and whose statement is terminal, and accepts when no rule decides.
 */
module NftProgram {
  import opened Wrappers
  import opened Net
  import opened NftModel

  // ----- syntax -----

  datatype Element = Host(address: Address) | Prefix(network: Network)

  datatype SetDecl = SetDecl(name: string, family: Family, interval: bool, elements: seq<Element>, comment: string)

  datatype Direction = Source | Destination

  datatype L4 = L4Tcp | L4Udp | L4Icmp | L4Icmp6

  datatype Match =
    | IifIsNot(name: string)
    | OifIsNot(name: string)
    | OifIs(name: string)
    | CtInvalid
    | CtEstablished
    | InSet(family: Family, direction: Direction, set_: string)
    | NotInSet(family: Family, direction: Direction, set_: string)
    | InNetwork(family: Family, direction: Direction, network: Network)
    | IsAddress(family: Family, direction: Direction, address: Address)
    | ProtocolIs(l4: L4)
    | PortIn(l4: L4, low: int, high: int)
    | IcmpError(family: Family)
    | EchoRequest(family: Family)
    | FamilyIs(family: Family)
    | UnderRate

  datatype Statement = Verdict(action: Action) | Log | Masquerade

  datatype Rule = Rule(matches: seq<Match>, statement: Statement, comment: string)

  datatype Ruleset = Ruleset(
    table: string,
    sets: seq<SetDecl>,
    input: seq<Rule>,
    forward: seq<Rule>,
    postrouting: seq<Rule>)

  // ----- packets -----

  datatype CtState = New | Established | Related | Invalid | Untracked

  datatype IcmpKind = Echo | Unreachable | TimeExceeded | ParameterProblem | TooBig | OtherKind

  datatype Transport =
    | TcpTo(port: int)
    | UdpTo(port: int)
    | IcmpV4(kind: IcmpKind)
    | IcmpV6(kind: IcmpKind)
    | OtherTransport

  /** `underRate` is the answer of the rate limiter in front of the drop log. */
  datatype Packet = Packet(
    iif: string,
    oif: string,
    src: Address,
    dst: Address,
    ct: CtState,
    l4: Transport,
    underRate: bool)
  {
    function Family(): Family { src.family }

    function Addr(d: Direction): Address {
      if d == Source then src else dst
    }

    /** One family per packet, and each family carries its own ICMP. */
    predicate WellFormed() {
      && src.family == dst.family
      && (l4.IcmpV4? ==> src.family == V4)
      && (l4.IcmpV6? ==> src.family == V6)
    }
  }

  // ----- meaning -----

  predicate ElementCovers(e: Element, a: Address) {
    match e
    case Host(b) => a == b
    case Prefix(n) => Contains(n, a)
  }

  ghost predicate Covered(elements: seq<Element>, a: Address) {
    exists e :: e in elements && ElementCovers(e, a)
  }

  ghost predicate Member(sets: seq<SetDecl>, name: string, a: Address) {
    exists d :: d in sets && d.name == name && Covered(d.elements, a)
  }

  predicate IsL4(l4: L4, t: Transport) {
    match l4
    case L4Tcp => t.TcpTo?
    case L4Udp => t.UdpTo?
    case L4Icmp => t.IcmpV4?
    case L4Icmp6 => t.IcmpV6?
  }

  /** The error types each family must let through for path MTU discovery. */
  predicate IsIcmpError(family: Family, t: Transport) {
    match family
    case V4 => t.IcmpV4? && (t.kind.Unreachable? || t.kind.TimeExceeded? || t.kind.ParameterProblem?)
    case V6 => t.IcmpV6? && !t.kind.Echo? && !t.kind.OtherKind?
  }

  predicate IsEcho(family: Family, t: Transport) {
    match family
    case V4 => t == IcmpV4(Echo)
    case V6 => t == IcmpV6(Echo)
  }

  ghost predicate Holds(sets: seq<SetDecl>, m: Match, p: Packet) {
    match m
    case IifIsNot(n) => p.iif != n
    case OifIsNot(n) => p.oif != n
    case OifIs(n) => p.oif == n
    case CtInvalid => p.ct.Invalid?
    case CtEstablished => p.ct.Established? || p.ct.Related?
    case InSet(f, d, n) => p.Family() == f && Member(sets, n, p.Addr(d))
    case NotInSet(f, d, n) => p.Family() == f && !Member(sets, n, p.Addr(d))
    case InNetwork(f, d, n) => p.Family() == f && Contains(n, p.Addr(d))
    case IsAddress(f, d, a) => p.Family() == f && p.Addr(d) == a
    case ProtocolIs(l4) => IsL4(l4, p.l4)
    case PortIn(l4, low, high) =>
      (l4.L4Tcp? && p.l4.TcpTo? && low <= p.l4.port <= high) ||
      (l4.L4Udp? && p.l4.UdpTo? && low <= p.l4.port <= high)
    case IcmpError(f) => IsIcmpError(f, p.l4)
    case EchoRequest(f) => IsEcho(f, p.l4)
    case FamilyIs(f) => p.Family() == f
    case UnderRate => p.underRate
  }

  ghost predicate AllHold(sets: seq<SetDecl>, ms: seq<Match>, p: Packet) {
    forall m :: m in ms ==> Holds(sets, m, p)
  }

  /** The verdict of the first rule that decides, if any does. */
  ghost function FirstVerdict(sets: seq<SetDecl>, rules: seq<Rule>, p: Packet): Option<Action> {
    if rules == [] then None
    else if rules[0].statement.Verdict? && AllHold(sets, rules[0].matches, p) then Some(rules[0].statement.action)
    else FirstVerdict(sets, rules[1..], p)
  }

  /** Base chains carry `policy accept`. */
  ghost function Eval(sets: seq<SetDecl>, rules: seq<Rule>, p: Packet): Action {
    match FirstVerdict(sets, rules, p)
    case Some(v) => v
    case None => Accept
  }

  /** The source address is rewritten on the way out. */
  ghost predicate Masquerades(sets: seq<SetDecl>, rules: seq<Rule>, p: Packet) {
    exists r :: r in rules && r.statement.Masquerade? && AllHold(sets, r.matches, p)
  }

  lemma {:induction false} FirstVerdictConcat(sets: seq<SetDecl>, a: seq<Rule>, b: seq<Rule>, p: Packet)
    ensures FirstVerdict(sets, a + b, p)
         == if FirstVerdict(sets, a, p).Some? then FirstVerdict(sets, a, p) else FirstVerdict(sets, b, p)
  {
    if a == [] {
      assert a + b == b;
    } else {
      FirstVerdictConcat(sets, a[1..], b, p);
      assert (a + b)[1..] == a[1..] + b;
    }
  }

  function OrElse(a: Option<Action>, b: Option<Action>): Option<Action> {
    if a.Some? then a else b
  }

  lemma OrElseAssociates(a: Option<Action>, b: Option<Action>, c: Option<Action>, d: Option<Action>, rest: Option<Action>)
    ensures OrElse(OrElse(a, OrElse(b, OrElse(c, d))), rest) == OrElse(a, OrElse(b, OrElse(c, OrElse(d, rest))))
  {
  }

  lemma FourParts(sets: seq<SetDecl>, a: seq<Rule>, b: seq<Rule>, c: seq<Rule>, d: seq<Rule>, p: Packet)
    ensures FirstVerdict(sets, a + b + c + d, p)
         == OrElse(FirstVerdict(sets, a, p), OrElse(FirstVerdict(sets, b, p), OrElse(FirstVerdict(sets, c, p), FirstVerdict(sets, d, p))))
  {
    FirstVerdictConcat(sets, a, b, p);
    FirstVerdictConcat(sets, a + b, c, p);
    FirstVerdictConcat(sets, a + b + c, d, p);
  }

  /** A chain in seven parts decides as its first part that decides. */
  lemma SevenParts(sets: seq<SetDecl>, a: seq<Rule>, b: seq<Rule>, c: seq<Rule>, d: seq<Rule>, e: seq<Rule>,
                   f: seq<Rule>, g: seq<Rule>, p: Packet)
    ensures FirstVerdict(sets, a + b + c + d + e + f + g, p)
         == OrElse(FirstVerdict(sets, a, p), OrElse(FirstVerdict(sets, b, p), OrElse(FirstVerdict(sets, c, p),
            OrElse(FirstVerdict(sets, d, p), OrElse(FirstVerdict(sets, e, p), OrElse(FirstVerdict(sets, f, p),
            FirstVerdict(sets, g, p)))))))
  {
    var head, rest := a + b + c + d, OrElse(FirstVerdict(sets, e, p), OrElse(FirstVerdict(sets, f, p), FirstVerdict(sets, g, p)));
    assert FirstVerdict(sets, head + e + f + g, p) == OrElse(FirstVerdict(sets, head, p), rest) by {
      FourParts(sets, head, e, f, g, p);
    }
    assert FirstVerdict(sets, head, p)
        == OrElse(FirstVerdict(sets, a, p), OrElse(FirstVerdict(sets, b, p), OrElse(FirstVerdict(sets, c, p), FirstVerdict(sets, d, p)))) by {
      FourParts(sets, a, b, c, d, p);
    }
    OrElseAssociates(FirstVerdict(sets, a, p), FirstVerdict(sets, b, p), FirstVerdict(sets, c, p), FirstVerdict(sets, d, p), rest);
  }

  lemma {:induction false} NobodyDecides(sets: seq<SetDecl>, rules: seq<Rule>, p: Packet)
    requires forall r :: r in rules && r.statement.Verdict? ==> !AllHold(sets, r.matches, p)
    ensures FirstVerdict(sets, rules, p) == None
  {
    if rules != [] {
      assert rules[0] in rules;
      NobodyDecides(sets, rules[1..], p);
    }
  }

  /** When every deciding rule says the same, only whether one matches is left to know. */
  lemma {:induction false} UniformVerdict(sets: seq<SetDecl>, rules: seq<Rule>, v: Action, p: Packet)
    requires forall r :: r in rules ==> r.statement == Verdict(v)
    ensures FirstVerdict(sets, rules, p)
         == if exists r :: r in rules && AllHold(sets, r.matches, p) then Some(v) else None
  {
    if rules != [] {
      assert rules[0] in rules;
      UniformVerdict(sets, rules[1..], v, p);
      assert rules == [rules[0]] + rules[1..];
    }
  }

  lemma AllHoldConcat(sets: seq<SetDecl>, a: seq<Match>, b: seq<Match>, p: Packet)
    ensures AllHold(sets, a + b, p) <==> AllHold(sets, a, p) && AllHold(sets, b, p)
  {
    if AllHold(sets, a + b, p) {
      forall m | m in a || m in b
        ensures Holds(sets, m, p)
      {
        assert m in a + b;
      }
    }
  }

  lemma AllHoldOne(sets: seq<SetDecl>, m: Match, p: Packet)
    ensures AllHold(sets, [m], p) <==> Holds(sets, m, p)
  {
    assert m in [m];
  }

  lemma AllHoldTwo(sets: seq<SetDecl>, m: Match, n: Match, p: Packet)
    ensures AllHold(sets, [m, n], p) <==> Holds(sets, m, p) && Holds(sets, n, p)
  {
    assert m in [m, n] && n in [m, n];
  }

  lemma AllHoldThree(sets: seq<SetDecl>, m: Match, n: Match, o: Match, p: Packet)
    ensures AllHold(sets, [m, n, o], p) <==> Holds(sets, m, p) && Holds(sets, n, p) && Holds(sets, o, p)
  {
    assert m in [m, n, o] && n in [m, n, o] && o in [m, n, o];
  }

  lemma OneRule(sets: seq<SetDecl>, r: Rule, p: Packet)
    ensures FirstVerdict(sets, [r], p)
         == if r.statement.Verdict? && AllHold(sets, r.matches, p) then Some(r.statement.action) else None
  {
    assert [r][1..] == [];
  }

  /** A pair of lines, one per family, that say the same. */
  lemma TwoRules(sets: seq<SetDecl>, r: Rule, s: Rule, v: Action, p: Packet)
    requires r.statement == Verdict(v) && s.statement == Verdict(v)
    ensures FirstVerdict(sets, [r, s], p)
         == if AllHold(sets, r.matches, p) || AllHold(sets, s.matches, p) then Some(v) else None
  {
    assert [r, s] == [r] + [s];
    FirstVerdictConcat(sets, [r], [s], p);
    OneRule(sets, r, p);
    OneRule(sets, s, p);
  }

  /** Every set a chain names is declared, for the family the match asks. */
  ghost predicate Resolves(sets: seq<SetDecl>, rules: seq<Rule>) {
    forall r, m :: r in rules && m in r.matches && (m.InSet? || m.NotInSet?) ==>
      exists d :: d in sets && d.name == m.set_ && d.family == m.family
  }
}
