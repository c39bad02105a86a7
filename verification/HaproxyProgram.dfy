/**
 The rule language of an HAProxy frontend, as far as the generator uses it, and what a
 request meets on its way through.

 A condition is a conjunction of possibly negated terms; there is no disjunction. A rule
 either stops the request, or sets a variable or a header and goes on. A variable whose
 expression yields nothing stays as it was. Access lists of one name are alternatives.
 */
module HaproxyProgram {
  import opened Wrappers
  import opened Net
  import opened GroupClaim

  // ----- syntax -----

  datatype VarKind =
    | PeerVar | AuthVar | TokVar | AlgVar | JwtVar | OkVar | ExpVar | NowVar | LeftVar | SubVar | JtiVar | RevVar
    | GrpVar | AdmVar | AzVar

  /** `txn.fg_<kind>_<tag>`; the tag is a service slug with its hyphens replaced. */
  datatype Var = Var(kind: VarKind, tag: string)

  datatype Atom =
    | NamedAcl(name: string)
    | SignInPath
    | SrcInFile(file: string)
    | SrcInNetwork(network: Network)
    | CountryIn(codes: seq<string>)
    | RateAbove(limit: int)
    | IntIs(v: Var, n: int)
    | IntAbove(v: Var, n: int)
    | Found(v: Var)
    | Contains_(v: Var, patterns: seq<string>)
    | PasswordOk(userlist: string)
    | SrcMapped(file: string)

  datatype Term = Term(negated: bool, atom: Atom)

  datatype Expr =
    | IntConst(n: int)
    | Algorithm
    | Cookie
    | Verified(jwt: Var, alg: Var)
    | ClaimExp(jwt: Var)
    | ClaimSub(jwt: Var)
    | ClaimJti(jwt: Var)
    | ClaimGroups(jwt: Var)
    | ClaimAdmin(jwt: Var)
    | Date
    | Minus(a: Var, b: Var)
    | LookUp(v: Var, file: string)
    | BearerLookup(file: string)
    | SrcLookup(file: string)

  datatype Reason =
    | Denied | NotFound | TooManyRequests(period: int) | NotAllowedHere | SignInFirst | PasswordRequired(realm: string)
    | TokenRequired | Forbidden | Rejected

  datatype Action =
    | Stop(reason: Reason)
    | SetVar(v: Var, expr: Expr)
    | Track(table: string)
    | SetHeaderFromVar(header: string, from: Var)
    | SetHeaderFromMap(header: string, file: string)
    | SetHeaderFromSource(header: string)
    | DelHeader(header: string)

  datatype Rule = Rule(action: Action, cond: seq<Term>)

  datatype Acl = Acl(name: string, host: string)

  // ----- requests -----

  /** A session cookie; `verdict` is what `jwt_verify` answers under the pinned algorithm, 1 being valid. */
  datatype Jwt = Jwt(verdict: int, exp: Option<int>, sub: Option<string>, jti: Option<string>,
                     groups: Option<string>, admin: Option<int>)

  /** `bearer` is the digest of the presented token, `passwords` the user lists its credentials satisfy. */
  datatype Request = Request(
    host: string,
    signInPath: bool,
    src: Address,
    cookie: Option<Jwt>,
    bearer: Option<string>,
    passwords: set<string>,
    now: int,
    headers: map<string, string>)

  datatype FileBody = Networks(networks: seq<Network>) | Entries(entries: map<string, string>) | Peers(byAddress: map<Address, string>) | Page

  /** How many requests of the caller a stick table has counted in so many seconds back from now. */
  type Count = (string, int) -> nat

  /** The pattern files, the country map, the period each declared stick table counts over, and the requests so far. */
  datatype World = World(files: map<string, FileBody>, country: Address -> Option<string>, tables: map<string, int>, count: Count)

  datatype Value = IntValue(n: int) | TextValue(s: string) | JwtValue(jwt: Jwt)

  datatype State = State(vars: map<Var, Value>, tracked: Option<string>, headers: map<string, string>)

  // ----- meaning -----

  /** What a stick table shows: the requests of its own period, whoever asks. */
  function Shown(w: World, table: string): nat {
    if table in w.tables then w.count(table, w.tables[table]) else 0
  }

  ghost predicate InFile(w: World, file: string, a: Address) {
    && file in w.files && w.files[file].Networks?
    && exists n :: n in w.files[file].networks && Contains(n, a)
  }

  function Entry(w: World, file: string, key: string): Option<string> {
    if file in w.files && w.files[file].Entries? && key in w.files[file].entries
    then Some(w.files[file].entries[key]) else None
  }

  function PeerEntryOf(w: World, file: string, a: Address): Option<string> {
    if file in w.files && w.files[file].Peers? && a in w.files[file].byAddress
    then Some(w.files[file].byAddress[a]) else None
  }

  function IntOf(st: State, v: Var): Option<int> {
    if v in st.vars && st.vars[v].IntValue? then Some(st.vars[v].n) else None
  }

  function TextOf(st: State, v: Var): Option<string> {
    if v in st.vars && st.vars[v].TextValue? then Some(st.vars[v].s) else None
  }

  function JwtOf(st: State, v: Var): Option<Jwt> {
    if v in st.vars && st.vars[v].JwtValue? then Some(st.vars[v].jwt) else None
  }

  ghost predicate AtomHolds(w: World, acls: seq<Acl>, q: Request, st: State, t: Atom) {
    match t
    case NamedAcl(n) => exists a :: a in acls && a.name == n && a.host == q.host
    case SignInPath => q.signInPath
    case SrcInFile(f) => InFile(w, f, q.src)
    case SrcInNetwork(n) => Contains(n, q.src)
    case CountryIn(codes) => w.country(q.src).Some? && w.country(q.src).value in codes
    case RateAbove(limit) => st.tracked.Some? && Shown(w, st.tracked.value) > limit
    case IntIs(v, n) => IntOf(st, v) == Some(n)
    case IntAbove(v, n) => IntOf(st, v).Some? && IntOf(st, v).value > n
    case Found(v) => v in st.vars
    case Contains_(v, patterns) => TextOf(st, v).Some? && exists p :: p in patterns && Occurs(p, TextOf(st, v).value)
    case PasswordOk(u) => u in q.passwords
    case SrcMapped(f) => PeerEntryOf(w, f, q.src).Some?
  }

  ghost predicate TermHolds(w: World, acls: seq<Acl>, q: Request, st: State, t: Term) {
    AtomHolds(w, acls, q, st, t.atom) != t.negated
  }

  ghost predicate CondHolds(w: World, acls: seq<Acl>, q: Request, st: State, cond: seq<Term>) {
    forall t :: t in cond ==> TermHolds(w, acls, q, st, t)
  }

  function IntValueOf(n: Option<int>): Option<Value> {
    if n.Some? then Some(IntValue(n.value)) else None
  }

  function TextValueOf(s: Option<string>): Option<Value> {
    if s.Some? then Some(TextValue(s.value)) else None
  }

  function Evaluate(w: World, q: Request, st: State, e: Expr): Option<Value> {
    match e
    case IntConst(n) => Some(IntValue(n))
    case Algorithm => Some(TextValue("HS256"))
    case Cookie => if q.cookie.Some? then Some(JwtValue(q.cookie.value)) else None
    case Verified(j, alg) =>
      if JwtOf(st, j).Some? && TextOf(st, alg) == Some("HS256") then Some(IntValue(JwtOf(st, j).value.verdict)) else None
    case ClaimExp(j) => if JwtOf(st, j).Some? then IntValueOf(JwtOf(st, j).value.exp) else None
    case ClaimSub(j) => if JwtOf(st, j).Some? then TextValueOf(JwtOf(st, j).value.sub) else None
    case ClaimJti(j) => if JwtOf(st, j).Some? then TextValueOf(JwtOf(st, j).value.jti) else None
    case ClaimGroups(j) => if JwtOf(st, j).Some? then TextValueOf(JwtOf(st, j).value.groups) else None
    case ClaimAdmin(j) => if JwtOf(st, j).Some? then IntValueOf(JwtOf(st, j).value.admin) else None
    case Date => Some(IntValue(q.now))
    case Minus(a, b) =>
      if IntOf(st, a).Some? && IntOf(st, b).Some? then Some(IntValue(IntOf(st, a).value - IntOf(st, b).value)) else None
    case LookUp(v, f) => if TextOf(st, v).Some? then TextValueOf(Entry(w, f, TextOf(st, v).value)) else None
    case BearerLookup(f) => if q.bearer.Some? then TextValueOf(Entry(w, f, q.bearer.value)) else None
    case SrcLookup(f) => TextValueOf(PeerEntryOf(w, f, q.src))
  }

  function Assign(st: State, v: Var, value: Option<Value>): State {
    if value.Some? then st.(vars := st.vars[v := value.value]) else st
  }

  function SetHeader(st: State, header: string, value: Option<string>): State {
    if value.Some? then st.(headers := st.headers[header := value.value]) else st
  }

  /** One rule whose condition holds and which does not stop the request. */
  function Effect(w: World, q: Request, st: State, a: Action): State {
    match a
    case Stop(_) => st
    case SetVar(v, e) => Assign(st, v, Evaluate(w, q, st, e))
    case Track(t) => if st.tracked.None? then st.(tracked := Some(t)) else st
    case SetHeaderFromVar(h, v) => SetHeader(st, h, TextOf(st, v))
    case SetHeaderFromMap(h, f) => SetHeader(st, h, PeerEntryOf(w, f, q.src))
    case SetHeaderFromSource(h) => SetHeader(st, h, Some("client address"))
    case DelHeader(h) => st.(headers := st.headers - {h})
  }

  datatype Outcome = Passed(state: State) | Stopped(reason: Reason)

  ghost function Run(w: World, acls: seq<Acl>, q: Request, rules: seq<Rule>, st: State): Outcome
    decreases |rules|
  {
    if rules == [] then Passed(st)
    else if !CondHolds(w, acls, q, st, rules[0].cond) then Run(w, acls, q, rules[1..], st)
    else if rules[0].action.Stop? then Stopped(rules[0].action.reason)
    else Run(w, acls, q, rules[1..], Effect(w, q, st, rules[0].action))
  }

  lemma {:induction false} RunConcat(w: World, acls: seq<Acl>, q: Request, a: seq<Rule>, b: seq<Rule>, st: State)
    ensures Run(w, acls, q, a + b, st)
         == match Run(w, acls, q, a, st)
            case Passed(st') => Run(w, acls, q, b, st')
            case Stopped(r) => Stopped(r)
    decreases |a|
  {
    if a == [] {
      assert a + b == b;
    } else {
      assert (a + b)[0] == a[0] && (a + b)[1..] == a[1..] + b;
      if !CondHolds(w, acls, q, st, a[0].cond) {
        RunConcat(w, acls, q, a[1..], b, st);
      } else if !a[0].action.Stop? {
        RunConcat(w, acls, q, a[1..], b, Effect(w, q, st, a[0].action));
      }
    }
  }

  lemma RunOne(w: World, acls: seq<Acl>, q: Request, r: Rule, st: State)
    ensures Run(w, acls, q, [r], st)
         == if !CondHolds(w, acls, q, st, r.cond) then Passed(st)
            else if r.action.Stop? then Stopped(r.action.reason)
            else Passed(Effect(w, q, st, r.action))
  {
    assert [r][1..] == [];
  }

  lemma CondConcat(w: World, acls: seq<Acl>, q: Request, st: State, a: seq<Term>, b: seq<Term>)
    ensures CondHolds(w, acls, q, st, a + b) <==> CondHolds(w, acls, q, st, a) && CondHolds(w, acls, q, st, b)
  {
    if CondHolds(w, acls, q, st, a + b) {
      forall t | t in a || t in b
        ensures TermHolds(w, acls, q, st, t)
      {
        assert t in a + b;
      }
    }
  }

  lemma CondOne(w: World, acls: seq<Acl>, q: Request, st: State, t: Term)
    ensures CondHolds(w, acls, q, st, [t]) <==> TermHolds(w, acls, q, st, t)
  {
    assert t in [t];
  }

  /** A block whose every rule waits for a term that does not hold passes the request untouched. */
  lemma {:induction false} GuardedOff(w: World, acls: seq<Acl>, q: Request, guard: Term, rules: seq<Rule>, st: State)
    requires !TermHolds(w, acls, q, st, guard)
    requires forall r :: r in rules ==> guard in r.cond
    ensures Run(w, acls, q, rules, st) == Passed(st)
    decreases |rules|
  {
    if rules != [] {
      assert rules[0] in rules;
      GuardedOff(w, acls, q, guard, rules[1..], st);
    }
  }
}
