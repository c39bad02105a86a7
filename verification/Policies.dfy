/**
 Access policy as a document: what an import would change, what it does change, and what an
 export says.
 */
module Policies {
  import opened Wrappers
  import opened Ordering

  datatype GroupKind = PlainGroup | ZoneGroup

  datatype EndpointKind = AnyKind | GroupEnd | ZoneEnd | CidrEnd

  datatype GroupFields = GroupFields(name: string, description: Option<string>, kind: GroupKind, exit: bool, lifetime: Option<int>)

  datatype Side = Side(kind: EndpointKind, group: Option<string>, cidr: Option<string>)

  datatype RuleFields = RuleFields(
    name: string, description: Option<string>, priority: int, enabled: bool, action: string,
    src: Side, dst: Side, protocol: string, portStart: Option<int>, portEnd: Option<int>)

  /** Groups by slug and rules by reference; a rule names its groups by slug. */
  datatype Db = Db(groups: map<string, GroupFields>, rules: map<string, RuleFields>)

  // ----- the document -----

  /** Absent fields are `None` and take their default. */
  datatype GroupPayload = GroupPayload(
    slug: string, name: Option<string>, description: Option<string>, kind: Option<GroupKind>, exit: Option<bool>, lifetime: Option<int>)

  datatype SidePayload = SidePayload(kind: Option<EndpointKind>, group: Option<string>, cidr: Option<string>)

  datatype RulePayload = RulePayload(
    ref: string, name: Option<string>, description: Option<string>, priority: Option<int>, enabled: Option<bool>, action: string,
    src: SidePayload, dst: SidePayload, protocol: Option<string>, portStart: Option<int>, portEnd: Option<int>)

  datatype Document = Document(version: int, groups: seq<GroupPayload>, rules: seq<RulePayload>)

  const VERSION := 1

  function Or<T>(x: Option<T>, d: T): T {
    if x.Some? then x.value else d
  }

  /** Python's `x or d` on texts. */
  function OrName(x: Option<string>, d: string): string {
    if x.Some? && x.value != "" then x.value else d
  }

  function NormalGroup(p: GroupPayload): GroupFields {
    GroupFields(OrName(p.name, p.slug), p.description, Or(p.kind, PlainGroup), Or(p.exit, false), p.lifetime)
  }

  function NormalSide(p: SidePayload): Side {
    Side(Or(p.kind, AnyKind), p.group, p.cidr)
  }

  function NormalRule(p: RulePayload): RuleFields {
    RuleFields(OrName(p.name, p.ref), p.description, Or(p.priority, 100), Or(p.enabled, true), p.action,
               NormalSide(p.src), NormalSide(p.dst), Or(p.protocol, "any"), p.portStart, p.portEnd)
  }

  // ----- validation -----

  datatype Problem = WrongVersion | NoRef | DuplicateRef(ref: string) | NoGroup(ref: string) | UnknownGroup(ref: string) | NoCidr(ref: string)

  function SlugsOf(groups: seq<GroupPayload>): set<string> {
    set p | p in groups :: p.slug
  }

  function RefsOf(rules: seq<RulePayload>): set<string> {
    set r | r in rules :: r.ref
  }

  predicate Truthy(x: Option<string>) { x.Some? && x.value != "" }

  /** A side of kind group names a known group, one of kind CIDR has one. Zones are not looked at. */
  predicate SideOk(p: SidePayload, known: set<string>) {
    match Or(p.kind, AnyKind)
    case GroupEnd => p.group.Some? && p.group.value != "" && p.group.value in known
    case CidrEnd => p.cidr.Some? && p.cidr.value != ""
    case _ => true
  }

  ghost predicate RulesOk(rules: seq<RulePayload>, n: nat, known: set<string>)
    requires n <= |rules|
  {
    && (forall i :: 0 <= i < n ==> rules[i].ref != "" && SideOk(rules[i].src, known) && SideOk(rules[i].dst, known))
    && (forall i, j :: 0 <= i < j < n ==> rules[i].ref != rules[j].ref)
  }

  ghost predicate DocumentOk(doc: Document, known: set<string>) {
    doc.version == VERSION && RulesOk(doc.rules, |doc.rules|, SlugsOf(doc.groups) + known)
  }

  method ValidateSide(ref: string, p: SidePayload, slugs: set<string>, known: set<string>) returns (errors: seq<Problem>)
    ensures errors == [] <==> SideOk(p, slugs + known)
  {
    match Or(p.kind, AnyKind) {
      case GroupEnd =>
        if !Truthy(p.group) {
          return [NoGroup(ref)];
        }
        return if p.group.value !in slugs && p.group.value !in known then [UnknownGroup(ref)] else [];
      case CidrEnd => return if Truthy(p.cidr) then [] else [NoCidr(ref)];
      case _ => return [];
    }
  }

  /** `_validate_document`. */
  method ValidateDocument(doc: Document, known: set<string>) returns (errors: seq<Problem>)
    ensures errors == [] <==> DocumentOk(doc, known)
  {
    errors := if doc.version == VERSION then [] else [WrongVersion];
    var slugs := SlugsOf(doc.groups);
    var seen: set<string> := {};
    for i := 0 to |doc.rules|
      invariant errors == [] <==> doc.version == VERSION && RulesOk(doc.rules, i, slugs + known)
      invariant forall r :: r in seen <==> r != "" && exists k :: 0 <= k < i && doc.rules[k].ref == r
    {
      var rule := doc.rules[i];
      if rule.ref == "" {
        errors := errors + [NoRef];
      } else {
        if rule.ref in seen {
          errors := errors + [DuplicateRef(rule.ref)];
        }
        seen := seen + {rule.ref};
        var src := ValidateSide(rule.ref, rule.src, slugs, known);
        var dst := ValidateSide(rule.ref, rule.dst, slugs, known);
        errors := errors + src + dst;
      }
    }
  }

  // ----- the difference -----

  datatype GroupChange = GroupChange(slug: string, before: GroupFields, after: GroupFields)

  datatype RuleChange = RuleChange(ref: string, before: RuleFields, after: RuleFields)

  datatype Diff = Diff(
    groupsCreated: seq<string>, groupsUpdated: seq<GroupChange>, groupsDeleted: set<string>,
    rulesCreated: seq<string>, rulesUpdated: seq<RuleChange>, rulesDeleted: set<string>)
  {
    predicate IsEmpty() {
      && groupsCreated == [] && groupsUpdated == [] && groupsDeleted == {}
      && rulesCreated == [] && rulesUpdated == [] && rulesDeleted == {}
    }
  }

  function GroupsCreated(db: Db, groups: seq<GroupPayload>): seq<string> {
    if groups == [] then []
    else (if groups[0].slug in db.groups then [] else [groups[0].slug]) + GroupsCreated(db, groups[1..])
  }

  function GroupsUpdated(db: Db, groups: seq<GroupPayload>): seq<GroupChange> {
    if groups == [] then []
    else
      var p := groups[0];
      (if p.slug in db.groups && db.groups[p.slug] != NormalGroup(p)
       then [GroupChange(p.slug, db.groups[p.slug], NormalGroup(p))] else [])
      + GroupsUpdated(db, groups[1..])
  }

  function RulesCreated(db: Db, rules: seq<RulePayload>): seq<string> {
    if rules == [] then []
    else (if rules[0].ref in db.rules then [] else [rules[0].ref]) + RulesCreated(db, rules[1..])
  }

  function RulesUpdated(db: Db, rules: seq<RulePayload>): seq<RuleChange> {
    if rules == [] then []
    else
      var r := rules[0];
      (if r.ref in db.rules && db.rules[r.ref] != NormalRule(r)
       then [RuleChange(r.ref, db.rules[r.ref], NormalRule(r))] else [])
      + RulesUpdated(db, rules[1..])
  }

  function DiffOf(db: Db, doc: Document, prune: bool): Diff {
    Diff(GroupsCreated(db, doc.groups), GroupsUpdated(db, doc.groups),
         if prune then db.groups.Keys - SlugsOf(doc.groups) else {},
         RulesCreated(db, doc.rules), RulesUpdated(db, doc.rules),
         if prune then db.rules.Keys - RefsOf(doc.rules) else {})
  }

  // ----- the import -----

  function GroupsAfter(groups: map<string, GroupFields>, payloads: seq<GroupPayload>): map<string, GroupFields>
    decreases |payloads|
  {
    if payloads == [] then groups else GroupsAfter(groups[payloads[0].slug := NormalGroup(payloads[0])], payloads[1..])
  }

  /** `groups.get(name or "")`: a name no group has is dropped in silence. */
  function Resolve(g: Option<string>, groups: map<string, GroupFields>): Option<string> {
    if Or(g, "") in groups then Some(Or(g, "")) else None
  }

  function ResolveRule(r: RuleFields, groups: map<string, GroupFields>): RuleFields {
    r.(src := r.src.(group := Resolve(r.src.group, groups)), dst := r.dst.(group := Resolve(r.dst.group, groups)))
  }

  function RulesAfter(rules: map<string, RuleFields>, groups: map<string, GroupFields>, payloads: seq<RulePayload>): map<string, RuleFields>
    decreases |payloads|
  {
    if payloads == [] then rules
    else RulesAfter(rules[payloads[0].ref := ResolveRule(NormalRule(payloads[0]), groups)], groups, payloads[1..])
  }

  predicate NamesAny(r: RuleFields, slugs: set<string>) {
    (r.src.group.Some? && r.src.group.value in slugs) || (r.dst.group.Some? && r.dst.group.value in slugs)
  }

  /** Deleting a group takes every rule that names it along, whatever kind of endpoint the rule has. */
  function WithoutGroups(db: Db, slugs: set<string>): Db {
    Db(db.groups - slugs, map ref | ref in db.rules && !NamesAny(db.rules[ref], slugs) :: db.rules[ref])
  }

  function Applied(db: Db, doc: Document, prune: bool): Db {
    var groups := GroupsAfter(db.groups, doc.groups);
    var written := Db(groups, RulesAfter(db.rules, groups, doc.rules));
    if prune then
      WithoutGroups(written.(rules := written.rules - (db.rules.Keys - RefsOf(doc.rules))), db.groups.Keys - SlugsOf(doc.groups))
    else written
  }

  /** What the tables hold: rules name existing groups, and no group has an empty slug. */
  predicate Consistent(db: Db) {
    && "" !in db.groups
    && forall ref :: ref in db.rules ==> SideResolved(db.rules[ref].src, db.groups) && SideResolved(db.rules[ref].dst, db.groups)
  }

  predicate SideResolved(s: Side, groups: map<string, GroupFields>) {
    s.group.Some? ==> s.group.value in groups
  }

  // ----- export -----

  datatype GroupOut = GroupOut(slug: string, fields: GroupFields)

  datatype RuleOut = RuleOut(ref: string, fields: RuleFields)

  function GroupOutKey(g: GroupOut): Key { TextKey(g.slug) }

  function RuleOutKey(r: RuleOut): Key { [r.fields.priority] + TextKey(r.ref) }

  predicate GroupsInOrder(groups: seq<GroupOut>) {
    forall i, j :: 0 <= i < j < |groups| ==> TextLeq(groups[i].slug, groups[j].slug)
  }

  predicate RulesInOrder(rules: seq<RuleOut>) {
    forall i, j :: 0 <= i < j < |rules| ==>
      var r, q := rules[i], rules[j];
      r.fields.priority < q.fields.priority || (r.fields.priority == q.fields.priority && TextLeq(r.ref, q.ref))
  }

  lemma GroupOrder(groups: seq<GroupOut>)
    ensures Sorted(groups, GroupOutKey) <==> GroupsInOrder(groups)
  {
    forall i, j | 0 <= i < j < |groups|
      ensures LexLeq(GroupOutKey(groups[i]), GroupOutKey(groups[j])) <==> TextLeq(groups[i].slug, groups[j].slug)
    {
      TextOrder(groups[i].slug, groups[j].slug);
    }
  }

  lemma RuleOutOrder(rules: seq<RuleOut>)
    ensures Sorted(rules, RuleOutKey) <==> RulesInOrder(rules)
  {
    forall i, j | 0 <= i < j < |rules|
      ensures var r, q := rules[i], rules[j];
              LexLeq(RuleOutKey(r), RuleOutKey(q))
              <==> r.fields.priority < q.fields.priority || (r.fields.priority == q.fields.priority && TextLeq(r.ref, q.ref))
    {
      PriorityOrder(rules[i].fields.priority, rules[i].ref, rules[j].fields.priority, rules[j].ref);
    }
  }

  /** `export_document`: groups by slug, rules by priority and reference. */
  ghost predicate Exports(db: Db, groups: seq<GroupOut>, rules: seq<RuleOut>) {
    && GroupsInOrder(groups) && RulesInOrder(rules)
    && (forall g :: g in groups <==> g.slug in db.groups && db.groups[g.slug] == g.fields)
    && (forall r :: r in rules <==> r.ref in db.rules && db.rules[r.ref] == r.fields)
    && AllDistinct(groups) && AllDistinct(rules)
  }

  ghost predicate AllDistinct<T(!new)>(s: seq<T>) {
    forall i, j :: 0 <= i < j < |s| ==> s[i] != s[j]
  }

  lemma DistinctWhenSorted<T(!new)>(s: seq<T>, key: T -> Key)
    requires AllDistinct(s)
    ensures AllDistinct(SortBy(s, key))
  {
    var differ := (a: T, b: T) => a != b;
    SortByPermutes(s, key);
    PairwisePermutation(s, SortBy(s, key), differ);
    forall i, j | 0 <= i < j < |SortBy(s, key)|
      ensures SortBy(s, key)[i] != SortBy(s, key)[j]
    {
      assert differ(SortBy(s, key)[i], SortBy(s, key)[j]);
    }
  }

  class PolicyStore {
    var groups: map<string, GroupFields>
    var rules: map<string, RuleFields>

    constructor (db: Db)
      ensures Now() == db
    {
      groups, rules := db.groups, db.rules;
    }

    function Now(): Db
      reads this
    {
      Db(groups, rules)
    }

    /** `compute_diff`: a preview, touching nothing. */
    method ComputeDiff(doc: Document, prune: bool) returns (r: Result<Diff, seq<Problem>>)
      ensures r.Ok? <==> DocumentOk(doc, groups.Keys)
      ensures r.Ok? ==> r.value == DiffOf(Now(), doc, prune)
    {
      var errors := ValidateDocument(doc, groups.Keys);
      if errors != [] {
        return Err(errors);
      }
      var created, updated := DiffGroups(doc.groups);
      var newRules, changedRules := DiffRules(doc.rules);
      return Ok(Diff(created, updated, if prune then groups.Keys - SlugsOf(doc.groups) else {},
                     newRules, changedRules, if prune then rules.Keys - RefsOf(doc.rules) else {}));
    }

    lemma GroupDiffStep(payloads: seq<GroupPayload>, i: nat)
      requires i < |payloads|
      ensures GroupsCreated(Now(), payloads[i..])
           == (if payloads[i].slug in groups then [] else [payloads[i].slug]) + GroupsCreated(Now(), payloads[i + 1..])
      ensures GroupsUpdated(Now(), payloads[i..])
           == (if payloads[i].slug in groups && groups[payloads[i].slug] != NormalGroup(payloads[i])
               then [GroupChange(payloads[i].slug, groups[payloads[i].slug], NormalGroup(payloads[i]))] else [])
              + GroupsUpdated(Now(), payloads[i + 1..])
    {
      assert payloads[i..][0] == payloads[i] && payloads[i..][1..] == payloads[i + 1..];
    }

    method DiffGroups(payloads: seq<GroupPayload>) returns (created: seq<string>, updated: seq<GroupChange>)
      ensures created == GroupsCreated(Now(), payloads) && updated == GroupsUpdated(Now(), payloads)
    {
      created, updated := [], [];
      for i := 0 to |payloads|
        invariant created + GroupsCreated(Now(), payloads[i..]) == GroupsCreated(Now(), payloads)
        invariant updated + GroupsUpdated(Now(), payloads[i..]) == GroupsUpdated(Now(), payloads)
      {
        var p := payloads[i];
        GroupDiffStep(payloads, i);
        if p.slug !in groups {
          created := created + [p.slug];
        } else if groups[p.slug] != NormalGroup(p) {
          updated := updated + [GroupChange(p.slug, groups[p.slug], NormalGroup(p))];
        }
      }
    }

    lemma RuleDiffStep(payloads: seq<RulePayload>, i: nat)
      requires i < |payloads|
      ensures RulesCreated(Now(), payloads[i..])
           == (if payloads[i].ref in rules then [] else [payloads[i].ref]) + RulesCreated(Now(), payloads[i + 1..])
      ensures RulesUpdated(Now(), payloads[i..])
           == (if payloads[i].ref in rules && rules[payloads[i].ref] != NormalRule(payloads[i])
               then [RuleChange(payloads[i].ref, rules[payloads[i].ref], NormalRule(payloads[i]))] else [])
              + RulesUpdated(Now(), payloads[i + 1..])
    {
      assert payloads[i..][0] == payloads[i] && payloads[i..][1..] == payloads[i + 1..];
    }

    method DiffRules(payloads: seq<RulePayload>) returns (created: seq<string>, updated: seq<RuleChange>)
      ensures created == RulesCreated(Now(), payloads) && updated == RulesUpdated(Now(), payloads)
    {
      created, updated := [], [];
      for i := 0 to |payloads|
        invariant created + RulesCreated(Now(), payloads[i..]) == RulesCreated(Now(), payloads)
        invariant updated + RulesUpdated(Now(), payloads[i..]) == RulesUpdated(Now(), payloads)
      {
        var r := payloads[i];
        RuleDiffStep(payloads, i);
        if r.ref !in rules {
          created := created + [r.ref];
        } else if rules[r.ref] != NormalRule(r) {
          updated := updated + [RuleChange(r.ref, rules[r.ref], NormalRule(r))];
        }
      }
    }

    /** `apply_document`: the diff is computed first, and is what is reported. */
    method ApplyDocument(doc: Document, prune: bool) returns (r: Result<Diff, seq<Problem>>)
      modifies this
      ensures r.Ok? <==> DocumentOk(doc, old(groups).Keys)
      ensures r.Ok? ==> r.value == DiffOf(old(Now()), doc, prune) && Now() == Applied(old(Now()), doc, prune)
      ensures r.Err? ==> Now() == old(Now())
    {
      r := ComputeDiff(doc, prune);
      if r.Err? {
        return;
      }
      ghost var before := Now();
      for i := 0 to |doc.groups|
        invariant rules == before.rules
        invariant GroupsAfter(groups, doc.groups[i..]) == GroupsAfter(before.groups, doc.groups)
      {
        assert doc.groups[i..][0] == doc.groups[i] && doc.groups[i..][1..] == doc.groups[i + 1..];
        groups := groups[doc.groups[i].slug := NormalGroup(doc.groups[i])];
      }
      for i := 0 to |doc.rules|
        invariant groups == GroupsAfter(before.groups, doc.groups)
        invariant RulesAfter(rules, groups, doc.rules[i..]) == RulesAfter(before.rules, groups, doc.rules)
      {
        assert doc.rules[i..][0] == doc.rules[i] && doc.rules[i..][1..] == doc.rules[i + 1..];
        rules := rules[doc.rules[i].ref := ResolveRule(NormalRule(doc.rules[i]), groups)];
      }
      if prune {
        rules := rules - r.value.rulesDeleted;
        rules := WithoutGroups(Now(), r.value.groupsDeleted).rules;
        groups := groups - r.value.groupsDeleted;
      }
    }

    method ExportGroups() returns (out: seq<GroupOut>)
      ensures GroupsInOrder(out) && AllDistinct(out)
      ensures forall g :: g in out <==> g.slug in groups && groups[g.slug] == g.fields
    {
      var rows: seq<GroupOut> := [];
      var todo := groups.Keys;
      while todo != {}
        invariant todo <= groups.Keys
        invariant AllDistinct(rows)
        invariant forall g :: g in rows <==> g.slug in groups && g.slug !in todo && groups[g.slug] == g.fields
        decreases |todo|
      {
        var slug :| slug in todo;
        rows := rows + [GroupOut(slug, groups[slug])];
        todo := todo - {slug};
      }
      out := SortBy(rows, GroupOutKey);
      SortBySorted(rows, GroupOutKey);
      GroupOrder(out);
      DistinctWhenSorted(rows, GroupOutKey);
      forall g
        ensures g in out <==> g in rows
      {
        SortByMember(rows, GroupOutKey, g);
      }
    }

    method ExportRules() returns (out: seq<RuleOut>)
      ensures RulesInOrder(out) && AllDistinct(out)
      ensures forall r :: r in out <==> r.ref in rules && rules[r.ref] == r.fields
    {
      var rows: seq<RuleOut> := [];
      var todo := rules.Keys;
      while todo != {}
        invariant todo <= rules.Keys
        invariant AllDistinct(rows)
        invariant forall r :: r in rows <==> r.ref in rules && r.ref !in todo && rules[r.ref] == r.fields
        decreases |todo|
      {
        var ref :| ref in todo;
        rows := rows + [RuleOut(ref, rules[ref])];
        todo := todo - {ref};
      }
      out := SortBy(rows, RuleOutKey);
      SortBySorted(rows, RuleOutKey);
      RuleOutOrder(out);
      DistinctWhenSorted(rows, RuleOutKey);
      forall r
        ensures r in out <==> r in rows
      {
        SortByMember(rows, RuleOutKey, r);
      }
    }

    /** `export_document`. */
    method ExportDocument() returns (groupsOut: seq<GroupOut>, rulesOut: seq<RuleOut>)
      ensures Exports(Now(), groupsOut, rulesOut)
    {
      groupsOut := ExportGroups();
      rulesOut := ExportRules();
    }
  }
}
