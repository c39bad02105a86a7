/**
 Importing a document: what is left alone, when a second import finds nothing, and what a
 pruning import makes of any database.
 */
module PolicyImport {
  import opened Wrappers
  import opened Ordering
  import opened Policies

  // ----- what the folds leave behind -----

  ghost predicate GroupsAgree(payloads: seq<GroupPayload>) {
    forall p, q :: p in payloads && q in payloads && p.slug == q.slug ==> NormalGroup(p) == NormalGroup(q)
  }

  lemma {:induction false} GroupsUntouched(groups: map<string, GroupFields>, payloads: seq<GroupPayload>, slug: string)
    ensures slug in GroupsAfter(groups, payloads) <==> slug in groups || exists p :: p in payloads && p.slug == slug
    ensures (forall p :: p in payloads ==> p.slug != slug) && slug in groups ==> GroupsAfter(groups, payloads)[slug] == groups[slug]
    decreases |payloads|
  {
    if payloads != [] {
      assert payloads == [payloads[0]] + payloads[1..];
      GroupsUntouched(groups[payloads[0].slug := NormalGroup(payloads[0])], payloads[1..], slug);
    }
  }

  /** The group a document mentions ends as one of its payloads says. */
  lemma {:induction false} GroupFromPayload(groups: map<string, GroupFields>, payloads: seq<GroupPayload>, slug: string)
    requires exists p :: p in payloads && p.slug == slug
    ensures slug in GroupsAfter(groups, payloads)
    ensures exists p :: p in payloads && p.slug == slug && GroupsAfter(groups, payloads)[slug] == NormalGroup(p)
    decreases |payloads|
  {
    var first, rest := payloads[0], payloads[1..];
    assert payloads == [first] + rest;
    var next := groups[first.slug := NormalGroup(first)];
    if exists p :: p in rest && p.slug == slug {
      GroupFromPayload(next, rest, slug);
      var p :| p in rest && p.slug == slug && GroupsAfter(next, rest)[slug] == NormalGroup(p);
      assert p in payloads;
    } else {
      GroupsUntouched(next, rest, slug);
      assert first in payloads;
    }
  }

  ghost predicate RefsDistinct(payloads: seq<RulePayload>) {
    forall i, j :: 0 <= i < j < |payloads| ==> payloads[i].ref != payloads[j].ref
  }

  lemma {:induction false} RulesUntouched(rules: map<string, RuleFields>, groups: map<string, GroupFields>, payloads: seq<RulePayload>, ref: string)
    ensures ref in RulesAfter(rules, groups, payloads) <==> ref in rules || exists r :: r in payloads && r.ref == ref
    ensures (forall r :: r in payloads ==> r.ref != ref) && ref in rules ==> RulesAfter(rules, groups, payloads)[ref] == rules[ref]
    decreases |payloads|
  {
    if payloads != [] {
      assert payloads == [payloads[0]] + payloads[1..];
      RulesUntouched(rules[payloads[0].ref := ResolveRule(NormalRule(payloads[0]), groups)], groups, payloads[1..], ref);
    }
  }

  lemma {:induction false} RuleFromPayload(rules: map<string, RuleFields>, groups: map<string, GroupFields>, payloads: seq<RulePayload>, r: RulePayload)
    requires RefsDistinct(payloads) && r in payloads
    ensures r.ref in RulesAfter(rules, groups, payloads)
    ensures RulesAfter(rules, groups, payloads)[r.ref] == ResolveRule(NormalRule(r), groups)
    decreases |payloads|
  {
    var first, rest := payloads[0], payloads[1..];
    assert payloads == [first] + rest;
    assert RefsDistinct(rest);
    var next := rules[first.ref := ResolveRule(NormalRule(first), groups)];
    if r == first {
      forall q | q in rest
        ensures q.ref != r.ref
      {
        var k :| 0 <= k < |rest| && rest[k] == q;
        assert payloads[k + 1] == q;
      }
      RulesUntouched(next, groups, rest, r.ref);
    } else {
      RuleFromPayload(next, groups, rest, r);
    }
  }

  lemma OkRefs(doc: Document, known: set<string>)
    requires DocumentOk(doc, known)
    ensures RefsDistinct(doc.rules)
  {
  }

  // ----- an import leaves alone what it does not mention -----

  lemma UnmentionedGroup(db: Db, doc: Document, slug: string)
    requires slug !in SlugsOf(doc.groups)
    ensures slug in Applied(db, doc, false).groups <==> slug in db.groups
    ensures slug in db.groups ==> Applied(db, doc, false).groups[slug] == db.groups[slug]
  {
    forall p | p in doc.groups
      ensures p.slug != slug
    {
      assert p.slug in SlugsOf(doc.groups);
    }
    GroupsUntouched(db.groups, doc.groups, slug);
  }

  lemma UnmentionedRule(db: Db, doc: Document, ref: string)
    requires ref !in RefsOf(doc.rules)
    ensures ref in Applied(db, doc, false).rules <==> ref in db.rules
    ensures ref in db.rules ==> Applied(db, doc, false).rules[ref] == db.rules[ref]
  {
    forall r | r in doc.rules
      ensures r.ref != ref
    {
      assert r.ref in RefsOf(doc.rules);
    }
    RulesUntouched(db.rules, GroupsAfter(db.groups, doc.groups), doc.rules, ref);
  }

  // ----- a diff is empty when every payload is in place -----

  lemma {:induction false} GroupDiffMeans(db: Db, payloads: seq<GroupPayload>)
    ensures GroupsCreated(db, payloads) == [] && GroupsUpdated(db, payloads) == []
       <==> forall p :: p in payloads ==> p.slug in db.groups && db.groups[p.slug] == NormalGroup(p)
  {
    if payloads != [] {
      GroupDiffMeans(db, payloads[1..]);
      assert payloads == [payloads[0]] + payloads[1..];
    }
  }

  lemma {:induction false} RuleDiffMeans(db: Db, payloads: seq<RulePayload>)
    ensures RulesCreated(db, payloads) == [] && RulesUpdated(db, payloads) == []
       <==> forall r :: r in payloads ==> r.ref in db.rules && db.rules[r.ref] == NormalRule(r)
  {
    if payloads != [] {
      RuleDiffMeans(db, payloads[1..]);
      assert payloads == [payloads[0]] + payloads[1..];
    }
  }

  predicate Resolvable(g: Option<string>, slugs: set<string>) {
    g.Some? ==> g.value in slugs
  }

  /** Every group a rule names, on a side of any kind, is in the document or already there. */
  ghost predicate AllResolvable(payloads: seq<RulePayload>, slugs: set<string>) {
    forall r :: r in payloads ==> Resolvable(r.src.group, slugs) && Resolvable(r.dst.group, slugs)
  }

  lemma ResolveKeeps(g: Option<string>, groups: map<string, GroupFields>)
    requires "" !in groups
    ensures Resolve(g, groups) == g <==> Resolvable(g, groups.Keys)
  {
  }

  lemma ResolveRuleKeeps(r: RulePayload, groups: map<string, GroupFields>)
    requires "" !in groups
    ensures ResolveRule(NormalRule(r), groups) == NormalRule(r) <==> Resolvable(r.src.group, groups.Keys) && Resolvable(r.dst.group, groups.Keys)
  {
    ResolveKeeps(r.src.group, groups);
    ResolveKeeps(r.dst.group, groups);
  }

  ghost predicate NoEmptySlug(db: Db, doc: Document) {
    "" !in db.groups && forall p :: p in doc.groups ==> p.slug != ""
  }

  lemma GroupKeysAfter(db: Db, doc: Document)
    ensures GroupsAfter(db.groups, doc.groups).Keys == db.groups.Keys + SlugsOf(doc.groups)
  {
    var after := GroupsAfter(db.groups, doc.groups);
    forall slug
      ensures slug in after.Keys <==> slug in db.groups.Keys + SlugsOf(doc.groups)
    {
      GroupsUntouched(db.groups, doc.groups, slug);
    }
  }

  lemma GroupsSettled(db: Db, payloads: seq<GroupPayload>)
    ensures GroupsAgree(payloads)
       <==> forall p :: p in payloads ==>
              p.slug in GroupsAfter(db.groups, payloads) && GroupsAfter(db.groups, payloads)[p.slug] == NormalGroup(p)
  {
    forall p | p in payloads
      ensures p.slug in GroupsAfter(db.groups, payloads)
      ensures exists q :: q in payloads && q.slug == p.slug && GroupsAfter(db.groups, payloads)[p.slug] == NormalGroup(q)
    {
      GroupFromPayload(db.groups, payloads, p.slug);
    }
  }

  lemma RulesSettled(db: Db, doc: Document, groups: map<string, GroupFields>)
    requires RefsDistinct(doc.rules) && "" !in groups
    ensures AllResolvable(doc.rules, groups.Keys)
       <==> forall r :: r in doc.rules ==>
              r.ref in RulesAfter(db.rules, groups, doc.rules) && RulesAfter(db.rules, groups, doc.rules)[r.ref] == NormalRule(r)
  {
    forall r | r in doc.rules
      ensures r.ref in RulesAfter(db.rules, groups, doc.rules)
      ensures RulesAfter(db.rules, groups, doc.rules)[r.ref] == NormalRule(r)
         <==> Resolvable(r.src.group, groups.Keys) && Resolvable(r.dst.group, groups.Keys)
    {
      RuleFromPayload(db.rules, groups, doc.rules, r);
      ResolveRuleKeeps(r, groups);
    }
  }

  /** Without prune: the payloads of one slug agree, and every group a rule names is in the document or was there. */
  lemma KeepingImportSettles(db: Db, doc: Document)
    requires DocumentOk(doc, db.groups.Keys) && NoEmptySlug(db, doc)
    ensures var after := Applied(db, doc, false);
      && after.groups.Keys == db.groups.Keys + SlugsOf(doc.groups)
      && (DiffOf(after, doc, false).IsEmpty() <==> GroupsAgree(doc.groups) && AllResolvable(doc.rules, after.groups.Keys))
  {
    var after := Applied(db, doc, false);
    GroupKeysAfter(db, doc);
    OkRefs(doc, db.groups.Keys);
    GroupDiffMeans(after, doc.groups);
    RuleDiffMeans(after, doc.rules);
    GroupsSettled(db, doc.groups);
    RulesSettled(db, doc, after.groups);
  }

  /** With prune only the groups of the document are left, and only its rules. */
  lemma PrunedKeys(db: Db, doc: Document)
    ensures var after := Applied(db, doc, true);
      && after.groups.Keys == SlugsOf(doc.groups)
      && after.rules.Keys <= RefsOf(doc.rules)
      && forall slug :: slug in after.groups ==> after.groups[slug] == GroupsAfter(db.groups, doc.groups)[slug]
  {
    var groups := GroupsAfter(db.groups, doc.groups);
    GroupKeysAfter(db, doc);
    assert groups.Keys - (db.groups.Keys - SlugsOf(doc.groups)) == SlugsOf(doc.groups);
    forall ref | ref in Applied(db, doc, true).rules
      ensures ref in RefsOf(doc.rules)
    {
      RulesUntouched(db.rules, groups, doc.rules, ref);
      RefMentioned(doc.rules, ref);
    }
  }

  /** A rule survives a pruning import as the document has it exactly when the groups it names are groups of the document. */
  lemma PrunedRuleKept(db: Db, doc: Document, r: RulePayload)
    requires DocumentOk(doc, db.groups.Keys) && NoEmptySlug(db, doc) && r in doc.rules
    ensures var after, slugs := Applied(db, doc, true).rules, SlugsOf(doc.groups);
      r.ref in after && after[r.ref] == NormalRule(r) <==> Resolvable(r.src.group, slugs) && Resolvable(r.dst.group, slugs)
  {
    var groups := GroupsAfter(db.groups, doc.groups);
    OkRefs(doc, db.groups.Keys);
    RuleFromPayload(db.rules, groups, doc.rules, r);
    GroupKeysAfter(db, doc);
    ResolveRuleKeeps(r, groups);
    RefMentioned(doc.rules, r.ref);
  }

  /** With prune: the payloads of one slug agree, and every group a rule names is in the document. */
  lemma PruningImportSettles(db: Db, doc: Document)
    requires DocumentOk(doc, db.groups.Keys) && NoEmptySlug(db, doc)
    ensures var after := Applied(db, doc, true);
            DiffOf(after, doc, true).IsEmpty() <==> GroupsAgree(doc.groups) && AllResolvable(doc.rules, after.groups.Keys)
  {
    var after := Applied(db, doc, true);
    PrunedKeys(db, doc);
    GroupDiffMeans(after, doc.groups);
    RuleDiffMeans(after, doc.rules);
    GroupsSettled(db, doc.groups);
    forall p | p in doc.groups
      ensures p.slug in after.groups
    {
      assert p.slug in SlugsOf(doc.groups);
    }
    forall r | r in doc.rules
      ensures r.ref in after.rules && after.rules[r.ref] == NormalRule(r)
         <==> Resolvable(r.src.group, after.groups.Keys) && Resolvable(r.dst.group, after.groups.Keys)
    {
      PrunedRuleKept(db, doc, r);
    }
  }

  /** The groups there are after an import. */
  function SlugsAfter(db: Db, doc: Document, prune: bool): set<string> {
    if prune then SlugsOf(doc.groups) else db.groups.Keys + SlugsOf(doc.groups)
  }

  /**
   After an import, pruning or not, the same document shows no difference exactly when payloads of
   one slug agree and every group named by a rule is still there; and it validates again exactly
   when the groups its sides of kind group name are.
   */
  lemma ImportSettles(db: Db, doc: Document, prune: bool)
    requires DocumentOk(doc, db.groups.Keys) && NoEmptySlug(db, doc)
    ensures var after := Applied(db, doc, prune);
      && after.groups.Keys == SlugsAfter(db, doc, prune)
      && (DiffOf(after, doc, prune).IsEmpty() <==> GroupsAgree(doc.groups) && AllResolvable(doc.rules, SlugsAfter(db, doc, prune)))
      && (DocumentOk(doc, after.groups.Keys) <==> !prune || DocumentOk(doc, {}))
  {
    var slugs := SlugsOf(doc.groups);
    if prune {
      PruningImportSettles(db, doc);
      PrunedKeys(db, doc);
      assert slugs + slugs == slugs + {};
    } else {
      KeepingImportSettles(db, doc);
      assert slugs + (db.groups.Keys + slugs) == slugs + db.groups.Keys;
    }
  }

  function OneRule(side: SidePayload): Document {
    Document(VERSION, [], [RulePayload("r", None, None, None, None, "accept", side, SidePayload(None, None, None), None, None, None)])
  }

  /** A document may validate and never settle: a rule for anyone that carries the name of no group. */
  lemma StrayNameNeverSettles(db: Db, stray: string, prune: bool)
    requires stray !in db.groups && stray != "" && "" !in db.groups
    ensures var doc := OneRule(SidePayload(None, Some(stray), None));
            DocumentOk(doc, db.groups.Keys) && !DiffOf(Applied(db, doc, prune), doc, prune).IsEmpty()
  {
    var doc := OneRule(SidePayload(None, Some(stray), None));
    var rule := doc.rules[0];
    assert rule in doc.rules;
    ImportSettles(db, doc, prune);
    assert !Resolvable(rule.src.group, SlugsAfter(db, doc, prune));
  }

  /** Or a rule for a group only the database has: a pruning import removes the group and the rule with it. */
  lemma PruningLosesTheRule(db: Db, slug: string)
    requires slug in db.groups && "" !in db.groups
    ensures var doc := OneRule(SidePayload(Some(GroupEnd), Some(slug), None));
            && DocumentOk(doc, db.groups.Keys)
            && "r" !in Applied(db, doc, true).rules
            && !DiffOf(Applied(db, doc, true), doc, true).IsEmpty() && !DocumentOk(doc, Applied(db, doc, true).groups.Keys)
  {
    var doc := OneRule(SidePayload(Some(GroupEnd), Some(slug), None));
    var rule, groups := doc.rules[0], GroupsAfter(db.groups, doc.groups);
    assert rule in doc.rules;
    ImportSettles(db, doc, true);
    assert !Resolvable(rule.src.group, SlugsAfter(db, doc, true));
    RuleFromPayload(db.rules, groups, doc.rules, rule);
    ResolveRuleKeeps(rule, groups);
  }

  // ----- an empty preview means nothing happens -----

  lemma {:induction false} GroupsInPlace(groups: map<string, GroupFields>, payloads: seq<GroupPayload>)
    requires forall p :: p in payloads ==> p.slug in groups && groups[p.slug] == NormalGroup(p)
    ensures GroupsAfter(groups, payloads) == groups
    decreases |payloads|
  {
    if payloads != [] {
      assert payloads[0] in payloads;
      assert groups[payloads[0].slug := NormalGroup(payloads[0])] == groups;
      GroupsInPlace(groups, payloads[1..]);
    }
  }

  lemma {:induction false} RulesInPlace(rules: map<string, RuleFields>, groups: map<string, GroupFields>, payloads: seq<RulePayload>)
    requires forall r :: r in payloads ==> r.ref in rules && rules[r.ref] == ResolveRule(NormalRule(r), groups)
    ensures RulesAfter(rules, groups, payloads) == rules
    decreases |payloads|
  {
    if payloads != [] {
      assert payloads[0] in payloads;
      assert rules[payloads[0].ref := ResolveRule(NormalRule(payloads[0]), groups)] == rules;
      RulesInPlace(rules, groups, payloads[1..]);
    }
  }

  lemma PruningNothing(db: Db)
    ensures WithoutGroups(db.(rules := db.rules - {}), {}) == db
  {
    assert db.rules - {} == db.rules && db.groups - {} == db.groups;
    assert WithoutGroups(db, {}).rules == db.rules;
  }

  /** A rule of the database that is in place names existing groups, so resolving keeps it. */
  lemma InPlaceResolves(db: Db, r: RulePayload)
    requires Consistent(db) && r.ref in db.rules && db.rules[r.ref] == NormalRule(r)
    ensures ResolveRule(NormalRule(r), db.groups) == NormalRule(r)
  {
    ResolveRuleKeeps(r, db.groups);
    assert SideResolved(db.rules[r.ref].src, db.groups) && SideResolved(db.rules[r.ref].dst, db.groups);
  }

  /** The preview can be trusted: where it shows nothing, the import changes nothing. */
  lemma EmptyDiffChangesNothing(db: Db, doc: Document, prune: bool)
    requires Consistent(db) && DocumentOk(doc, db.groups.Keys) && DiffOf(db, doc, prune).IsEmpty()
    ensures Applied(db, doc, prune) == db
  {
    GroupDiffMeans(db, doc.groups);
    RuleDiffMeans(db, doc.rules);
    GroupsInPlace(db.groups, doc.groups);
    forall r | r in doc.rules
      ensures r.ref in db.rules && db.rules[r.ref] == ResolveRule(NormalRule(r), db.groups)
    {
      InPlaceResolves(db, r);
    }
    RulesInPlace(db.rules, db.groups, doc.rules);
    PruningNothing(db);
  }

  /** The tables stay consistent, pruning or not. */
  lemma ImportKeepsConsistent(db: Db, doc: Document, prune: bool)
    requires Consistent(db) && NoEmptySlug(db, doc)
    ensures Consistent(Applied(db, doc, prune))
  {
    var groups := GroupsAfter(db.groups, doc.groups);
    GroupKeysAfter(db, doc);
    RulesResolved(db.rules, groups, doc.rules, db.groups.Keys);
  }

  lemma {:induction false} RulesResolved(rules: map<string, RuleFields>, groups: map<string, GroupFields>, payloads: seq<RulePayload>, old_: set<string>)
    requires old_ <= groups.Keys
    requires forall ref :: ref in rules ==> SideResolved(rules[ref].src, groups) && SideResolved(rules[ref].dst, groups)
    ensures forall ref :: ref in RulesAfter(rules, groups, payloads) ==>
      SideResolved(RulesAfter(rules, groups, payloads)[ref].src, groups) && SideResolved(RulesAfter(rules, groups, payloads)[ref].dst, groups)
    decreases |payloads|
  {
    if payloads != [] {
      RulesResolved(rules[payloads[0].ref := ResolveRule(NormalRule(payloads[0]), groups)], groups, payloads[1..], old_);
    }
  }

  // ----- pruning -----

  /** The database a document describes on its own. */
  function Described(doc: Document): Db {
    Db(GroupsAfter(map[], doc.groups), RulesDescribed(doc.rules))
  }

  function RulesDescribed(rules: seq<RulePayload>): map<string, RuleFields>
    decreases |rules|
  {
    if rules == [] then map[] else RulesDescribed(rules[..|rules| - 1])[rules[|rules| - 1].ref := NormalRule(rules[|rules| - 1])]
  }

  lemma {:induction false} RulesDescribedMean(rules: seq<RulePayload>, ref: string)
    requires RefsDistinct(rules)
    ensures ref in RulesDescribed(rules) <==> exists r :: r in rules && r.ref == ref
    ensures forall r :: r in rules && r.ref == ref ==> RulesDescribed(rules)[ref] == NormalRule(r)
    decreases |rules|
  {
    if rules != [] {
      var n := |rules| - 1;
      assert rules == rules[..n] + [rules[n]];
      RulesDescribedMean(rules[..n], ref);
      forall r | r in rules[..n]
        ensures r.ref != rules[n].ref
      {
        var k :| 0 <= k < n && rules[..n][k] == r;
        assert rules[k].ref != rules[n].ref;
      }
    }
  }

  /** Rules that name groups of the document only. */
  ghost predicate SelfContained(doc: Document) {
    AllResolvable(doc.rules, SlugsOf(doc.groups))
  }

  lemma PrunedGroups(db: Db, doc: Document)
    requires GroupsAgree(doc.groups)
    ensures GroupsAfter(db.groups, doc.groups) - (db.groups.Keys - SlugsOf(doc.groups)) == Described(doc).groups
  {
    var pruned, described := GroupsAfter(db.groups, doc.groups) - (db.groups.Keys - SlugsOf(doc.groups)), Described(doc).groups;
    var empty := Db(map[], map[]);
    forall slug
      ensures slug in pruned <==> slug in described
      ensures slug in pruned ==> pruned[slug] == described[slug]
    {
      GroupsUntouched(db.groups, doc.groups, slug);
      GroupsUntouched(map[], doc.groups, slug);
      assert slug in SlugsOf(doc.groups) <==> exists p :: p in doc.groups && p.slug == slug;
      if p :| p in doc.groups && p.slug == slug {
        GroupFromPayload(db.groups, doc.groups, slug);
        GroupFromPayload(empty.groups, doc.groups, slug);
      }
    }
  }

  lemma RefMentioned(rules: seq<RulePayload>, ref: string)
    ensures ref in RefsOf(rules) <==> exists r :: r in rules && r.ref == ref
  {
  }

  lemma PrunedRule(db: Db, doc: Document, ref: string)
    requires DocumentOk(doc, db.groups.Keys) && NoEmptySlug(db, doc) && SelfContained(doc)
    ensures var pruned := Applied(db, doc, true).rules;
      && (ref in pruned <==> ref in Described(doc).rules)
      && (ref in pruned ==> pruned[ref] == Described(doc).rules[ref])
  {
    OkRefs(doc, db.groups.Keys);
    RulesDescribedMean(doc.rules, ref);
    RefMentioned(doc.rules, ref);
    RulesUntouched(db.rules, GroupsAfter(db.groups, doc.groups), doc.rules, ref);
    if ref in RefsOf(doc.rules) {
      var r :| r in doc.rules && r.ref == ref;
      PrunedRuleKept(db, doc, r);
    }
  }

  /** A pruning import of a self-contained document gives the database the document describes, whatever was there before. */
  lemma PruneReplaces(db: Db, doc: Document)
    requires DocumentOk(doc, db.groups.Keys) && NoEmptySlug(db, doc) && SelfContained(doc) && GroupsAgree(doc.groups)
    ensures Applied(db, doc, true) == Described(doc)
  {
    PrunedGroups(db, doc);
    forall ref
      ensures ref in Applied(db, doc, true).rules <==> ref in Described(doc).rules
      ensures ref in Applied(db, doc, true).rules ==> Applied(db, doc, true).rules[ref] == Described(doc).rules[ref]
    {
      PrunedRule(db, doc, ref);
    }
    assert Applied(db, doc, true).rules == Described(doc).rules;
  }

  // ----- export -----

  lemma ExportIsUnique(db: Db, a: seq<GroupOut>, x: seq<RuleOut>, b: seq<GroupOut>, y: seq<RuleOut>)
    requires Exports(db, a, x) && Exports(db, b, y)
    ensures a == b && x == y
  {
    forall g
      ensures multiset(a)[g] == multiset(b)[g]
    {
      CountOne(a, g);
      CountOne(b, g);
    }
    assert multiset(a) == multiset(b);
    forall g, h | g in a && h in a && GroupOutKey(g) == GroupOutKey(h)
      ensures g == h
    {
      TextKeyInjective(g.slug, h.slug);
    }
    GroupOrder(a);
    GroupOrder(b);
    SortedUnique(a, b, GroupOutKey);
    forall r
      ensures multiset(x)[r] == multiset(y)[r]
    {
      CountOne(x, r);
      CountOne(y, r);
    }
    assert multiset(x) == multiset(y);
    forall r, t | r in x && t in x && RuleOutKey(r) == RuleOutKey(t)
      ensures r == t
    {
      assert RuleOutKey(r)[1..] == TextKey(r.ref) && RuleOutKey(t)[1..] == TextKey(t.ref);
      TextKeyInjective(r.ref, t.ref);
    }
    RuleOutOrder(x);
    RuleOutOrder(y);
    SortedUnique(x, y, RuleOutKey);
  }

  lemma CountOne<T(!new)>(s: seq<T>, x: T)
    requires AllDistinct(s)
    ensures multiset(s)[x] == if x in s then 1 else 0
  {
    assert x in s <==> x in multiset(s);
    if multiset(s)[x] >= 2 {
      var i, j := TwoPlaces(s, x);
      assert false;
    }
  }

  /** Restoring a document on two gateways gives the same export, to the byte. */
  lemma SameDocumentSameExport(one: Db, other: Db, doc: Document, a: seq<GroupOut>, x: seq<RuleOut>, b: seq<GroupOut>, y: seq<RuleOut>)
    requires DocumentOk(doc, one.groups.Keys) && DocumentOk(doc, other.groups.Keys)
    requires NoEmptySlug(one, doc) && NoEmptySlug(other, doc) && SelfContained(doc) && GroupsAgree(doc.groups)
    requires Exports(Applied(one, doc, true), a, x) && Exports(Applied(other, doc, true), b, y)
    ensures a == b && x == y
  {
    PruneReplaces(one, doc);
    PruneReplaces(other, doc);
    ExportIsUnique(Described(doc), a, x, b, y);
  }

  /** The export of a pruned import holds the normalised document, entry for entry. */
  lemma ExportIsTheDocument(db: Db, doc: Document, a: seq<GroupOut>, x: seq<RuleOut>)
    requires DocumentOk(doc, db.groups.Keys) && NoEmptySlug(db, doc) && SelfContained(doc) && GroupsAgree(doc.groups)
    requires Exports(Applied(db, doc, true), a, x)
    ensures forall g :: g in a <==> exists p :: p in doc.groups && g == GroupOut(p.slug, NormalGroup(p))
    ensures forall r :: r in x <==> exists p :: p in doc.rules && r == RuleOut(p.ref, NormalRule(p))
  {
    PruneReplaces(db, doc);
    OkRefs(doc, db.groups.Keys);
    forall g
      ensures g in a <==> exists p :: p in doc.groups && g == GroupOut(p.slug, NormalGroup(p))
    {
      GroupsUntouched(map[], doc.groups, g.slug);
      if p :| p in doc.groups && p.slug == g.slug {
        GroupFromPayload(map[], doc.groups, g.slug);
      }
    }
    forall r
      ensures r in x <==> exists p :: p in doc.rules && r == RuleOut(p.ref, NormalRule(p))
    {
      RulesDescribedMean(doc.rules, r.ref);
    }
  }

  // ----- an exported document, read back -----

  /** An exported group as a document has it, with every field. */
  function GroupWritten(g: GroupOut): GroupPayload {
    GroupPayload(g.slug, Some(g.fields.name), g.fields.description, Some(g.fields.kind), Some(g.fields.exit), g.fields.lifetime)
  }

  function SideWritten(s: Side): SidePayload {
    SidePayload(Some(s.kind), s.group, s.cidr)
  }

  /** An exported rule as a document has it, with every field. */
  function RuleWritten(r: RuleOut): RulePayload {
    var f := r.fields;
    RulePayload(r.ref, Some(f.name), f.description, Some(f.priority), Some(f.enabled), f.action,
                SideWritten(f.src), SideWritten(f.dst), Some(f.protocol), f.portStart, f.portEnd)
  }

  function DocumentWritten(groups: seq<GroupOut>, rules: seq<RuleOut>): Document {
    Document(1, seq(|groups|, i requires 0 <= i < |groups| => GroupWritten(groups[i])),
             seq(|rules|, i requires 0 <= i < |rules| => RuleWritten(rules[i])))
  }

  /** A written entry says what was exported, every field of it in its own place. */
  lemma WrittenIsMeant(g: GroupOut)
    requires g.fields.name != ""
    ensures NormalGroup(GroupWritten(g)) == g.fields
  {
  }

  lemma RuleWrittenIsMeant(r: RuleOut)
    requires r.fields.name != ""
    ensures NormalRule(RuleWritten(r)) == r.fields
  {
  }

  /** What a document leaves out of a group. A name that is there and empty counts as left out. */
  lemma GroupDefaults(p: GroupPayload)
    ensures var g := NormalGroup(p);
      && g.description == p.description && g.lifetime == p.lifetime
      && (if p.name in {None, Some("")} then g.name == p.slug else p.name == Some(g.name))
      && (if p.kind.None? then g.kind.PlainGroup? else p.kind == Some(g.kind))
      && (if p.exit.None? then !g.exit else p.exit == Some(g.exit))
  {
  }

  predicate SideMeant(p: SidePayload, s: Side) {
    && (if p.kind.None? then s.kind.AnyKind? else p.kind == Some(s.kind))
    && s.group == p.group && s.cidr == p.cidr
  }

  /** And of a rule: its own reference for a name, priority 100, enabled, for anyone, any protocol. */
  lemma RuleDefaults(p: RulePayload)
    ensures var r := NormalRule(p);
      && r.description == p.description && r.action == p.action && r.portStart == p.portStart && r.portEnd == p.portEnd
      && SideMeant(p.src, r.src) && SideMeant(p.dst, r.dst)
      && (if p.name in {None, Some("")} then r.name == p.ref else p.name == Some(r.name))
      && (if p.priority.None? then r.priority == 100 else p.priority == Some(r.priority))
      && (if p.enabled.None? then r.enabled else p.enabled == Some(r.enabled))
      && (if p.protocol.None? then r.protocol == "any" else p.protocol == Some(r.protocol))
  {
  }

  /** What the tables promise besides their references: names are there, and a side has what its kind needs. */
  ghost predicate Complete(db: Db) {
    && (forall slug :: slug in db.groups ==> db.groups[slug].name != "")
    && (forall ref :: ref in db.rules ==>
          ref != "" && db.rules[ref].name != "" && SideComplete(db.rules[ref].src) && SideComplete(db.rules[ref].dst))
  }

  predicate SideComplete(s: Side) {
    (s.kind.GroupEnd? ==> s.group.Some?) && (s.kind.CidrEnd? ==> s.cidr.Some? && s.cidr.value != "")
  }

  lemma WrittenGroups(db: Db, groups: seq<GroupOut>, rules: seq<RuleOut>)
    requires Exports(db, groups, rules)
    ensures forall p :: p in DocumentWritten(groups, rules).groups <==> p.slug in db.groups && p == GroupWritten(GroupOut(p.slug, db.groups[p.slug]))
    ensures SlugsOf(DocumentWritten(groups, rules).groups) == db.groups.Keys
  {
    var doc := DocumentWritten(groups, rules);
    forall slug | slug in db.groups
      ensures GroupWritten(GroupOut(slug, db.groups[slug])) in doc.groups
    {
      var g := GroupOut(slug, db.groups[slug]);
      var i :| 0 <= i < |groups| && groups[i] == g;
      assert doc.groups[i] == GroupWritten(g);
    }
    forall p | p in doc.groups
      ensures p.slug in db.groups && p == GroupWritten(GroupOut(p.slug, db.groups[p.slug]))
    {
      var i :| 0 <= i < |groups| && doc.groups[i] == p;
      assert groups[i] in groups;
    }
    forall slug | slug in db.groups
      ensures slug in SlugsOf(doc.groups)
    {
      assert GroupWritten(GroupOut(slug, db.groups[slug])).slug in SlugsOf(doc.groups);
    }
  }

  lemma WrittenRules(db: Db, groups: seq<GroupOut>, rules: seq<RuleOut>)
    requires Exports(db, groups, rules)
    ensures forall p :: p in DocumentWritten(groups, rules).rules <==> p.ref in db.rules && p == RuleWritten(RuleOut(p.ref, db.rules[p.ref]))
    ensures RefsDistinct(DocumentWritten(groups, rules).rules)
    ensures RefsOf(DocumentWritten(groups, rules).rules) == db.rules.Keys
  {
    var doc := DocumentWritten(groups, rules);
    forall ref | ref in db.rules
      ensures RuleWritten(RuleOut(ref, db.rules[ref])) in doc.rules
    {
      var r := RuleOut(ref, db.rules[ref]);
      var i :| 0 <= i < |rules| && rules[i] == r;
      assert doc.rules[i] == RuleWritten(r);
    }
    forall p | p in doc.rules
      ensures p.ref in db.rules && p == RuleWritten(RuleOut(p.ref, db.rules[p.ref]))
    {
      var i :| 0 <= i < |rules| && doc.rules[i] == p;
      assert rules[i] in rules;
    }
    forall i, j | 0 <= i < j < |doc.rules|
      ensures doc.rules[i].ref != doc.rules[j].ref
    {
      assert rules[i] in rules && rules[j] in rules && rules[i] != rules[j];
    }
    forall ref | ref in db.rules
      ensures ref in RefsOf(doc.rules)
    {
      assert RuleWritten(RuleOut(ref, db.rules[ref])).ref in RefsOf(doc.rules);
    }
  }

  lemma WrittenValid(db: Db, groups: seq<GroupOut>, rules: seq<RuleOut>, known: set<string>)
    requires Exports(db, groups, rules) && Consistent(db) && Complete(db)
    ensures var doc := DocumentWritten(groups, rules);
            DocumentOk(doc, known) && SelfContained(doc) && GroupsAgree(doc.groups)
  {
    var doc := DocumentWritten(groups, rules);
    WrittenGroups(db, groups, rules);
    WrittenRules(db, groups, rules);
    forall i | 0 <= i < |doc.rules|
      ensures doc.rules[i].ref != ""
      ensures SideOk(doc.rules[i].src, SlugsOf(doc.groups) + known) && SideOk(doc.rules[i].dst, SlugsOf(doc.groups) + known)
      ensures Resolvable(doc.rules[i].src.group, SlugsOf(doc.groups)) && Resolvable(doc.rules[i].dst.group, SlugsOf(doc.groups))
    {
      var p := doc.rules[i];
      assert p in doc.rules && p.ref in db.rules;
      assert SideResolved(db.rules[p.ref].src, db.groups) && SideResolved(db.rules[p.ref].dst, db.groups);
    }
  }

  lemma WrittenGroup(db: Db, groups: seq<GroupOut>, rules: seq<RuleOut>, slug: string)
    requires Exports(db, groups, rules) && Complete(db)
    ensures var described := GroupsAfter(map[], DocumentWritten(groups, rules).groups);
            (slug in described <==> slug in db.groups) && (slug in db.groups ==> described[slug] == db.groups[slug])
  {
    var payloads := DocumentWritten(groups, rules).groups;
    WrittenGroups(db, groups, rules);
    GroupsUntouched(map[], payloads, slug);
    if slug in db.groups {
      var g := GroupOut(slug, db.groups[slug]);
      assert GroupWritten(g) in payloads;
      GroupFromPayload(map[], payloads, slug);
      WrittenIsMeant(g);
    }
  }

  lemma WrittenRule(db: Db, groups: seq<GroupOut>, rules: seq<RuleOut>, ref: string)
    requires Exports(db, groups, rules) && Complete(db)
    ensures var described := RulesDescribed(DocumentWritten(groups, rules).rules);
            (ref in described <==> ref in db.rules) && (ref in db.rules ==> described[ref] == db.rules[ref])
  {
    var payloads := DocumentWritten(groups, rules).rules;
    WrittenRules(db, groups, rules);
    RulesDescribedMean(payloads, ref);
    if ref in db.rules {
      var r := RuleOut(ref, db.rules[ref]);
      assert RuleWritten(r) in payloads;
      RuleWrittenIsMeant(r);
    }
  }

  lemma WrittenDescribes(db: Db, groups: seq<GroupOut>, rules: seq<RuleOut>)
    requires Exports(db, groups, rules) && Complete(db)
    ensures Described(DocumentWritten(groups, rules)) == db
  {
    var described := Described(DocumentWritten(groups, rules));
    forall slug
      ensures (slug in described.groups <==> slug in db.groups) && (slug in db.groups ==> described.groups[slug] == db.groups[slug])
    {
      WrittenGroup(db, groups, rules, slug);
    }
    forall ref
      ensures (ref in described.rules <==> ref in db.rules) && (ref in db.rules ==> described.rules[ref] == db.rules[ref])
    {
      WrittenRule(db, groups, rules, ref);
    }
    assert described.groups == db.groups && described.rules == db.rules;
  }

  lemma WrittenInPlace(db: Db, groups: seq<GroupOut>, rules: seq<RuleOut>, prune: bool)
    requires Exports(db, groups, rules) && Complete(db)
    ensures DiffOf(db, DocumentWritten(groups, rules), prune).IsEmpty()
  {
    var doc := DocumentWritten(groups, rules);
    WrittenGroups(db, groups, rules);
    WrittenRules(db, groups, rules);
    forall p | p in doc.groups
      ensures p.slug in db.groups && db.groups[p.slug] == NormalGroup(p)
    {
      assert p == GroupWritten(GroupOut(p.slug, db.groups[p.slug]));
    }
    forall p | p in doc.rules
      ensures p.ref in db.rules && db.rules[p.ref] == NormalRule(p)
    {
      assert p == RuleWritten(RuleOut(p.ref, db.rules[p.ref]));
    }
    GroupDiffMeans(db, doc.groups);
    RuleDiffMeans(db, doc.rules);
    assert db.groups.Keys - SlugsOf(doc.groups) == {} && db.rules.Keys - RefsOf(doc.rules) == {};
  }

  /**
   The export of a gateway is a backup of it: read back, it validates anywhere, shows no difference
   where it was made, and a pruning import of it restores the tables from any others.
   */
  lemma ExportRestores(db: Db, groups: seq<GroupOut>, rules: seq<RuleOut>, other: Db, prune: bool)
    requires Exports(db, groups, rules) && Consistent(db) && Complete(db) && "" !in other.groups
    ensures var doc := DocumentWritten(groups, rules);
      && DocumentOk(doc, other.groups.Keys)
      && DiffOf(db, doc, prune).IsEmpty() && Applied(db, doc, prune) == db
      && Applied(other, doc, true) == db
  {
    var doc := DocumentWritten(groups, rules);
    WrittenValid(db, groups, rules, other.groups.Keys);
    WrittenValid(db, groups, rules, db.groups.Keys);
    WrittenInPlace(db, groups, rules, prune);
    EmptyDiffChangesNothing(db, doc, prune);
    WrittenGroups(db, groups, rules);
    PruneReplaces(other, doc);
    WrittenDescribes(db, groups, rules);
  }
}
