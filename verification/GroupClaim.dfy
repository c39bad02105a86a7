/**
 Group membership as one delimited text, and the substring test the proxy makes on it.
 */
module GroupClaim {
  import opened Ordering

  predicate CommaFree(s: string) {
    forall i :: 0 <= i < |s| ==> s[i] != ','
  }

  /** `",".join(slugs)`. */
  function Joined(slugs: seq<string>): string {
    if slugs == [] then ""
    else if |slugs| == 1 then slugs[0]
    else slugs[0] + "," + Joined(slugs[1..])
  }

  function GroupClaim(slugs: seq<string>): string {
    if slugs == [] then "," else "," + Joined(slugs) + ","
  }

  predicate OccursAt(needle: string, text: string, i: nat) {
    i + |needle| <= |text| && text[i..i + |needle|] == needle
  }

  /** HAProxy's `-m sub`. */
  ghost predicate Occurs(needle: string, text: string) {
    exists i: nat :: OccursAt(needle, text, i)
  }

  function Pattern(slug: string): string {
    "," + slug + ","
  }

  /** One more slug in front: the claim grows by the slug and its delimiter. */
  lemma {:induction false} ClaimUnfolds(slugs: seq<string>)
    requires slugs != []
    ensures GroupClaim(slugs) == "," + slugs[0] + GroupClaim(slugs[1..])
  {
    if |slugs| > 1 {
      assert "," + (slugs[0] + "," + Joined(slugs[1..])) + "," == "," + slugs[0] + ("," + Joined(slugs[1..]) + ",");
    }
  }

  /** A pattern starts at a comma, so it sits on the first slug or wholly behind it. */
  lemma FirstOrRest(slug: string, first: string, rest: string)
    requires CommaFree(slug) && CommaFree(first)
    requires rest != "" && rest[0] == ','
    ensures Occurs(Pattern(slug), "," + first + rest) <==> slug == first || Occurs(Pattern(slug), rest)
  {
    var text, needle := "," + first + rest, Pattern(slug);
    var skip := 1 + |first|;
    if slug == first {
      assert text[0..|needle|] == needle;
      assert OccursAt(needle, text, 0);
    }
    if j: nat :| OccursAt(needle, rest, j) {
      assert text[skip + j..skip + j + |needle|] == rest[j..j + |needle|];
      assert OccursAt(needle, text, skip + j);
    }
    if i: nat :| OccursAt(needle, text, i) {
      assert text[i] == needle[0] == ',';
      if i == 0 {
        SamePrefix(slug, first, text);
      } else {
        assert forall k :: 0 <= k < |first| ==> text[1 + k] == first[k];
        assert i >= skip;
        assert text[i..i + |needle|] == rest[i - skip..i - skip + |needle|];
        assert OccursAt(needle, rest, i - skip);
      }
    }
  }

  lemma SamePrefix(slug: string, first: string, text: string)
    requires CommaFree(slug) && CommaFree(first)
    requires |text| > 1 + |first| && text[0] == ',' && text[1..1 + |first|] == first && text[1 + |first|] == ','
    requires OccursAt(Pattern(slug), text, 0)
    ensures slug == first
  {
    var needle := Pattern(slug);
    assert text[0..|needle|] == needle;
    forall k | 0 <= k < |slug|
      ensures text[1 + k] == slug[k]
    {
      assert text[0..|needle|][1 + k] == needle[1 + k];
    }
    assert text[1 + |slug|] == needle[1 + |slug|] == ',';
    forall k | 0 <= k < |first|
      ensures text[1 + k] == first[k]
    {
      assert text[1..1 + |first|][k] == first[k];
    }
    assert |slug| == |first|;
  }

  /** The emitted pattern matches the issued claim exactly when the person is in the group. */
  lemma {:induction false} PatternMeansMembership(slug: string, slugs: seq<string>)
    requires CommaFree(slug) && forall s :: s in slugs ==> CommaFree(s)
    ensures Occurs(Pattern(slug), GroupClaim(slugs)) <==> slug in slugs
  {
    if slugs == [] {
      assert |Pattern(slug)| >= 2 && |GroupClaim(slugs)| == 1;
    } else {
      var rest := GroupClaim(slugs[1..]);
      ClaimUnfolds(slugs);
      assert slugs[0] in slugs;
      FirstOrRest(slug, slugs[0], rest);
      PatternMeansMembership(slug, slugs[1..]);
      assert slugs == [slugs[0]] + slugs[1..];
    }
  }

  // ----- the groups of a person -----

  /** A row of the groups table: a zone is a routed segment, and no person sits in one. */
  datatype GroupRow = GroupRow(slug: string, isZone: bool)

  function GroupsOnly(rows: seq<GroupRow>): seq<string> {
    if rows == [] then []
    else (if rows[0].isZone then [] else [rows[0].slug]) + GroupsOnly(rows[1..])
  }

  function MemberSlugs(rows: seq<GroupRow>): seq<string> {
    SortBy(GroupsOnly(rows), TextKey)
  }

  lemma {:induction false} GroupsOnlyMean(rows: seq<GroupRow>, slug: string)
    ensures slug in GroupsOnly(rows) <==> GroupRow(slug, false) in rows
  {
    if rows != [] {
      GroupsOnlyMean(rows[1..], slug);
      assert rows == [rows[0]] + rows[1..];
    }
  }

  /** The slugs of the issued claim: those of the groups, in text order. */
  lemma MemberSlugsMean(rows: seq<GroupRow>, slug: string)
    ensures InTextOrder(MemberSlugs(rows))
    ensures slug in MemberSlugs(rows) <==> GroupRow(slug, false) in rows
  {
    TextsInOrder(GroupsOnly(rows));
    SortByMember(GroupsOnly(rows), TextKey, slug);
    GroupsOnlyMean(rows, slug);
  }

  /** The claim a person is issued matches a required group exactly when the person is in that group. */
  lemma IssuedClaimMeansMembership(slug: string, rows: seq<GroupRow>)
    requires CommaFree(slug) && forall r :: r in rows ==> CommaFree(r.slug)
    ensures Occurs(Pattern(slug), GroupClaim(MemberSlugs(rows))) <==> GroupRow(slug, false) in rows
  {
    forall s | s in MemberSlugs(rows)
      ensures CommaFree(s)
    {
      SortByMember(GroupsOnly(rows), TextKey, s);
      GroupsOnlyMean(rows, s);
    }
    PatternMeansMembership(slug, MemberSlugs(rows));
    SortByMember(GroupsOnly(rows), TextKey, slug);
    GroupsOnlyMean(rows, slug);
  }
}
