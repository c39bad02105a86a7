/**
 The country map a gateway builds for the countries its filters name, and the stamp that says
 which: honest after a crash at any step, and as good as a map of the whole world.
 */
module Geo {
  import opened Wrappers
  import opened Ordering
  import opened Net
  import opened Grammar
  import opened Text
  import opened HaproxyModel
  import opened HaproxyProgram
  import opened HaproxyPolicy

  // ----- the dataset -----

  /** A line of the dataset: an inclusive range of addresses and its country. */
  datatype Row = BadRow | Row(low: Address, high: Address, country: string)

  datatype MapEntry = MapEntry(network: Network, country: string)

  predicate AtMost(a: Address, b: Address) {
    a.family == b.family && LexLeq(BitsKey(a.bits), BitsKey(b.bits))
  }

  predicate InRange(a: Address, r: Row) {
    r.Row? && AtMost(r.low, a) && AtMost(a, r.high)
  }

  /** `summarize_address_range`, by its contract: the prefixes hold exactly the range. */
  type Summary = (Address, Address) -> seq<Network>

  ghost predicate CoversExactly(summarize: Summary) {
    forall low, high, a {:trigger InNetworks(summarize(low, high), a)} ::
      AtMost(low, high) ==> (InNetworks(summarize(low, high), a) <==> AtMost(low, a) && AtMost(a, high))
  }

  ghost predicate InNetworks(networks: seq<Network>, a: Address) {
    exists n :: n in networks && Contains(n, a)
  }

  function Tagged(networks: seq<Network>, country: string): (entries: seq<MapEntry>)
    ensures |entries| == |networks|
    ensures forall i :: 0 <= i < |entries| ==> entries[i] == MapEntry(networks[i], country)
  {
    seq(|networks|, i requires 0 <= i < |networks| => MapEntry(networks[i], country))
  }

  /** `_entries`: the wanted rows, as prefixes; a malformed row costs itself only. */
  function EntriesOf(summarize: Summary, rows: seq<Row>, keep: seq<string>): seq<MapEntry> {
    if rows == [] then []
    else
      (if rows[0].Row? && rows[0].country in keep && AtMost(rows[0].low, rows[0].high)
       then Tagged(summarize(rows[0].low, rows[0].high), rows[0].country) else [])
      + EntriesOf(summarize, rows[1..], keep)
  }

  // ----- the lookup -----

  /** `map_ip`: the entry with the longest prefix. */
  function Best(entries: seq<MapEntry>, a: Address): Option<MapEntry> {
    if entries == [] then None
    else
      var rest := Best(entries[1..], a);
      if Contains(entries[0].network, a) && (rest.None? || |entries[0].network.prefix| >= |rest.value.network.prefix|)
      then Some(entries[0]) else rest
  }

  function CountryOf(entries: seq<MapEntry>, a: Address): Option<string> {
    var best := Best(entries, a);
    if best.Some? then Some(best.value.country) else None
  }

  lemma {:induction false} BestMeans(entries: seq<MapEntry>, a: Address)
    ensures Best(entries, a).Some? ==> Best(entries, a).value in entries && Contains(Best(entries, a).value.network, a)
    ensures Best(entries, a).None? ==> forall e :: e in entries ==> !Contains(e.network, a)
    ensures forall e :: e in entries && Contains(e.network, a) ==>
      Best(entries, a).Some? && |e.network.prefix| <= |Best(entries, a).value.network.prefix|
  {
    if entries != [] {
      BestMeans(entries[1..], a);
      assert entries == [entries[0]] + entries[1..];
    }
  }

  /** The map holds an entry for the address and country exactly when the dataset has a wanted range for them. */
  lemma {:induction false} EntriesMean(summarize: Summary, rows: seq<Row>, keep: seq<string>, a: Address, c: string)
    requires CoversExactly(summarize)
    ensures (exists e :: e in EntriesOf(summarize, rows, keep) && Contains(e.network, a) && e.country == c)
       <==> c in keep && exists r :: r in rows && InRange(a, r) && r.country == c
  {
    if rows != [] {
      var r, rest := rows[0], EntriesOf(summarize, rows[1..], keep);
      EntriesMean(summarize, rows[1..], keep, a, c);
      assert rows == [r] + rows[1..];
      if r.Row? && r.country in keep && AtMost(r.low, r.high) {
        var networks := summarize(r.low, r.high);
        var here := Tagged(networks, r.country);
        assert InNetworks(networks, a) <==> InRange(a, r);
        assert (exists e :: e in here && Contains(e.network, a) && e.country == c) <==> InRange(a, r) && r.country == c by {
          TaggedMean(networks, r.country, a, c);
        }
        assert EntriesOf(summarize, rows, keep) == here + rest;
      } else {
        assert EntriesOf(summarize, rows, keep) == rest;
        if r.Row? && InRange(a, r) {
          AtMostThrough(r.low, a, r.high);
        }
      }
    }
  }

  lemma TaggedMean(networks: seq<Network>, country: string, a: Address, c: string)
    ensures (exists e :: e in Tagged(networks, country) && Contains(e.network, a) && e.country == c)
       <==> InNetworks(networks, a) && country == c
  {
    var entries := Tagged(networks, country);
    if InNetworks(networks, a) {
      var n :| n in networks && Contains(n, a);
      var i :| 0 <= i < |networks| && networks[i] == n;
      assert entries[i] in entries;
    }
  }

  lemma AtMostThrough(low: Address, a: Address, high: Address)
    requires AtMost(low, a) && AtMost(a, high)
    ensures AtMost(low, high)
  {
    LexTransitive(BitsKey(low.bits), BitsKey(a.bits), BitsKey(high.bits));
  }

  /** Ranges that share an address agree on the country, disjoint ranges in particular. */
  ghost predicate Consistent(rows: seq<Row>) {
    forall r, t, a :: r in rows && t in rows && InRange(a, r) && InRange(a, t) ==> r.country == t.country
  }

  lemma CountryMeans(summarize: Summary, rows: seq<Row>, keep: seq<string>, a: Address, c: string)
    requires CoversExactly(summarize) && Consistent(rows)
    ensures CountryOf(EntriesOf(summarize, rows, keep), a) == Some(c)
       <==> c in keep && exists r :: r in rows && InRange(a, r) && r.country == c
  {
    var entries := EntriesOf(summarize, rows, keep);
    BestMeans(entries, a);
    EntriesMean(summarize, rows, keep, a, c);
    if Best(entries, a).Some? {
      var e := Best(entries, a).value;
      EntriesMean(summarize, rows, keep, a, e.country);
    }
  }

  // ----- a partial map is enough -----

  function CountriesOf(rows: seq<Row>): seq<string> {
    if rows == [] then []
    else (if rows[0].Row? then [rows[0].country] else []) + CountriesOf(rows[1..])
  }

  lemma {:induction false} CountriesOfMean(rows: seq<Row>, r: Row)
    requires r in rows && r.Row?
    ensures r.country in CountriesOf(rows)
  {
    if rows[0] != r {
      CountriesOfMean(rows[1..], r);
    }
  }

  function WithMap(w: World, entries: seq<MapEntry>): World {
    w.(country := (a: Address) => CountryOf(entries, a))
  }

  lemma PartAnswersAsWhole(summarize: Summary, rows: seq<Row>, keep: seq<string>, a: Address, c: string)
    requires CoversExactly(summarize) && Consistent(rows) && c in keep
    ensures CountryOf(EntriesOf(summarize, rows, keep), a) == Some(c)
       <==> CountryOf(EntriesOf(summarize, rows, CountriesOf(rows)), a) == Some(c)
  {
    CountryMeans(summarize, rows, keep, a, c);
    CountryMeans(summarize, rows, CountriesOf(rows), a, c);
    if r :| r in rows && InRange(a, r) && r.country == c {
      CountriesOfMean(rows, r);
    }
  }

  /** A filter over mapped countries decides as it would with the whole world mapped. */
  lemma PartialMapDecides(summarize: Summary, rows: seq<Row>, keep: seq<string>, w: World, s: Service, f: Filter, q: Request)
    requires CoversExactly(summarize) && Consistent(rows)
    requires forall c :: c in f.countries ==> c in keep
    ensures FilterPasses(WithMap(w, EntriesOf(summarize, rows, keep)), s, f, q)
       <==> FilterPasses(WithMap(w, EntriesOf(summarize, rows, CountriesOf(rows))), s, f, q)
  {
    var part, whole := EntriesOf(summarize, rows, keep), EntriesOf(summarize, rows, CountriesOf(rows));
    forall c | c in f.countries
      ensures CountryOf(part, q.src) == Some(c) <==> CountryOf(whole, q.src) == Some(c)
    {
      PartAnswersAsWhole(summarize, rows, keep, q.src, c);
    }
  }

  /** `geo_countries`: every country a geography filter of any service names. */
  function FilterCountries(filters: seq<Filter>): (r: seq<string>)
    ensures forall c :: c in r <==> exists f :: f in filters && (f.kind.GeoAllow? || f.kind.GeoDeny?) && c in f.countries
  {
    if filters == [] then []
    else
      assert filters == [filters[0]] + filters[1..];
      (if filters[0].kind.IsGeo() then filters[0].countries else []) + FilterCountries(filters[1..])
  }

  function ServiceCountries(services: seq<Service>): (r: seq<string>)
    ensures forall c :: c in r <==> exists s, f :: s in services && f in s.filters && (f.kind.GeoAllow? || f.kind.GeoDeny?) && c in f.countries
  {
    if services == [] then []
    else
      assert services == [services[0]] + services[1..];
      FilterCountries(services[0].filters) + ServiceCountries(services[1..])
  }

  function GeoCountries(spec: ProxySpec): seq<string> {
    SortedSet(ServiceCountries(spec.services), TextKey)
  }

  /** So every geography filter of a specification is decided by the map built for it. */
  lemma MapServesEveryFilter(summarize: Summary, rows: seq<Row>, spec: ProxySpec, w: World, s: Service, f: Filter, q: Request)
    requires CoversExactly(summarize) && Consistent(rows)
    requires s in spec.services && f in s.filters && (f.kind.GeoAllow? || f.kind.GeoDeny?)
    ensures FilterPasses(WithMap(w, EntriesOf(summarize, rows, GeoCountries(spec))), s, f, q)
       <==> FilterPasses(WithMap(w, EntriesOf(summarize, rows, CountriesOf(rows))), s, f, q)
  {
    forall c | c in f.countries
      ensures c in GeoCountries(spec)
    {
      SortedSetMember(ServiceCountries(spec.services), TextKey, c);
    }
    PartialMapDecides(summarize, rows, GeoCountries(spec), w, s, f, q);
  }

  // ----- the stamp -----

  lemma ShortStamp(words: seq<string>)
    requires |words| <= 1 && forall w :: w in words ==> Word(w)
    ensures SplitWords(JoinWords(words) + "\n") == words
  {
    assert "\n"[1..] == "";
    if words == [] {
      assert JoinWords(words) + "\n" == "\n";
    } else {
      SplitOne(words[0], "\n");
    }
  }

  lemma OneWordMore(word: string, rest: string)
    requires Word(word)
    ensures SplitWords(word + (" " + rest)) == [word] + SplitWords(rest)
  {
    SplitOne(word, " " + rest);
    assert (" " + rest)[1..] == rest;
  }

  /** What is read back from the stamp is what was written. */
  lemma {:induction false} StampRoundTrip(words: seq<string>)
    requires forall w :: w in words ==> Word(w)
    ensures SplitWords(JoinWords(words) + "\n") == words
  {
    if |words| <= 1 {
      ShortStamp(words);
    } else {
      var rest := JoinWords(words[1..]) + "\n";
      StampRoundTrip(words[1..]);
      OneWordMore(words[0], rest);
      assert JoinWords(words) + "\n" == words[0] + (" " + rest);
    }
  }

  // ----- the builder -----

  function Codes(countries: seq<string>): seq<string> {
    if countries == [] then []
    else
      (if Stripped(countries[0]) != "" then [Uppercase(Stripped(countries[0]))] else []) + Codes(countries[1..])
  }

  /** What one entry of the request asks for, if anything. */
  predicate AsksFor(entry: string, c: string) {
    Stripped(entry) != "" && c == Uppercase(Stripped(entry))
  }

  lemma {:induction false} CodesMean(countries: seq<string>, c: string)
    ensures c in Codes(countries) <==> exists entry :: entry in countries && AsksFor(entry, c)
  {
    if countries != [] {
      CodesMean(countries[1..], c);
      assert countries == [countries[0]] + countries[1..];
      assert c in Codes(countries) <==> AsksFor(countries[0], c) || c in Codes(countries[1..]);
    }
  }

  datatype GeoError = NotCountryCodes

  function Normalise(countries: seq<string>): (r: Result<seq<string>, GeoError>)
    ensures r.Ok? ==> forall c :: c in r.value ==> CountryCode(c)
  {
    var codes := SortedSet(Codes(countries), TextKey);
    if forall c :: c in codes ==> CountryCode(c) then Ok(codes) else Err(NotCountryCodes)
  }

  /** Blank entries aside, every entry must be two letters in either case; each country is wanted once, in text order. */
  lemma NormaliseMeans(countries: seq<string>)
    ensures Normalise(countries).Ok? <==> forall entry, c :: entry in countries && AsksFor(entry, c) ==> CountryCode(c)
    ensures Normalise(countries).Ok? ==>
      var wanted := Normalise(countries).value;
      && InTextOrder(wanted) && (forall i, j :: 0 <= i < j < |wanted| ==> wanted[i] != wanted[j])
      && forall c :: c in wanted <==> exists entry :: entry in countries && AsksFor(entry, c)
  {
    var codes := SortedSet(Codes(countries), TextKey);
    SortedTextsMean(Codes(countries));
    forall c
      ensures c in codes <==> exists entry :: entry in countries && AsksFor(entry, c)
    {
      CodesMean(countries, c);
    }
  }

  datatype Built = Unchanged | Built | Empty | Crashed

  class Builder {
    /** The two files, and the dataset beside them; a dataset without a byte is none. */
    var mapFile: Option<seq<MapEntry>>
    var stamp: Option<string>
    var dataset: Option<seq<Row>>
    /** The rows the map on disk was made from. */
    ghost var source: seq<Row>
    const summarize: Summary

    constructor (dataset: Option<seq<Row>>, summarize: Summary)
      ensures Honest() && mapFile.None? && stamp.None? && this.dataset == dataset && this.summarize == summarize
    {
      this.mapFile, this.stamp, this.dataset, this.summarize := None, None, dataset, summarize;
      source := [];
    }

    function CurrentCountries(): Option<seq<string>>
      reads this
    {
      if stamp.None? || mapFile.None? then None else Some(SplitWords(stamp.value))
    }

    /** A stamp that is believed tells the truth about the map. */
    ghost predicate Honest()
      reads this
    {
      CurrentCountries().Some? ==> mapFile == Some(EntriesOf(summarize, source, CurrentCountries().value))
    }

    predicate HasDataset()
      reads this
    {
      dataset.Some?
    }

    /** What a build that is not cut off answers for the countries wanted. */
    function Answer(wanted: seq<string>): Built
      reads this
    {
      if wanted == [] || CurrentCountries() == Some(wanted) then Unchanged
      else if HasDataset() then Built
      else Empty
    }

    /** A build for these countries has nothing to write and nothing to remove. */
    predicate Settled(countries: seq<string>)
      reads this
    {
      Normalise(countries).Ok? ==>
        var wanted := Normalise(countries).value;
        if wanted == [] then mapFile.None? && stamp.None?
        else CurrentCountries() == Some(wanted) || (!HasDataset() && mapFile == Some([]) && stamp.None?)
    }

    /** A new dataset arrives at any time; what was built stays as it is. */
    method Refresh(rows: seq<Row>)
      modifies this`dataset
      ensures dataset == Some(rows)
    {
      dataset := Some(rows);
    }

    /** `_write`, cut off after `budget` file operations. */
    method Write(entries: seq<MapEntry>, countries: Option<seq<string>>, budget: nat) returns (left: nat, crashed: bool)
      requires Honest()
      requires countries.Some? ==>
        && HasDataset() && entries == EntriesOf(summarize, dataset.value, countries.value)
        && forall c :: c in countries.value ==> Word(c)
      modifies this`mapFile, this`stamp, this`source
      ensures Honest()
      ensures !crashed ==> mapFile == Some(entries) && CurrentCountries() == countries
      ensures !crashed && countries.Some? ==> source == dataset.value
      ensures !crashed && countries.None? ==> stamp.None?
      ensures crashed ==> budget < 3
    {
      left := budget;
      if left == 0 { return left, true; }
      stamp := None;
      left := left - 1;
      if left == 0 { return left, true; }
      mapFile := Some(entries);
      if countries.Some? {
        source := dataset.value;
      }
      left := left - 1;
      if countries.Some? {
        if left == 0 { return left, true; }
        stamp := Some(JoinWords(countries.value) + "\n");
        left := left - 1;
        StampRoundTrip(countries.value);
      }
      return left, false;
    }

    /** `_forget`, cut off after `budget` file operations. */
    method Forget(budget: nat) returns (left: nat, crashed: bool)
      requires Honest()
      modifies this`mapFile, this`stamp
      ensures Honest()
      ensures !crashed ==> mapFile.None? && stamp.None?
      ensures crashed ==> budget < 2
    {
      left := budget;
      if left == 0 { return left, true; }
      mapFile := None;
      left := left - 1;
      if left == 0 { return left, true; }
      stamp := None;
      left := left - 1;
      return left, false;
    }

    /** `build`. With room for every file operation it does not crash; with less it may, anywhere. */
    method Build(countries: seq<string>, budget: nat) returns (r: Result<Built, GeoError>)
      requires Honest()
      modifies this`mapFile, this`stamp, this`source
      ensures Honest()
      ensures r.Err? <==> Normalise(countries).Err?
      ensures r.Err? ==> mapFile == old(mapFile) && stamp == old(stamp)
      ensures r == Ok(Built) ==>
        && CurrentCountries() == Some(Normalise(countries).value)
        && HasDataset() && mapFile == Some(EntriesOf(summarize, dataset.value, Normalise(countries).value))
      ensures r == Ok(Unchanged) ==>
        if Normalise(countries).value == [] then mapFile.None? && stamp.None?
        else CurrentCountries() == Some(Normalise(countries).value) && mapFile == old(mapFile) && stamp == old(stamp)
      ensures r == Ok(Empty) ==> mapFile == Some([]) && stamp.None? && !HasDataset()
      ensures r.Ok? && r != Ok(Crashed) ==> r.value == old(Answer(Normalise(countries).value))
      ensures budget >= 3 ==> r != Ok(Crashed)
      // both files are left alone exactly when they were already as they should be
      ensures budget >= 3 ==> (mapFile == old(mapFile) && stamp == old(stamp) <==> old(Settled(countries)))
    {
      var normal := Normalise(countries);
      if normal.Err? {
        return Err(normal.error);
      }
      var wanted := normal.value;
      var left, crashed;
      if wanted == [] {
        left, crashed := Forget(budget);
        return Ok(if crashed then Crashed else Unchanged);
      }
      if CurrentCountries() == Some(wanted) {
        return Ok(Unchanged);
      }
      if !HasDataset() {
        left, crashed := Write([], None, budget);
        return Ok(if crashed then Crashed else Empty);
      }
      left, crashed := Write(EntriesOf(summarize, dataset.value, wanted), Some(wanted), budget);
      return Ok(if crashed then Crashed else Built);
    }

    /** Builds with crashes anywhere and datasets arriving in between: the stamp stays honest. */
    method Life(requests: seq<(Option<seq<Row>>, seq<string>, nat)>)
      requires Honest()
      modifies this
      ensures Honest()
    {
      for i := 0 to |requests|
        invariant Honest()
      {
        if requests[i].0.Some? {
          Refresh(requests[i].0.value);
        }
        var r := Build(requests[i].1, requests[i].2);
      }
    }
  }

  /** The countries a specification names need no normalising, so the stamp matches them. */
  lemma {:induction false} CodesOfCountries(countries: seq<string>)
    requires forall c :: c in countries ==> CountryCode(c)
    ensures Codes(countries) == countries
  {
    if countries != [] {
      var c := countries[0];
      assert c in countries;
      assert Stripped(c) == c;
      assert Uppercase(c) == c;
      CodesOfCountries(countries[1..]);
      assert countries == [c] + countries[1..];
    }
  }

  lemma TextKeyInjectiveOn(s: seq<string>)
    ensures KeyInjectiveOn(s, TextKey)
  {
    forall x, y | x in s && y in s && TextKey(x) == TextKey(y)
      ensures x == y
    {
      TextKeyInjective(x, y);
    }
  }

  /** What the control plane asks for is what the stamp will say. */
  lemma RequestIsNormal(countries: seq<string>)
    requires forall c :: c in countries ==> CountryCode(c)
    ensures var wanted := SortedSet(countries, TextKey); Normalise(wanted) == Ok(wanted)
  {
    var wanted := SortedSet(countries, TextKey);
    forall c | c in wanted
      ensures CountryCode(c)
    {
      SortedSetMember(countries, TextKey, c);
    }
    CodesOfCountries(wanted);
    forall c
      ensures c in Elements(wanted) <==> c in Elements(countries)
    {
      SortedSetMember(countries, TextKey, c);
    }
    assert Elements(wanted) == Elements(countries);
    TextKeyInjectiveOn(wanted);
    SortedSetCanonical(wanted, countries, TextKey);
  }

  /** The countries of every geography filter, each once and in text order, and normal where the filters are acceptable. */
  lemma GeoCountriesMean(spec: ProxySpec)
    ensures var wanted := GeoCountries(spec);
      && InTextOrder(wanted) && (forall i, j :: 0 <= i < j < |wanted| ==> wanted[i] != wanted[j])
      && (forall c :: c in wanted <==>
            exists s, f :: s in spec.services && f in s.filters && (f.kind.GeoAllow? || f.kind.GeoDeny?) && c in f.countries)
      && ((forall c :: c in wanted ==> CountryCode(c)) ==> Normalise(wanted) == Ok(wanted))
  {
    var named := ServiceCountries(spec.services);
    SortedTextsMean(named);
    if forall c :: c in GeoCountries(spec) ==> CountryCode(c) {
      RequestIsNormal(named);
    }
  }

  /** Ranges compare addresses of one family by the first bit in which they differ. */
  lemma AtMostMeans(a: Address, b: Address)
    ensures AtMost(a, b)
       <==> a.family == b.family && (a.bits == b.bits || exists i :: 0 <= i < |a.bits| && FirstBelow(a.bits, b.bits, i))
  {
    if a.family == b.family {
      BitOrder(a.bits, b.bits);
    }
  }

  predicate FirstBelow(a: Bits, b: Bits, i: nat)
    requires i < |a| == |b|
  {
    a[..i] == b[..i] && !a[i] && b[i]
  }

  lemma {:induction false} BitOrder(a: Bits, b: Bits)
    requires |a| == |b|
    ensures LexLeq(BitsKey(a), BitsKey(b)) <==> a == b || exists i :: 0 <= i < |a| && FirstBelow(a, b, i)
  {
    if a != [] {
      var s, t := a[1..], b[1..];
      assert BitsKey(a)[1..] == BitsKey(s) && BitsKey(b)[1..] == BitsKey(t);
      BitOrder(s, t);
      if a[0] == b[0] {
        TailOrder(a, b);
      } else if b[0] {
        assert FirstBelow(a, b, 0);
      } else {
        assert forall i :: 0 < i < |a| ==> a[..i][0] != b[..i][0];
      }
    }
  }

  lemma TailOrder(a: Bits, b: Bits)
    requires |a| == |b| && a != [] && a[0] == b[0]
    ensures a == b <==> a[1..] == b[1..]
    ensures (exists i :: 0 <= i < |a| && FirstBelow(a, b, i)) <==> exists i :: 0 <= i < |a[1..]| && FirstBelow(a[1..], b[1..], i)
  {
    var s, t := a[1..], b[1..];
    assert a == [a[0]] + s && b == [b[0]] + t;
    if i :| 0 <= i < |s| && FirstBelow(s, t, i) {
      assert a[..i + 1] == [a[0]] + s[..i] && b[..i + 1] == [b[0]] + t[..i];
      assert FirstBelow(a, b, i + 1);
    }
    if i :| 0 <= i < |a| && FirstBelow(a, b, i) {
      assert s[..i - 1] == a[..i][1..] && t[..i - 1] == b[..i][1..];
      assert FirstBelow(s, t, i - 1);
    }
  }

  lemma OneCountry(c: string)
    requires CountryCode(c)
    ensures Normalise([c]) == Ok([c])
  {
    CodesOfCountries([c]);
    assert [c][1..] == [] && Dedup<string>([]) == [] && SortBy<string>([], TextKey) == [];
    assert SortedSet([c], TextKey) == [c];
  }
}
