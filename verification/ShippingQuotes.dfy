/** Delivery quotes: what a customer is charged does not depend on the order in which the owner
    configured cities, zones, destinations or aliases. */
module ShippingQuotes {
  import opened Common
  import opened Shipping

  datatype Courier = Mrw | Zoom | NoCourier

  datatype Quote =
    | NeedsCity
    | NeedsZone(city: string)
    | NoZoneRate(city: string)
    | HomeQuote(city: string, zone: string, fee: int)
    | NeedsMethod
    | NoRate(destination: string, courier: Courier)
    | CourierQuote(city: string, courier: Courier, fee: int)

  /** Zones carry one fee, destinations two. */
  predicate Shaped(p: Policy) {
    && (forall i :: 0 <= i < |p.zones| ==> |p.zones[i].fees| == 1)
    && (forall i :: 0 <= i < |p.rates| ==> |p.rates[i].fees| == 2)
  }

  function OptionalText(text: string): Result<string, Error> {
    var c := Collapse(text);
    if |c| > MAX_TEXT then Failure(TooLong) else Success(c)
  }

  /** `_resolve_home_delivery`. */
  function ResolveHome(q: Policy, home: Entry, zone: string, key: Key): Result<Quote, Error>
    requires Shaped(q)
  {
    var text := OptionalText(zone);
    if text.Failure? then Failure(text.error)
    else if text.value == "" then Success(NeedsZone(home.name))
    else
      var found := MatchLocation(InCity(q.zones, key(home.name), key), text.value, key);
      if found.None? then Success(NoZoneRate(home.name))
      else
        FoundIsShaped(q.zones, key(home.name), text.value, key, 1);
        Success(HomeQuote(home.name, found.value.name, found.value.fees[0]))
  }

  lemma FoundIsShaped(entries: seq<Entry>, city: string, value: string, key: Key, n: nat)
    requires forall i :: 0 <= i < |entries| ==> |entries[i].fees| == n
    ensures MatchLocation(InCity(entries, city, key), value, key).Some? ==>
      |MatchLocation(InCity(entries, city, key), value, key).value.fees| == n
    ensures Find(entries, city, key(value), key).Some? ==> |Find(entries, city, key(value), key).value.fees| == n
  {
    MatchInCity(entries, city, value, key);
    var i := FindMeans(entries, city, key(value), key);
  }

  lemma {:induction false} MatchIsShaped(entries: seq<Entry>, value: string, key: Key, n: nat)
    requires forall i :: 0 <= i < |entries| ==> |entries[i].fees| == n
    ensures MatchLocation(entries, value, key).Some? ==> |MatchLocation(entries, value, key).value.fees| == n
  {
    if entries != [] {
      MatchIsShaped(entries[1..], value, key, n);
    }
  }

  function ResolveCourier(q: Policy, city: string, courier: Courier, key: Key): Quote
    requires Shaped(q)
  {
    if courier == NoCourier then NeedsMethod
    else
      var rate := MatchLocation(q.rates, city, key);
      if rate.None? then NoRate(city, courier)
      else
        MatchIsShaped(q.rates, city, key, 2);
        CourierQuote(rate.value.name, courier, if courier == Mrw then rate.value.fees[0] else rate.value.fees[1])
  }

  lemma NormalizeKeepsShape(p: Policy, key: Key)
    requires Shaped(p) && Normalize(p, key).Success?
    ensures Shaped(Normalize(p, key).value)
  {
    hide NormalizeEntries;
    var q := Normalize(p, key).value;
    NoneForbidden(Zones(q.cities), p.zones, key);
    NoneForbidden(Couriers(q.cities), p.rates, key);
    NormalizeExactly(Zones(q.cities), p.zones, key);
    NormalizeExactly(Couriers(q.cities), p.rates, key);
  }

  /** `resolve_delivery_quote`. */
  function ResolveQuote(p: Policy, city: string, zone: string, courier: Courier, key: Key): Result<Quote, Error>
    requires Shaped(p)
  {
    var normalized := Normalize(p, key);
    if normalized.Failure? then Failure(normalized.error)
    else
      NormalizeKeepsShape(p, key);
      var q := normalized.value;
      var text := OptionalText(city);
      if text.Failure? then Failure(text.error)
      else if text.value == "" then Success(NeedsCity)
      else
        var home := MatchLocation(q.cities, text.value, key);
        if home.Some? then ResolveHome(q, home.value, zone, key)
        else Success(ResolveCourier(q, text.value, courier, key))
  }

  // ---------------------------------------------------------------- rearranging a policy

  /** The same entry, its aliases in any order. */
  predicate Alike(a: Entry, b: Entry) {
    a.city == b.city && a.name == b.name && a.fees == b.fees
    && (forall x :: x in a.aliases ==> x in b.aliases) && (forall x :: x in b.aliases ==> x in a.aliases)
  }

  /** `perm` sends places of the second list to places of the first, `inv` back. */
  predicate Bijection(n: nat, perm: seq<nat>, inv: seq<nat>) {
    && |perm| == n && |inv| == n
    && (forall i :: 0 <= i < n ==> perm[i] < n && inv[perm[i]] == i)
    && (forall i :: 0 <= i < n ==> inv[i] < n && perm[inv[i]] == i)
  }

  predicate Rearranged(a: seq<Entry>, b: seq<Entry>, perm: seq<nat>, inv: seq<nat>) {
    && |a| == |b| && Bijection(|a|, perm, inv)
    && forall i :: 0 <= i < |a| ==> Alike(b[i], a[perm[i]])
  }

  /** Cleaned entries that differ at most in how their aliases are written down. */
  ghost predicate Same(a: Entry, b: Entry, key: Key) {
    a.city == b.city && a.name == b.name && a.fees == b.fees
    && forall city, k :: HasKey(a, city, k, key) <==> HasKey(b, city, k, key)
  }

  ghost predicate SameList(a: seq<Entry>, b: seq<Entry>, perm: seq<nat>, inv: seq<nat>, key: Key) {
    && |a| == |b| && Bijection(|a|, perm, inv)
    && forall i :: 0 <= i < |a| ==> Same(b[i], a[perm[i]], key)
  }

  ghost predicate SameOption(a: Option<Entry>, b: Option<Entry>, key: Key) {
    a.Some? == b.Some? && (a.Some? ==> Same(b.value, a.value, key))
  }

  /** Where no key is shared, rearranged lists give the same answer to every search. */
  lemma FindSame(a: seq<Entry>, b: seq<Entry>, perm: seq<nat>, inv: seq<nat>, city: string, k: string, key: Key)
    requires SameList(a, b, perm, inv, key) && Disjoint(a, key) && Disjoint(b, key)
    ensures SameOption(Find(a, city, k, key), Find(b, city, k, key), key)
  {
    hide HasKey, Clash, Find, Disjoint;
    var i := FindMeans(a, city, k, key);
    var j := FindMeans(b, city, k, key);
    if Find(b, city, k, key).Some? {
      assert Same(b[j], a[perm[j]], key);
      FindFinds(a, perm[j], city, k, key);
    }
    if Find(a, city, k, key).Some? {
      assert Same(b[inv[i]], a[perm[inv[i]]], key);
      FindFinds(b, inv[i], city, k, key);
    }
  }

  /** The lists the kinds refer to are themselves rearrangements. */
  ghost predicate SameKind(x: Kind, y: Kind, perm: seq<nat>, inv: seq<nat>, key: Key) {
    match (x, y)
    case (HomeCities, HomeCities) => true
    case (Zones(a), Zones(b)) => SameList(a, b, perm, inv, key) && HomeFits(a, key) && HomeFits(b, key)
    case (Couriers(a), Couriers(b)) => SameList(a, b, perm, inv, key)
    case _ => false
  }

  lemma CityForSame(x: Kind, y: Kind, perm: seq<nat>, inv: seq<nat>, a: Entry, b: Entry, key: Key)
    requires SameKind(x, y, perm, inv, key) && Alike(b, a)
    ensures CityFor(y, b, key).Success? == CityFor(x, a, key).Success?
    ensures CityFor(x, a, key).Success? ==> CityFor(y, b, key) == CityFor(x, a, key)
  {
    hide CleanText, HasKey, MatchLocation, Find, Disjoint;
    if x.Zones? && CleanText(a.city).Success? {
      var text := CleanText(a.city).value;
      MatchToplevel(x.home, text, key);
      MatchToplevel(y.home, text, key);
      FindSame(x.home, y.home, perm, inv, key(""), key(text), key);
    }
  }

  lemma AliasesSame(a: seq<string>, b: seq<string>, key: Key, k: string)
    requires (forall x :: x in a ==> x in b) && (forall x :: x in b ==> x in a)
    ensures AllClean(a) == AllClean(b)
    ensures AllClean(a) ==> RawKeyed(a, k, key) == RawKeyed(b, k, key)
  {
    hide CleanText;
    if AllClean(a) {
      forall i | 0 <= i < |b|
        ensures CleanText(b[i]).Success?
      {
        assert b[i] in a;
        var j :| 0 <= j < |a| && a[j] == b[i];
      }
      RawKeyedIncluded(a, b, key, k);
      RawKeyedIncluded(b, a, key, k);
    } else {
      var i :| 0 <= i < |a| && !CleanText(a[i]).Success?;
      assert a[i] in b;
      var j :| 0 <= j < |b| && b[j] == a[i];
    }
  }

  lemma RawKeyedIncluded(a: seq<string>, b: seq<string>, key: Key, k: string)
    requires (forall x :: x in a ==> x in b) && AllClean(a) && AllClean(b)
    ensures RawKeyed(a, k, key) ==> RawKeyed(b, k, key)
  {
    hide CleanText;
    if RawKeyed(a, k, key) {
      var i :| 0 <= i < |a| && key(CleanText(a[i]).value) == k;
      assert a[i] in b;
      var j :| 0 <= j < |b| && b[j] == a[i];
    }
  }

  lemma CleanEntrySame(x: Kind, y: Kind, perm: seq<nat>, inv: seq<nat>, a: Entry, b: Entry, key: Key)
    requires SameKind(x, y, perm, inv, key) && Alike(b, a)
    ensures CleanEntry(y, b, key).Success? == CleanEntry(x, a, key).Success?
    ensures CleanEntry(x, a, key).Success? ==> Same(Cleaned(y, b, key), Cleaned(x, a, key), key)
  {
    CityForSame(x, y, perm, inv, a, b, key);
    hide SameKind, CityFor, CleanText, CleanAliases, FeesFit, Keyed, RawKeyed, AllClean;
    AliasesSame(a.aliases, b.aliases, key, "");
    if CleanText(a.name).Success? {
      var name := CleanText(a.name).value;
      CleanAliasesSucceeds(a.aliases, name, key);
      CleanAliasesSucceeds(b.aliases, name, key);
      if AllClean(a.aliases) {
        forall k | k != key(name)
          ensures Keyed(CleanAliases(a.aliases, name, key).value, k, key)
              == Keyed(CleanAliases(b.aliases, name, key).value, k, key)
        {
          AliasesSame(a.aliases, b.aliases, key, k);
          CleanAliasesExactly(a.aliases, name, key, k);
          CleanAliasesExactly(b.aliases, name, key, k);
        }
      }
    }
  }

  lemma ClashSame(a: Entry, b: Entry, a2: Entry, b2: Entry, key: Key)
    requires Same(a, a2, key) && Same(b, b2, key)
    ensures Clash(a, b, key) == Clash(a2, b2, key)
  {
    hide HasKey, Clash;
    ClashMeans(a, b, key);
    ClashMeans(a2, b2, key);
  }

  lemma DisjointEitherWay(entries: seq<Entry>, i: nat, j: nat, key: Key)
    requires Disjoint(entries, key) && i < |entries| && j < |entries| && i != j
    ensures !Clash(entries[i], entries[j], key)
  {
    hide Clash;
    ClashSymmetric(entries[i], entries[j], key);
  }

  lemma ForbiddenSame(x: Kind, y: Kind, perm: seq<nat>, inv: seq<nat>, a: Entry, b: Entry, key: Key)
    requires SameKind(x, y, perm, inv, key) && Same(b, a, key) && Forbidden(y, b, key)
    ensures Forbidden(x, a, key)
  {
    hide Clash, Same;
    var i :| 0 <= i < |y.home| && Clash(b, y.home[i], key);
    assert Same(y.home[i], x.home[perm[i]], key);
    ClashSame(b, y.home[i], a, x.home[perm[i]], key);
    assert Clash(a, x.home[perm[i]], key);
  }

  /** A rearranged list is accepted when the first is, and comes out rearranged the same way. */
  lemma NormalizeSame(x: Kind, y: Kind, kperm: seq<nat>, kinv: seq<nat>,
                      a: seq<Entry>, b: seq<Entry>, perm: seq<nat>, inv: seq<nat>, key: Key)
    requires SameKind(x, y, kperm, kinv, key) && Rearranged(a, b, perm, inv)
    requires NormalizeEntries(x, a, key).Success?
    ensures NormalizeEntries(y, b, key).Success?
    ensures SameList(NormalizeEntries(x, a, key).value, NormalizeEntries(y, b, key).value, perm, inv, key)
  {
    hide SameKind, NormalizeEntries, CleanEntry, Clash, Forbidden, Same, Alike;
    NoneForbidden(x, a, key);
    NormalizeExactly(x, a, key);
    NormalizedDisjoint(x, a, key);
    var ra := NormalizeEntries(x, a, key).value;
    forall i | 0 <= i < |b|
      ensures CleanEntry(y, b[i], key).Success? && Same(Cleaned(y, b[i], key), ra[perm[i]], key)
      ensures !Forbidden(y, Cleaned(y, b[i], key), key)
    {
      CleanEntrySame(x, y, kperm, kinv, a[perm[i]], b[i], key);
      if Forbidden(y, Cleaned(y, b[i], key), key) {
        ForbiddenSame(x, y, kperm, kinv, ra[perm[i]], Cleaned(y, b[i], key), key);
      }
    }
    forall i, j | 0 <= i < j < |b|
      ensures !Clash(Cleaned(y, b[j], key), Cleaned(y, b[i], key), key)
    {
      ClashSame(Cleaned(y, b[j], key), Cleaned(y, b[i], key), ra[perm[j]], ra[perm[i]], key);
      DisjointEitherWay(ra, perm[j], perm[i], key);
    }
    NormalizeExactly(y, b, key);
  }

  lemma Reversed(a: seq<Entry>, b: seq<Entry>, perm: seq<nat>, inv: seq<nat>)
    requires Rearranged(a, b, perm, inv)
    ensures Rearranged(b, a, inv, perm)
  {
    forall i | 0 <= i < |a|
      ensures Alike(a[i], b[inv[i]])
    {
      assert Alike(b[inv[i]], a[perm[inv[i]]]);
    }
  }

  // ---------------------------------------------------------------- quotes

  /** A policy, its rearrangement, and how the three lists were moved. */
  datatype Move = Move(perm: seq<nat>, inv: seq<nat>)

  predicate RearrangedPolicy(p: Policy, q: Policy, cities: Move, zones: Move, rates: Move) {
    && Rearranged(p.cities, q.cities, cities.perm, cities.inv)
    && Rearranged(p.zones, q.zones, zones.perm, zones.inv)
    && Rearranged(p.rates, q.rates, rates.perm, rates.inv)
  }

  ghost predicate SamePolicy(p: Policy, q: Policy, cities: Move, zones: Move, rates: Move, key: Key) {
    && SameList(p.cities, q.cities, cities.perm, cities.inv, key)
    && SameList(p.zones, q.zones, zones.perm, zones.inv, key)
    && SameList(p.rates, q.rates, rates.perm, rates.inv, key)
  }

  lemma NormalizePolicySame(p: Policy, q: Policy, cities: Move, zones: Move, rates: Move, key: Key)
    requires RearrangedPolicy(p, q, cities, zones, rates) && Normalize(p, key).Success?
    ensures Normalize(q, key).Success?
    ensures SamePolicy(Normalize(p, key).value, Normalize(q, key).value, cities, zones, rates, key)
  {
    hide NormalizeEntries, SameList, Rearranged, HomeFits;
    var n := Normalize(p, key).value;
    NormalizeSame(HomeCities, HomeCities, [], [], p.cities, q.cities, cities.perm, cities.inv, key);
    var home := NormalizeEntries(HomeCities, q.cities, key).value;
    NormalizedHomeFits(p.cities, key);
    NormalizedHomeFits(q.cities, key);
    NormalizeSame(Zones(n.cities), Zones(home), cities.perm, cities.inv, p.zones, q.zones, zones.perm, zones.inv, key);
    NormalizeSame(Couriers(n.cities), Couriers(home), cities.perm, cities.inv, p.rates, q.rates, rates.perm,
        rates.inv, key);
  }

  lemma HomeSame(p: Policy, q: Policy, cities: Move, zones: Move, rates: Move, a: Entry, b: Entry, zone: string,
                 key: Key)
    requires Shaped(p) && Shaped(q) && SamePolicy(p, q, cities, zones, rates, key)
    requires Disjoint(p.zones, key) && Disjoint(q.zones, key) && a.name == b.name
    ensures ResolveHome(p, a, zone, key) == ResolveHome(q, b, zone, key)
  {
    hide Shaped, OptionalText, MatchLocation, InCity, Find, Disjoint, Clash, HasKey;
    if OptionalText(zone).Success? {
      var text := OptionalText(zone).value;
      MatchInCity(p.zones, key(a.name), text, key);
      MatchInCity(q.zones, key(a.name), text, key);
      FindSame(p.zones, q.zones, zones.perm, zones.inv, key(a.name), key(text), key);
    }
  }

  lemma CourierSame(p: Policy, q: Policy, cities: Move, zones: Move, rates: Move, city: string, courier: Courier,
                    key: Key)
    requires Shaped(p) && Shaped(q) && SamePolicy(p, q, cities, zones, rates, key)
    requires Disjoint(p.rates, key) && Disjoint(q.rates, key) && Toplevel(p.rates) && Toplevel(q.rates)
    ensures ResolveCourier(p, city, courier, key) == ResolveCourier(q, city, courier, key)
  {
    hide Shaped, MatchLocation, Find, Disjoint, Clash, HasKey;
    MatchToplevel(p.rates, city, key);
    MatchToplevel(q.rates, city, key);
    FindSame(p.rates, q.rates, rates.perm, rates.inv, key(""), key(city), key);
  }

  lemma NormalizedSettled(p: Policy, key: Key)
    requires Normalize(p, key).Success?
    ensures var q := Normalize(p, key).value;
      Disjoint(q.cities, key) && Disjoint(q.zones, key) && Disjoint(q.rates, key) && Toplevel(q.cities)
          && Toplevel(q.rates)
  {
    hide NormalizeEntries, Disjoint, Toplevel;
    var q := Normalize(p, key).value;
    NormalizedDisjoint(HomeCities, p.cities, key);
    NormalizedDisjoint(Zones(q.cities), p.zones, key);
    NormalizedDisjoint(Couriers(q.cities), p.rates, key);
  }

  /** Every quote, and whether there is one at all, survives any rearrangement of the configured
      cities, zones, destinations and aliases. */
  lemma QuoteUnchanged(p: Policy, q: Policy, cities: Move, zones: Move, rates: Move,
                       city: string, zone: string, courier: Courier, key: Key)
    requires Shaped(p) && Shaped(q) && RearrangedPolicy(p, q, cities, zones, rates)
    ensures ResolveQuote(p, city, zone, courier, key).Success? == ResolveQuote(q, city, zone, courier, key).Success?
    ensures ResolveQuote(p, city, zone, courier, key).Success? ==>
              ResolveQuote(p, city, zone, courier, key) == ResolveQuote(q, city, zone, courier, key)
  {
    hide Normalize, ResolveHome, ResolveCourier, OptionalText, Shaped, Rearranged;
    if Normalize(p, key).Success? {
      NormalizePolicySame(p, q, cities, zones, rates, key);
      QuoteSame(p, q, cities, zones, rates, city, zone, courier, key);
    } else if Normalize(q, key).Success? {
      Reversed(p.cities, q.cities, cities.perm, cities.inv);
      Reversed(p.zones, q.zones, zones.perm, zones.inv);
      Reversed(p.rates, q.rates, rates.perm, rates.inv);
      NormalizePolicySame(q, p, Move(cities.inv, cities.perm), Move(zones.inv, zones.perm),
          Move(rates.inv, rates.perm), key);
    }
  }

  lemma QuoteSame(p: Policy, q: Policy, cities: Move, zones: Move, rates: Move,
                  city: string, zone: string, courier: Courier, key: Key)
    requires Shaped(p) && Shaped(q) && Normalize(p, key).Success? && Normalize(q, key).Success?
    requires SamePolicy(Normalize(p, key).value, Normalize(q, key).value, cities, zones, rates, key)
    ensures ResolveQuote(p, city, zone, courier, key) == ResolveQuote(q, city, zone, courier, key)
  {
    hide Normalize, ResolveHome, ResolveCourier, OptionalText, Shaped, MatchLocation, Find, Disjoint, Clash, HasKey,
        SameList;
    NormalizeKeepsShape(p, key);
    NormalizeKeepsShape(q, key);
    NormalizedSettled(p, key);
    NormalizedSettled(q, key);
    var (np, nq) := (Normalize(p, key).value, Normalize(q, key).value);
    if OptionalText(city).Success? && OptionalText(city).value != "" {
      var text := OptionalText(city).value;
      MatchToplevel(np.cities, text, key);
      MatchToplevel(nq.cities, text, key);
      FindSame(np.cities, nq.cities, cities.perm, cities.inv, key(""), key(text), key);
      var home := MatchLocation(np.cities, text, key);
      if home.Some? {
        HomeSame(np, nq, cities, zones, rates, home.value, MatchLocation(nq.cities, text, key).value, zone, key);
      } else {
        CourierSame(np, nq, cities, zones, rates, text, courier, key);
      }
    }
  }

  // ---------------------------------------------------------------- the loops

  /** `_normalize_aliases` with its set of seen keys. */
  method NormalizeAliases(raw: seq<string>, name: string, key: Key) returns (result: Result<seq<string>, Error>)
    ensures result == CleanAliases(raw, name, key)
  {
    hide CleanText;
    var aliases: seq<string> := [];
    var seen := {key(name)};
    for i := 0 to |raw|
      invariant CleanAliases(raw[..i], name, key) == Success(aliases)
      invariant forall k :: k in seen <==> k == key(name) || Keyed(aliases, k, key)
    {
      assert raw[..i + 1][..i] == raw[..i];
      var alias := CleanText(raw[i]);
      if alias.Failure? {
        AliasFails(raw, name, key, i);
        return Failure(alias.error);
      }
      var k := key(alias.value);
      forall m
        ensures Keyed(aliases + [alias.value], m, key) <==> Keyed(aliases, m, key) || k == m
      {
        KeyedGrows(aliases, alias.value, m, key);
      }
      if k !in seen {
        seen := seen + {k};
        aliases := aliases + [alias.value];
      }
    }
    assert raw[..|raw|] == raw;
    result := Success(aliases);
  }

  /** The first failure stands. */
  lemma {:induction false} AliasFails(raw: seq<string>, name: string, key: Key, at: nat)
    requires at < |raw| && CleanAliases(raw[..at], name, key).Success? && CleanText(raw[at]).Failure?
    ensures CleanAliases(raw, name, key) == Failure(CleanText(raw[at]).error)
    decreases |raw|
  {
    hide CleanText;
    var n := |raw| - 1;
    if at < n {
      assert raw[..n][..at] == raw[..at];
      AliasFails(raw[..n], name, key, at);
    } else {
      assert raw[..at] == raw[..n];
    }
  }

  function KeysOf(e: Entry, key: Key): set<(string, string)> {
    {(key(e.city), key(e.name))} + set a | a in e.aliases :: (key(e.city), key(a))
  }

  function AllKeys(entries: seq<Entry>, key: Key): set<(string, string)> {
    if entries == [] then {} else AllKeys(entries[..|entries| - 1], key) + KeysOf(entries[|entries| - 1], key)
  }

  lemma KeysOfMeans(e: Entry, city: string, k: string, key: Key)
    ensures (city, k) in KeysOf(e, key) <==> HasKey(e, city, k, key)
  {
    if HasKey(e, city, k, key) && key(e.name) != k {
      var i :| 0 <= i < |e.aliases| && key(e.aliases[i]) == k;
      assert e.aliases[i] in e.aliases;
    }
    if (city, k) in KeysOf(e, key) && (city, k) != (key(e.city), key(e.name)) {
      var a :| a in e.aliases && (key(e.city), key(a)) == (city, k);
      var i :| 0 <= i < |e.aliases| && e.aliases[i] == a;
      assert Keyed(e.aliases, k, key);
    }
  }

  lemma ClashIsMeeting(a: Entry, b: Entry, key: Key)
    ensures Clash(a, b, key) <==> KeysOf(a, key) * KeysOf(b, key) != {}
  {
    hide HasKey, Clash, KeysOf;
    ClashMeans(a, b, key);
    if Clash(a, b, key) {
      var city, k :| HasKey(a, city, k, key) && HasKey(b, city, k, key);
      KeysOfMeans(a, city, k, key);
      KeysOfMeans(b, city, k, key);
      assert (city, k) in KeysOf(a, key) * KeysOf(b, key);
    }
    if p :| p in KeysOf(a, key) * KeysOf(b, key) {
      KeysOfMeans(a, p.0, p.1, key);
      KeysOfMeans(b, p.0, p.1, key);
    }
  }

  /** An entry clashes with a list when it meets the keys seen so far. */
  lemma {:induction false} ClashesAreMeetings(e: Entry, entries: seq<Entry>, key: Key)
    ensures ClashesAny(e, entries, key) <==> KeysOf(e, key) * AllKeys(entries, key) != {}
  {
    hide Clash, KeysOf;
    if entries != [] {
      var n := |entries| - 1;
      ClashesAreMeetings(e, entries[..n], key);
      ClashIsMeeting(e, entries[n], key);
      assert KeysOf(e, key) * AllKeys(entries, key)
          == KeysOf(e, key) * AllKeys(entries[..n], key) + KeysOf(e, key) * KeysOf(entries[n], key);
      ClashesAnyGrows(e, entries, key);
    }
  }

  lemma ClashesAnyGrows(e: Entry, entries: seq<Entry>, key: Key)
    requires entries != []
    ensures ClashesAny(e, entries, key) <==>
      ClashesAny(e, entries[..|entries| - 1], key) || Clash(e, entries[|entries| - 1], key)
  {
    hide Clash;
    var n := |entries| - 1;
    assert forall i :: 0 <= i < n ==> entries[..n][i] == entries[i];
  }

  /** The loop of the three list normalisers, with its set of seen keys; destinations are also held
      against the keys of the home cities. */
  method NormalizeList(kind: Kind, raw: seq<Entry>, key: Key) returns (result: Result<seq<Entry>, Error>)
    ensures result == NormalizeEntries(kind, raw, key)
  {
    hide CleanTexts, Clash, KeysOf, ClashesAny, FeesFit;
    var homeKeys := if kind.Couriers? then AllKeys(kind.home, key) else {};
    var entries: seq<Entry> := [];
    var seen: set<(string, string)> := {};
    for i := 0 to |raw|
      invariant NormalizeEntries(kind, raw[..i], key) == Success(entries)
      invariant seen == AllKeys(entries, key)
    {
      assert raw[..i + 1][..i] == raw[..i];
      var e := CleanTexts(kind, raw[i], key);
      if e.Failure? {
        ListFails(kind, raw, key, i);
        return Failure(e.error);
      }
      var keys := KeysOf(e.value, key);
      ClashesAreMeetings(e.value, entries, key);
      if seen * keys != {} {
        assert keys * seen == seen * keys;
        ListFails(kind, raw, key, i);
        return Failure(Repeated);
      }
      assert keys * seen == seen * keys;
      if kind.Couriers? {
        ClashesAreMeetings(e.value, kind.home, key);
        assert keys * homeKeys == homeKeys * keys;
      }
      if homeKeys * keys != {} {
        ListFails(kind, raw, key, i);
        return Failure(HomeCityRate);
      }
      if !FeesFit(raw[i].fees) {
        ListFails(kind, raw, key, i);
        return Failure(BadFee);
      }
      seen := seen + keys;
      assert (entries + [e.value])[..|entries|] == entries;
      entries := entries + [e.value];
    }
    assert raw[..|raw|] == raw;
    result := Success(entries);
  }

  /** The first failure stands. */
  lemma {:induction false} ListFails(kind: Kind, raw: seq<Entry>, key: Key, at: nat)
    requires at < |raw| && NormalizeEntries(kind, raw[..at + 1], key).Failure?
    ensures NormalizeEntries(kind, raw, key) == NormalizeEntries(kind, raw[..at + 1], key)
    decreases |raw|
  {
    hide CleanTexts, ClashesAny, Forbidden, FeesFit;
    var n := |raw| - 1;
    if at < n {
      assert raw[..n][..at + 1] == raw[..at + 1];
      ListFails(kind, raw[..n], key, at);
    } else {
      assert raw[..at + 1] == raw;
    }
  }
}
