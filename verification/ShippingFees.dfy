/** What delivery policies and quotes mean in terms of the policy as the owner wrote it. */
module ShippingFees {
  import opened Common
  import opened Shipping
  import opened ShippingQuotes

  // ---------------------------------------------------------------- texts are their words

  /** Space, tab, the line and page breaks, and the four separators. */
  predicate White(c: char) {
    c as int in {9, 10, 11, 12, 13, 28, 29, 30, 31, 32}
  }

  /** How many characters come before the first white space. */
  function WordLength(text: string): (n: nat)
    ensures n <= |text| && (n < |text| ==> White(text[n]))
    ensures forall i :: 0 <= i < n ==> !White(text[i])
  {
    if text == "" || White(text[0]) then 0 else 1 + WordLength(text[1..])
  }

  function Words(text: string): seq<string>
    decreases |text|
  {
    if text == "" then []
    else if White(text[0]) then Words(text[1..])
    else [text[..WordLength(text)]] + Words(text[WordLength(text)..])
  }

  function Joined(words: seq<string>): string {
    if words == [] then ""
    else if |words| == 1 then words[0]
    else words[0] + " " + Joined(words[1..])
  }

  lemma {:induction false} SquashWord(text: string, n: nat, drop: bool)
    requires 1 <= n <= |text| && forall i :: 0 <= i < n ==> !White(text[i])
    ensures Squash(text, drop) == text[..n] + Squash(text[n..], false)
  {
    if n == 1 {
      assert text[..1] == [text[0]];
    } else {
      SquashWord(text[1..], n - 1, false);
      assert text[1..][n - 1..] == text[n..];
      assert text[..n] == [text[0]] + text[1..][..n - 1];
    }
  }

  /** White space cleaning keeps the words of a text and puts one space between them. */
  lemma {:induction false} CollapseJoinsWords(text: string)
    ensures Collapse(text) == Joined(Words(text))
    decreases |text|
  {
    if text != "" && White(text[0]) {
      assert Squash(text, true) == Squash(text[1..], true);
      CollapseJoinsWords(text[1..]);
    } else if text != "" {
      var n := WordLength(text);
      var word, after := text[..n], text[n..];
      SquashWord(text, n, true);
      if after == "" {
        assert word + "" == word;
        assert Words(text) == [word];
      } else {
        CollapseJoinsWords(after[1..]);
        SquashTidy(after[1..], true);
        NoEmptyWord(after[1..]);
        JoinsRest(word, Squash(after[1..], true), Words(after[1..]));
        assert Squash(after, false) == [' '] + Squash(after[1..], true);
        assert Squash(text, true) == word + " " + Squash(after[1..], true);
        assert Words(text) == [word] + Words(after[1..]);
      }
    }
  }

  lemma {:induction false} NoEmptyWord(text: string)
    ensures forall i :: 0 <= i < |Words(text)| ==> Words(text)[i] != ""
    decreases |text|
  {
    if text != "" {
      NoEmptyWord(if White(text[0]) then text[1..] else text[WordLength(text)..]);
    }
  }

  lemma JoinedEmpty(words: seq<string>)
    requires forall i :: 0 <= i < |words| ==> words[i] != ""
    ensures Joined(words) == "" <==> words == []
  {
    assert words == [] || words[0] != "";
  }

  lemma JoinsRest(word: string, rest: string, words: seq<string>)
    requires word != "" && !White(word[|word| - 1]) && Tidy(rest, true) && TrimEnd(rest) == Joined(words)
    requires forall i :: 0 <= i < |words| ==> words[i] != ""
    ensures TrimEnd(word + " " + rest) == Joined([word] + words)
  {
    NeverStartsWithSpace(rest);
    assert ([word] + words)[1..] == words;
    JoinedEmpty(words);
    if rest == "" {
      assert word + " " + rest == word + " ";
    } else {
      assert (word + " " + rest)[|word + " " + rest| - 1] == rest[|rest| - 1];
      assert words != [];
    }
  }

  // ---------------------------------------------------------------- the entries as written

  /** A text of 1 to 100 characters, once cleaned. */
  predicate ValidText(text: string) {
    1 <= |Collapse(text)| <= 100
  }

  /** The entry goes by this key: its name has it, or one of its aliases. */
  predicate Known(e: Entry, k: string, key: Key) {
    key(Collapse(e.name)) == k || exists i :: 0 <= i < |e.aliases| && key(Collapse(e.aliases[i])) == k
  }

  /** The place belongs to this home city. */
  predicate StandsIn(zone: Entry, home: Entry, key: Key) {
    Known(home, key(Collapse(zone.city)), key)
  }

  /** What each entry must be: texts of 1 to 100 characters, fees from 0 to 100000.00, and for a zone a
      home city. */
  predicate WellFormed(raw: Entry) {
    && ValidText(raw.name)
    && (forall i :: 0 <= i < |raw.aliases| ==> ValidText(raw.aliases[i]))
    && (forall i :: 0 <= i < |raw.fees| ==> 0 <= raw.fees[i] <= 10000000)
  }

  ghost predicate Overlap(a: Entry, b: Entry, key: Key) {
    exists k :: Known(a, k, key) && Known(b, k, key)
  }

  lemma AliasesKept(raw: seq<string>, name: string, key: Key, k: string)
    requires CleanAliases(raw, name, key).Success? && k != key(name)
    ensures Keyed(CleanAliases(raw, name, key).value, k, key) <==>
            exists i :: 0 <= i < |raw| && key(Collapse(raw[i])) == k
  {
    CleanAliasesExactly(raw, name, key, k);
    assert RawKeyed(raw, k, key) <==> exists i :: 0 <= i < |raw| && key(Collapse(raw[i])) == k by {
      hide Collapse, CleanAliases;
      assert forall i :: 0 <= i < |raw| ==> CleanText(raw[i]).value == Collapse(raw[i]);
    }
  }

  /** Cleaning keeps the keys of an entry. */
  lemma CleanedKeeps(kind: Kind, raw: Entry, key: Key, k: string)
    requires CleanEntry(kind, raw, key).Success?
    ensures var e := Cleaned(kind, raw, key);
      && e.name == Collapse(raw.name) && e.fees == raw.fees
      && (!kind.Zones? ==> e.city == "")
      && (HasKey(e, key(e.city), k, key) <==> Known(raw, k, key))
  {
    hide Collapse, CleanAliases, FeesFit, Keyed;
    if k != key(Collapse(raw.name)) {
      AliasesKept(raw.aliases, Collapse(raw.name), key, k);
    }
  }

  /** Searching a normalised list of cities or destinations finds the one entry known by the key. */
  lemma MatchFinds(kind: Kind, raw: seq<Entry>, value: string, key: Key, i: nat)
    requires !kind.Zones? && NormalizeEntries(kind, raw, key).Success? && i < |raw| && Known(raw[i], key(value), key)
    ensures var q := NormalizeEntries(kind, raw, key).value;
      i < |q| && MatchLocation(q, value, key) == Some(q[i]) && q[i].name == Collapse(raw[i].name)
      && q[i].fees == raw[i].fees && q[i].city == ""
  {
    var q := NormalizeEntries(kind, raw, key).value;
    NormalizedDisjoint(kind, raw, key);
    NormalizeExactly(kind, raw, key);
    hide NormalizeEntries, CleanEntry, Known, HasKey, Disjoint, MatchLocation, Clash;
    assert CleanEntry(kind, raw[i], key) == Success(q[i]);
    CleanedKeeps(kind, raw[i], key, key(value));
    MatchToplevel(q, value, key);
    FindFinds(q, i, key(""), key(value), key);
  }

  lemma MatchFails(kind: Kind, raw: seq<Entry>, value: string, key: Key)
    requires !kind.Zones? && NormalizeEntries(kind, raw, key).Success?
    requires forall i :: 0 <= i < |raw| ==> !Known(raw[i], key(value), key)
    ensures MatchLocation(NormalizeEntries(kind, raw, key).value, value, key).None?
  {
    var q := NormalizeEntries(kind, raw, key).value;
    NormalizedDisjoint(kind, raw, key);
    NormalizeExactly(kind, raw, key);
    hide NormalizeEntries, CleanEntry, Known, HasKey, MatchLocation, Clash;
    MatchToplevel(q, value, key);
    var i := FindMeans(q, key(""), key(value), key);
    if MatchLocation(q, value, key).Some? {
      assert CleanEntry(kind, raw[i], key) == Success(q[i]);
      CleanedKeeps(kind, raw[i], key, key(value));
      assert false;
    }
  }

  // ---------------------------------------------------------------- which policies are accepted

  lemma ClashIsOverlap(x: Kind, a: Entry, y: Kind, b: Entry, key: Key)
    requires CleanEntry(x, a, key).Success? && CleanEntry(y, b, key).Success?
    ensures Clash(Cleaned(x, a, key), Cleaned(y, b, key), key) <==>
            key(Cleaned(x, a, key).city) == key(Cleaned(y, b, key).city) && Overlap(a, b, key)
  {
    hide Clash, CleanEntry, Known;
    var ca, cb := Cleaned(x, a, key), Cleaned(y, b, key);
    ClashMeans(ca, cb, key);
    forall k
      ensures HasKey(ca, key(ca.city), k, key) <==> Known(a, k, key)
      ensures HasKey(cb, key(cb.city), k, key) <==> Known(b, k, key)
    {
      CleanedKeeps(x, a, key, k);
      CleanedKeeps(y, b, key, k);
    }
  }

  lemma CleansExactly(kind: Kind, raw: Entry, key: Key)
    ensures CleanEntry(kind, raw, key).Success? <==> WellFormed(raw) && CityFor(kind, raw, key).Success?
  {
    hide Collapse, CleanAliases, MatchLocation;
    if CleanText(raw.name).Success? {
      CleanAliasesSucceeds(raw.aliases, CleanText(raw.name).value, key);
    }
  }

  ghost predicate NoneOverlap(entries: seq<Entry>, key: Key) {
    forall i, j :: 0 <= i < j < |entries| ==> !Overlap(entries[j], entries[i], key)
  }

  lemma CitiesAcceptedExactly(raw: seq<Entry>, key: Key)
    ensures NormalizeEntries(HomeCities, raw, key).Success? <==>
            (forall i :: 0 <= i < |raw| ==> WellFormed(raw[i])) && NoneOverlap(raw, key)
  {
    var kind := HomeCities;
    NormalizeExactly(kind, raw, key);
    forall i | 0 <= i < |raw|
      ensures CleanEntry(kind, raw[i], key).Success? <==> WellFormed(raw[i])
    {
      CleansExactly(kind, raw[i], key);
    }
    hide NormalizeEntries, CleanEntry, WellFormed, Overlap, Clash;
    if EachCleans(kind, raw, key) {
      forall i, j | 0 <= i < j < |raw|
        ensures Clash(Cleaned(kind, raw[j], key), Cleaned(kind, raw[i], key), key) <==> Overlap(raw[j], raw[i], key)
      {
        ClashIsOverlap(kind, raw[j], kind, raw[i], key);
        CleanedKeeps(kind, raw[i], key, "");
        CleanedKeeps(kind, raw[j], key, "");
      }
    }
  }

  /** A destination goes by no key of a home city. */
  lemma RatesAcceptedExactly(cities: seq<Entry>, raw: seq<Entry>, key: Key)
    requires NormalizeEntries(HomeCities, cities, key).Success?
    ensures NormalizeEntries(Couriers(NormalizeEntries(HomeCities, cities, key).value), raw, key).Success? <==>
            && (forall i :: 0 <= i < |raw| ==> WellFormed(raw[i])) && NoneOverlap(raw, key)
            && forall i, h :: 0 <= i < |raw| && 0 <= h < |cities| ==> !Overlap(raw[i], cities[h], key)
  {
    var home := NormalizeEntries(HomeCities, cities, key).value;
    var kind := Couriers(home);
    NormalizeExactly(kind, raw, key);
    NormalizeExactly(HomeCities, cities, key);
    forall i | 0 <= i < |raw|
      ensures CleanEntry(kind, raw[i], key).Success? <==> WellFormed(raw[i])
    {
      CleansExactly(kind, raw[i], key);
    }
    hide NormalizeEntries, CleanEntry, WellFormed, Overlap, Clash;
    if EachCleans(kind, raw, key) {
      forall i, j | 0 <= i < j < |raw|
        ensures Clash(Cleaned(kind, raw[j], key), Cleaned(kind, raw[i], key), key) <==> Overlap(raw[j], raw[i], key)
      {
        ClashIsOverlap(kind, raw[j], kind, raw[i], key);
        CleanedKeeps(kind, raw[i], key, "");
        CleanedKeeps(kind, raw[j], key, "");
      }
      forall i, h | 0 <= i < |raw| && 0 <= h < |cities|
        ensures Clash(Cleaned(kind, raw[i], key), home[h], key) <==> Overlap(raw[i], cities[h], key)
      {
        assert CleanEntry(HomeCities, cities[h], key) == Success(home[h]);
        ClashIsOverlap(kind, raw[i], HomeCities, cities[h], key);
        CleanedKeeps(kind, raw[i], key, "");
        CleanedKeeps(HomeCities, cities[h], key, "");
      }
    }
  }

  lemma CityForFinds(cities: seq<Entry>, zone: Entry, key: Key, h: nat)
    requires NormalizeEntries(HomeCities, cities, key).Success? && h < |cities| && StandsIn(zone, cities[h], key)
    requires ValidText(zone.city)
    ensures CityFor(Zones(NormalizeEntries(HomeCities, cities, key).value), zone, key)
         == Success(Collapse(cities[h].name))
  {
    hide NormalizeEntries, Collapse, Known, MatchLocation;
    MatchFinds(HomeCities, cities, Collapse(zone.city), key, h);
  }

  lemma CityForFails(cities: seq<Entry>, zone: Entry, key: Key)
    requires NormalizeEntries(HomeCities, cities, key).Success?
    requires !ValidText(zone.city) || forall h :: 0 <= h < |cities| ==> !StandsIn(zone, cities[h], key)
    ensures CityFor(Zones(NormalizeEntries(HomeCities, cities, key).value), zone, key).Failure?
  {
    hide NormalizeEntries, Collapse, Known, MatchLocation;
    if ValidText(zone.city) {
      MatchFails(HomeCities, cities, Collapse(zone.city), key);
    }
  }

  /** Two home cities of an accepted policy never have names with the same key. */
  lemma OneName(cities: seq<Entry>, key: Key, g: nat, h: nat)
    requires NormalizeEntries(HomeCities, cities, key).Success? && g < |cities| && h < |cities|
    requires key(Collapse(cities[g].name)) == key(Collapse(cities[h].name))
    ensures g == h
  {
    CitiesAcceptedExactly(cities, key);
    hide NormalizeEntries, Collapse, WellFormed;
    var k := key(Collapse(cities[g].name));
    assert Known(cities[g], k, key) && Known(cities[h], k, key);
    assert Overlap(cities[g], cities[h], key) && Overlap(cities[h], cities[g], key);
  }

  /** The zone is well formed and stands in some home city. */
  predicate ZoneFits(zone: Entry, cities: seq<Entry>, key: Key) {
    WellFormed(zone) && ValidText(zone.city) && exists h :: 0 <= h < |cities| && StandsIn(zone, cities[h], key)
  }

  predicate Together(a: Entry, b: Entry, cities: seq<Entry>, key: Key) {
    exists h :: 0 <= h < |cities| && StandsIn(a, cities[h], key) && StandsIn(b, cities[h], key)
  }

  lemma ZoneCleansExactly(cities: seq<Entry>, zone: Entry, key: Key)
    requires NormalizeEntries(HomeCities, cities, key).Success?
    ensures CleanEntry(Zones(NormalizeEntries(HomeCities, cities, key).value), zone, key).Success? <==>
            ZoneFits(zone, cities, key)
  {
    CleansExactly(Zones(NormalizeEntries(HomeCities, cities, key).value), zone, key);
    hide NormalizeEntries, CityFor, CleanEntry, WellFormed, ValidText;
    if h :| 0 <= h < |cities| && StandsIn(zone, cities[h], key) && ValidText(zone.city) {
      CityForFinds(cities, zone, key, h);
    } else {
      CityForFails(cities, zone, key);
    }
  }

  lemma SameCityMeans(cities: seq<Entry>, a: Entry, b: Entry, key: Key)
    requires NormalizeEntries(HomeCities, cities, key).Success?
    requires ZoneFits(a, cities, key) && ZoneFits(b, cities, key)
    ensures var kind := Zones(NormalizeEntries(HomeCities, cities, key).value);
      && CleanEntry(kind, a, key).Success? && CleanEntry(kind, b, key).Success?
      && (key(Cleaned(kind, a, key).city) == key(Cleaned(kind, b, key).city) <==> Together(a, b, cities, key))
  {
    var kind := Zones(NormalizeEntries(HomeCities, cities, key).value);
    ZoneCleansExactly(cities, a, key);
    ZoneCleansExactly(cities, b, key);
    hide NormalizeEntries, StandsIn, CityFor, CleanAliases, WellFormed, ValidText;
    var g :| 0 <= g < |cities| && StandsIn(a, cities[g], key);
    var h :| 0 <= h < |cities| && StandsIn(b, cities[h], key);
    CityForFinds(cities, a, key, g);
    CityForFinds(cities, b, key, h);
    if key(Cleaned(kind, a, key).city) == key(Cleaned(kind, b, key).city) {
      OneName(cities, key, g, h);
    }
    if f :| 0 <= f < |cities| && StandsIn(a, cities[f], key) && StandsIn(b, cities[f], key) {
      CityForFinds(cities, a, key, f);
      CityForFinds(cities, b, key, f);
    }
  }

  lemma ZonesAcceptedExactly(cities: seq<Entry>, raw: seq<Entry>, key: Key)
    requires NormalizeEntries(HomeCities, cities, key).Success?
    ensures NormalizeEntries(Zones(NormalizeEntries(HomeCities, cities, key).value), raw, key).Success? <==>
            && (forall i :: 0 <= i < |raw| ==> ZoneFits(raw[i], cities, key))
            && forall i, j :: 0 <= i < j < |raw| && Together(raw[j], raw[i], cities, key) ==>
                 !Overlap(raw[j], raw[i], key)
  {
    var kind := Zones(NormalizeEntries(HomeCities, cities, key).value);
    NormalizeExactly(kind, raw, key);
    hide NormalizeEntries, CleanEntry, ZoneFits, Together, Overlap, Clash;
    forall i | 0 <= i < |raw|
      ensures CleanEntry(kind, raw[i], key).Success? <==> ZoneFits(raw[i], cities, key)
    {
      ZoneCleansExactly(cities, raw[i], key);
    }
    if EachCleans(kind, raw, key) {
      forall i, j | 0 <= i < j < |raw|
        ensures Clash(Cleaned(kind, raw[j], key), Cleaned(kind, raw[i], key), key) <==>
                Together(raw[j], raw[i], cities, key) && Overlap(raw[j], raw[i], key)
      {
        SameCityMeans(cities, raw[j], raw[i], key);
        ClashIsOverlap(kind, raw[j], kind, raw[i], key);
      }
    }
  }

  /** A policy is accepted exactly when every text has 1 to 100 characters once cleaned and every fee is
      between 0 and 100000.00, no two home cities, no two destinations and no two zones of one city share
      a key, every zone stands in a home city, and no destination shares a key with a home city. */
  lemma PolicyAcceptedExactly(p: Policy, key: Key)
    ensures Normalize(p, key).Success? <==>
      && (forall h :: 0 <= h < |p.cities| ==> WellFormed(p.cities[h])) && NoneOverlap(p.cities, key)
      && (forall i :: 0 <= i < |p.zones| ==> ZoneFits(p.zones[i], p.cities, key))
      && (forall i, j :: 0 <= i < j < |p.zones| && Together(p.zones[j], p.zones[i], p.cities, key) ==>
            !Overlap(p.zones[j], p.zones[i], key))
      && (forall i :: 0 <= i < |p.rates| ==> WellFormed(p.rates[i])) && NoneOverlap(p.rates, key)
      && forall i, h :: 0 <= i < |p.rates| && 0 <= h < |p.cities| ==> !Overlap(p.rates[i], p.cities[h], key)
  {
    hide NormalizeEntries, WellFormed, NoneOverlap, ZoneFits, Together, Overlap;
    CitiesAcceptedExactly(p.cities, key);
    if NormalizeEntries(HomeCities, p.cities, key).Success? {
      ZonesAcceptedExactly(p.cities, p.zones, key);
      RatesAcceptedExactly(p.cities, p.rates, key);
    }
  }

  // ---------------------------------------------------------------- what a quote says

  /** The customer's city is this home city. */
  predicate HomeAt(p: Policy, h: int, city: string, key: Key) {
    0 <= h < |p.cities| && Known(p.cities[h], key(Collapse(city)), key)
  }

  ghost predicate HasHome(p: Policy, city: string, key: Key) {
    exists h :: HomeAt(p, h, city, key)
  }

  /** The customer's zone is this one of that home city. */
  predicate ZoneAt(p: Policy, i: int, h: int, zone: string, key: Key) {
    && 0 <= i < |p.zones| && 0 <= h < |p.cities| && StandsIn(p.zones[i], p.cities[h], key)
    && Known(p.zones[i], key(Collapse(zone)), key)
  }

  predicate RateAt(p: Policy, i: int, city: string, key: Key) {
    0 <= i < |p.rates| && Known(p.rates[i], key(Collapse(city)), key)
  }

  /** A home delivery quote, for a customer in the h-th home city. */
  ghost predicate SaysHome(p: Policy, h: nat, zone: string, key: Key, r: Result<Quote, Error>)
    requires Shaped(p) && h < |p.cities|
  {
    var city := Collapse(p.cities[h].name);
    if Collapse(zone) == "" then r == Success(NeedsZone(city))
    else if |Collapse(zone)| > 100 then r == Failure(TooLong)
    else
      && (forall i :: ZoneAt(p, i, h, zone, key) ==>
            r == Success(HomeQuote(city, Collapse(p.zones[i].name), p.zones[i].fees[0])))
      && ((forall i :: !ZoneAt(p, i, h, zone, key)) ==> r == Success(NoZoneRate(city)))
  }

  /** A quote for a customer outside the home cities: the fee of the chosen courier at the destination. */
  ghost predicate SaysCourier(p: Policy, city: string, courier: Courier, key: Key, r: Result<Quote, Error>)
    requires Shaped(p)
  {
    && (courier == NoCourier ==> r == Success(NeedsMethod))
    && (forall i :: RateAt(p, i, city, key) && courier == Mrw ==>
          r == Success(CourierQuote(Collapse(p.rates[i].name), Mrw, p.rates[i].fees[0])))
    && (forall i :: RateAt(p, i, city, key) && courier == Zoom ==>
          r == Success(CourierQuote(Collapse(p.rates[i].name), Zoom, p.rates[i].fees[1])))
    && ((forall i :: !RateAt(p, i, city, key)) && courier != NoCourier ==>
         r == Success(NoRate(Collapse(city), courier)))
  }

  lemma ZoneFinds(p: Policy, zones: seq<Entry>, zone: string, key: Key, h: nat)
    requires NormalizeEntries(HomeCities, p.cities, key).Success? && h < |p.cities|
    requires NormalizeEntries(Zones(NormalizeEntries(HomeCities, p.cities, key).value), p.zones, key) == Success(zones)
    ensures |zones| == |p.zones|
    ensures forall i :: ZoneAt(p, i, h, zone, key) ==>
        Find(zones, key(Collapse(p.cities[h].name)), key(Collapse(zone)), key) == Some(zones[i])
        && zones[i].name == Collapse(p.zones[i].name) && zones[i].fees == p.zones[i].fees
    ensures (forall i :: !ZoneAt(p, i, h, zone, key)) ==>
        Find(zones, key(Collapse(p.cities[h].name)), key(Collapse(zone)), key).None?
  {
    var kind := Zones(NormalizeEntries(HomeCities, p.cities, key).value);
    var city, k := key(Collapse(p.cities[h].name)), key(Collapse(zone));
    NormalizeExactly(kind, p.zones, key);
    NormalizedDisjoint(kind, p.zones, key);
    ZonesAcceptedExactly(p.cities, p.zones, key);
    hide *;
    forall i | 0 <= i < |p.zones|
      ensures HasKey(zones[i], city, k, key) <==> ZoneAt(p, i, h, zone, key)
      ensures zones[i].name == Collapse(p.zones[i].name) && zones[i].fees == p.zones[i].fees
    {
      ZoneHasKey(p, zones[i], i, h, zone, key);
    }
    forall i | ZoneAt(p, i, h, zone, key)
      ensures 0 <= i < |zones| && Find(zones, city, k, key) == Some(zones[i])
    {
      ZoneInRange(p, i, h, zone, key);
      FindFinds(zones, i, city, k, key);
    }
    var i := FindMeans(zones, city, k, key);
  }

  lemma ZoneInRange(p: Policy, i: int, h: int, zone: string, key: Key)
    requires ZoneAt(p, i, h, zone, key)
    ensures 0 <= i < |p.zones|
  {
  }

  lemma ZoneHasKey(p: Policy, cleaned: Entry, i: nat, h: nat, zone: string, key: Key)
    requires NormalizeEntries(HomeCities, p.cities, key).Success? && h < |p.cities|
    requires i < |p.zones| && ZoneFits(p.zones[i], p.cities, key)
    requires CleanEntry(Zones(NormalizeEntries(HomeCities, p.cities, key).value), p.zones[i], key) == Success(cleaned)
    ensures cleaned.name == Collapse(p.zones[i].name) && cleaned.fees == p.zones[i].fees
    ensures HasKey(cleaned, key(Collapse(p.cities[h].name)), key(Collapse(zone)), key) <==> ZoneAt(p, i, h, zone, key)
  {
    var kind := Zones(NormalizeEntries(HomeCities, p.cities, key).value);
    var city, k := Collapse(p.cities[h].name), key(Collapse(zone));
    CleanedKeeps(kind, p.zones[i], key, k);
    assert HasKey(cleaned, key(cleaned.city), k, key) <==> Known(p.zones[i], k, key);
    hide NormalizeEntries, Collapse, Known, StandsIn, CleanAliases, ValidText, Keyed;
    var g :| 0 <= g < |p.cities| && StandsIn(p.zones[i], p.cities[g], key);
    CityForFinds(p.cities, p.zones[i], key, g);
    if key(cleaned.city) == key(city) {
      OneName(p.cities, key, g, h);
    }
    if StandsIn(p.zones[i], p.cities[h], key) {
      CityForFinds(p.cities, p.zones[i], key, h);
    }
  }

  lemma HomeMeans(p: Policy, h: nat, zone: string, key: Key)
    requires Shaped(p) && Normalize(p, key).Success? && h < |p.cities|
    ensures
      var q := Normalize(p, key).value;
      && Shaped(q) && h < |q.cities|
      && SaysHome(p, h, zone, key, ResolveHome(q, q.cities[h], zone, key))
  {
    NormalizeKeepsShape(p, key);
    NormalizeExactly(HomeCities, p.cities, key);
    var q := Normalize(p, key).value;
    hide NormalizeEntries, Collapse, Known, StandsIn, ZoneAt, Find, MatchLocation, InCity, HasKey;
    assert CleanEntry(HomeCities, p.cities[h], key) == Success(q.cities[h]);
    CleanedKeeps(HomeCities, p.cities[h], key, "");
    hide CleanEntry;
    ZoneFinds(p, q.zones, zone, key, h);
    MatchInCity(q.zones, key(q.cities[h].name), Collapse(zone), key);
  }

  lemma RateFinds(p: Policy, rates: seq<Entry>, city: string, key: Key)
    requires NormalizeEntries(HomeCities, p.cities, key).Success?
    requires NormalizeEntries(Couriers(NormalizeEntries(HomeCities, p.cities, key).value), p.rates, key)
          == Success(rates)
    ensures |rates| == |p.rates|
    ensures forall i :: RateAt(p, i, city, key) ==>
        MatchLocation(rates, Collapse(city), key) == Some(rates[i])
        && rates[i].name == Collapse(p.rates[i].name) && rates[i].fees == p.rates[i].fees
    ensures (forall i :: !RateAt(p, i, city, key)) ==> MatchLocation(rates, Collapse(city), key).None?
  {
    var kind := Couriers(NormalizeEntries(HomeCities, p.cities, key).value);
    NormalizeExactly(kind, p.rates, key);
    hide NormalizeEntries, Collapse, Known, MatchLocation, CleanEntry;
    forall i | RateAt(p, i, city, key)
      ensures MatchLocation(rates, Collapse(city), key) == Some(rates[i])
      ensures rates[i].name == Collapse(p.rates[i].name) && rates[i].fees == p.rates[i].fees
    {
      MatchFinds(kind, p.rates, Collapse(city), key, i);
    }
    if forall i :: !RateAt(p, i, city, key) {
      forall i | 0 <= i < |p.rates|
        ensures !Known(p.rates[i], key(Collapse(city)), key)
      {
        assert !RateAt(p, i, city, key);
      }
      MatchFails(kind, p.rates, Collapse(city), key);
    }
  }

  lemma CourierMeans(p: Policy, city: string, courier: Courier, key: Key)
    requires Shaped(p) && Normalize(p, key).Success?
    ensures
      var q := Normalize(p, key).value;
      Shaped(q) && SaysCourier(p, city, courier, key, Success(ResolveCourier(q, Collapse(city), courier, key)))
  {
    NormalizeKeepsShape(p, key);
    RateFinds(p, Normalize(p, key).value.rates, city, key);
    hide NormalizeEntries, Collapse, Known, MatchLocation, RateAt;
  }

  /** What a customer is told under an accepted policy, for every city, zone and courier: nothing
      without a city, the home quote of the city that goes by its key, the courier quote otherwise. */
  lemma QuoteMeans(p: Policy, city: string, zone: string, courier: Courier, key: Key)
    requires Shaped(p) && Normalize(p, key).Success?
    ensures
      var r := ResolveQuote(p, city, zone, courier, key);
      if Collapse(city) == "" then r == Success(NeedsCity)
      else if |Collapse(city)| > 100 then r == Failure(TooLong)
      else
        && (forall h :: HomeAt(p, h, city, key) ==> SaysHome(p, h, zone, key, r))
        && (!HasHome(p, city, key) ==> SaysCourier(p, city, courier, key, r))
  {
    NormalizeKeepsShape(p, key);
    var q := Normalize(p, key).value;
    hide NormalizeEntries, Normalize, Collapse, Known, MatchLocation, SaysHome, SaysCourier, ResolveHome,
        ResolveCourier;
    CourierMeans(p, city, courier, key);
    forall h | HomeAt(p, h, city, key)
      ensures MatchLocation(q.cities, Collapse(city), key).Some?
      ensures Shaped(q) && SaysHome(p, h, zone, key,
                  ResolveHome(q, MatchLocation(q.cities, Collapse(city), key).value, zone, key))
    {
      HomeFound(p, h, city, key);
      HomeMeans(p, h, zone, key);
    }
    if !HasHome(p, city, key) {
      NoHomeFound(p, city, key);
    }
  }

  lemma HomeFound(p: Policy, h: nat, city: string, key: Key)
    requires Normalize(p, key).Success? && HomeAt(p, h, city, key)
    ensures h < |Normalize(p, key).value.cities|
    ensures MatchLocation(Normalize(p, key).value.cities, Collapse(city), key)
        == Some(Normalize(p, key).value.cities[h])
  {
    hide NormalizeEntries, Collapse, Known, MatchLocation;
    MatchFinds(HomeCities, p.cities, Collapse(city), key, h);
  }

  lemma NoHomeFound(p: Policy, city: string, key: Key)
    requires Normalize(p, key).Success? && !HasHome(p, city, key)
    ensures MatchLocation(Normalize(p, key).value.cities, Collapse(city), key).None?
  {
    hide NormalizeEntries, Collapse, Known, MatchLocation;
    forall h | 0 <= h < |p.cities|
      ensures !Known(p.cities[h], key(Collapse(city)), key)
    {
      assert !HomeAt(p, h, city, key);
    }
    MatchFails(HomeCities, p.cities, Collapse(city), key);
  }
}
