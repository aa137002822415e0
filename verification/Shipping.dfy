/** Delivery policy validation and quotes (store/app/shipping.py). Comparison keys are an arbitrary
    function of the text; fees are cents. */
module Shipping {
  import opened Common

  type Key = string -> string

  /** One configured place. Cities and courier destinations have no city of their own; a home city
      has no fees, a zone one, a destination the MRW and the Zoom fee. */
  datatype Entry = Entry(city: string, name: string, aliases: seq<string>, fees: seq<int>)

  datatype Policy = Policy(cities: seq<Entry>, zones: seq<Entry>, rates: seq<Entry>)

  datatype Error = MissingText | TooLong | BadFee | UnknownCity | Repeated | HomeCityRate

  /** Which list is being normalised. */
  datatype Kind = HomeCities | Zones(home: seq<Entry>) | Couriers(home: seq<Entry>)

  const MAX_TEXT := 100
  const MAX_FEE_CENTS := 10000000

  // ---------------------------------------------------------------- texts

  predicate IsSpace(c: char) {
    c == ' ' || 9 <= c as int <= 13 || 28 <= c as int <= 31
  }

  /** Runs of white space become one space; `drop` drops a run at the start. */
  function Squash(text: string, drop: bool): string {
    if text == "" then ""
    else if IsSpace(text[0]) then (if drop then [] else [' ']) + Squash(text[1..], true)
    else [text[0]] + Squash(text[1..], false)
  }

  function TrimEnd(text: string): string {
    if text != "" && text[|text| - 1] == ' ' then text[..|text| - 1] else text
  }

  function Collapse(text: string): string {
    TrimEnd(Squash(text, true))
  }

  /** Single spaces only, and none right after `drop`. */
  predicate Tidy(text: string, drop: bool) {
    text == "" ||
    (if IsSpace(text[0]) then !drop && text[0] == ' ' && Tidy(text[1..], true) else Tidy(text[1..], false))
  }

  lemma {:induction false} SquashTidy(text: string, drop: bool)
    ensures Tidy(Squash(text, drop), drop)
  {
    if text != "" {
      var rest := Squash(text[1..], IsSpace(text[0]));
      SquashTidy(text[1..], IsSpace(text[0]));
      if !(IsSpace(text[0]) && drop) {
        var c := if IsSpace(text[0]) then ' ' else text[0];
        assert Squash(text, drop) == [c] + rest;
        assert ([c] + rest)[1..] == rest;
      } else {
        assert [] + rest == rest;
      }
    }
  }

  lemma {:induction false} TidySquash(text: string, drop: bool)
    requires Tidy(text, drop)
    ensures Squash(text, drop) == text
  {
    if text != "" {
      TidySquash(text[1..], IsSpace(text[0]));
      assert text == [text[0]] + text[1..];
    }
  }

  lemma {:induction false} TidyFront(text: string, drop: bool)
    requires text != "" && Tidy(text, drop)
    ensures Tidy(text[..|text| - 1], drop)
    ensures text[|text| - 1] == ' ' && |text| > 1 ==> !IsSpace(text[|text| - 2])
  {
    var front := text[..|text| - 1];
    if |text| > 1 {
      assert front[1..] == text[1..][..|text| - 2];
      TidyFront(text[1..], IsSpace(text[0]));
    } else {
      assert front == "";
    }
  }

  /** Cleaning a cleaned text changes nothing. */
  lemma CollapseIdempotent(text: string)
    ensures Collapse(Collapse(text)) == Collapse(text)
  {
    hide Squash, Tidy;
    var squashed := Squash(text, true);
    SquashTidy(text, true);
    if squashed != "" {
      TidyFront(squashed, true);
    }
    TidySquash(Collapse(text), true);
    NeverStartsWithSpace(squashed);
  }

  lemma NeverStartsWithSpace(text: string)
    requires Tidy(text, true)
    ensures text != "" ==> !IsSpace(text[0])
  {
  }

  function CleanText(text: string): (r: Result<string, Error>)
  {
    var c := Collapse(text);
    if c == "" then Failure(MissingText) else if |c| > MAX_TEXT then Failure(TooLong) else Success(c)
  }

  lemma CleanTextIdempotent(text: string)
    requires CleanText(text).Success?
    ensures CleanText(CleanText(text).value) == CleanText(text)
  {
    CollapseIdempotent(text);
  }

  // ---------------------------------------------------------------- aliases

  predicate Keyed(texts: seq<string>, k: string, key: Key) {
    exists i :: 0 <= i < |texts| && key(texts[i]) == k
  }

  /** `_normalize_aliases`: cleaned, and without those whose key the name or an earlier alias has. */
  function CleanAliases(raw: seq<string>, name: string, key: Key): Result<seq<string>, Error> {
    if raw == [] then Success([])
    else
      var n := |raw| - 1;
      var front := CleanAliases(raw[..n], name, key);
      var alias := CleanText(raw[n]);
      if front.Failure? then front
      else if alias.Failure? then Failure(alias.error)
      else if key(alias.value) == key(name) || Keyed(front.value, key(alias.value), key) then front
      else Success(front.value + [alias.value])
  }

  predicate AllClean(raw: seq<string>) {
    forall i :: 0 <= i < |raw| ==> CleanText(raw[i]).Success?
  }

  predicate RawKeyed(raw: seq<string>, k: string, key: Key)
    requires AllClean(raw)
  {
    exists i :: 0 <= i < |raw| && key(CleanText(raw[i]).value) == k
  }

  lemma {:induction false} CleanAliasesSucceeds(raw: seq<string>, name: string, key: Key)
    ensures CleanAliases(raw, name, key).Success? <==> AllClean(raw)
  {
    hide CleanText, Keyed;
    if raw != [] {
      CleanAliasesSucceeds(raw[..|raw| - 1], name, key);
    }
  }

  /** Cleaning aliases succeeds exactly when every alias is a text, and no key is lost or added. */
  lemma {:induction false} CleanAliasesExactly(raw: seq<string>, name: string, key: Key, k: string)
    requires k != key(name)
    ensures CleanAliases(raw, name, key).Success? <==> AllClean(raw)
    ensures AllClean(raw) ==> (Keyed(CleanAliases(raw, name, key).value, k, key) <==> RawKeyed(raw, k, key))
  {
    CleanAliasesSucceeds(raw, name, key);
    if raw != [] && AllClean(raw) {
      var n := |raw| - 1;
      assert AllClean(raw[..n]);
      CleanAliasesExactly(raw[..n], name, key, k);
      KeyedGrows(CleanAliases(raw[..n], name, key).value, CleanText(raw[n]).value, k, key);
      RawKeyedGrows(raw, k, key);
      hide CleanText, Keyed, RawKeyed;
    }
  }

  lemma KeyedGrows(texts: seq<string>, text: string, k: string, key: Key)
    ensures Keyed(texts + [text], k, key) <==> Keyed(texts, k, key) || key(text) == k
  {
    assert (texts + [text])[|texts|] == text;
    assert forall i :: 0 <= i < |texts| ==> (texts + [text])[i] == texts[i];
  }

  lemma RawKeyedGrows(raw: seq<string>, k: string, key: Key)
    requires raw != [] && AllClean(raw) && AllClean(raw[..|raw| - 1])
    ensures RawKeyed(raw, k, key) <==> RawKeyed(raw[..|raw| - 1], k, key) || key(CleanText(raw[|raw| - 1]).value) == k
  {
    hide CleanText;
    var n := |raw| - 1;
    assert forall i :: 0 <= i < n ==> raw[..n][i] == raw[i];
  }

  /** What cleaned aliases look like: clean, with distinct keys other than the name's. */
  predicate AliasesFit(aliases: seq<string>, name: string, key: Key) {
    && (forall i :: 0 <= i < |aliases| ==> CleanText(aliases[i]) == Success(aliases[i]) && key(aliases[i]) != key(name))
    && (forall i, j :: 0 <= i < j < |aliases| ==> key(aliases[i]) != key(aliases[j]))
  }

  lemma {:induction false} CleanAliasesFit(raw: seq<string>, name: string, key: Key)
    requires CleanAliases(raw, name, key).Success?
    ensures AliasesFit(CleanAliases(raw, name, key).value, name, key)
  {
    if raw != [] {
      hide CleanText;
      var n := |raw| - 1;
      CleanAliasesFit(raw[..n], name, key);
      CleanTextIdempotent(raw[n]);
    }
  }

  lemma {:induction false} FittingAliasesStay(aliases: seq<string>, name: string, key: Key)
    requires AliasesFit(aliases, name, key)
    ensures CleanAliases(aliases, name, key) == Success(aliases)
  {
    if aliases != [] {
      hide CleanText;
      var n := |aliases| - 1;
      FittingAliasesStay(aliases[..n], name, key);
      assert aliases[..n] + [aliases[n]] == aliases;
    }
  }

  // ---------------------------------------------------------------- entries

  /** The keys of an entry, each with the key of its city: two entries may not share one. */
  predicate HasKey(e: Entry, city: string, k: string, key: Key) {
    key(e.city) == city && (key(e.name) == k || Keyed(e.aliases, k, key))
  }

  predicate Clash(a: Entry, b: Entry, key: Key) {
    key(a.city) == key(b.city)
    && (HasKey(b, key(b.city), key(a.name), key)
        || exists i :: 0 <= i < |a.aliases| && HasKey(b, key(b.city), key(a.aliases[i]), key))
  }

  lemma ClashMeans(a: Entry, b: Entry, key: Key)
    ensures Clash(a, b, key) <==> exists city, k :: HasKey(a, city, k, key) && HasKey(b, city, k, key)
  {
    if Clash(a, b, key) {
      if HasKey(b, key(b.city), key(a.name), key) {
        assert HasKey(a, key(a.city), key(a.name), key);
      } else {
        var i :| 0 <= i < |a.aliases| && HasKey(b, key(b.city), key(a.aliases[i]), key);
        assert HasKey(a, key(a.city), key(a.aliases[i]), key);
      }
    }
    forall city, k | HasKey(a, city, k, key) && HasKey(b, city, k, key)
      ensures Clash(a, b, key)
    {
      if key(a.name) != k {
        var i :| 0 <= i < |a.aliases| && key(a.aliases[i]) == k;
      }
    }
  }

  /** The first entry that has the key. */
  function Find(entries: seq<Entry>, city: string, k: string, key: Key): Option<Entry> {
    if entries == [] then None
    else if HasKey(entries[0], city, k, key) then Some(entries[0])
    else Find(entries[1..], city, k, key)
  }

  /** `_match_location`. */
  function MatchLocation(entries: seq<Entry>, value: string, key: Key): Option<Entry> {
    if entries == [] then None
    else if key(entries[0].name) == key(value) || Keyed(entries[0].aliases, key(value), key) then Some(entries[0])
    else MatchLocation(entries[1..], value, key)
  }

  function InCity(entries: seq<Entry>, city: string, key: Key): seq<Entry> {
    if entries == [] then []
    else (if key(entries[0].city) == city then [entries[0]] else []) + InCity(entries[1..], city, key)
  }

  /** Matching a name among the zones of a city is finding its key. */
  lemma {:induction false} MatchInCity(entries: seq<Entry>, city: string, value: string, key: Key)
    ensures MatchLocation(InCity(entries, city, key), value, key) == Find(entries, city, key(value), key)
  {
    if entries != [] {
      var rest := InCity(entries[1..], city, key);
      MatchInCity(entries[1..], city, value, key);
      if key(entries[0].city) == city {
        assert ([entries[0]] + rest)[1..] == rest;
      } else {
        assert [] + rest == rest;
      }
    }
  }

  /** Cities and destinations stand under no city. */
  predicate Toplevel(entries: seq<Entry>) {
    forall i :: 0 <= i < |entries| ==> entries[i].city == ""
  }

  lemma {:induction false} MatchToplevel(entries: seq<Entry>, value: string, key: Key)
    requires Toplevel(entries)
    ensures MatchLocation(entries, value, key) == Find(entries, key(""), key(value), key)
  {
    if entries != [] {
      MatchToplevel(entries[1..], value, key);
    }
  }

  predicate FeesFit(fees: seq<int>) {
    forall i :: 0 <= i < |fees| ==> 0 <= fees[i] <= MAX_FEE_CENTS
  }

  /** The city an entry ends up under. */
  function CityFor(kind: Kind, raw: Entry, key: Key): Result<string, Error> {
    if !kind.Zones? then Success("")
    else
      var city := CleanText(raw.city);
      if city.Failure? then city
      else
        var home := MatchLocation(kind.home, city.value, key);
        if home.None? then Failure(UnknownCity) else Success(home.value.name)
  }

  /** City, name and aliases of an entry; its fees are looked at last. */
  function CleanTexts(kind: Kind, raw: Entry, key: Key): Result<Entry, Error> {
    var city := CityFor(kind, raw, key);
    if city.Failure? then Failure(city.error)
    else
      var name := CleanText(raw.name);
      if name.Failure? then Failure(name.error)
      else
        var aliases := CleanAliases(raw.aliases, name.value, key);
        if aliases.Failure? then Failure(aliases.error)
        else Success(Entry(city.value, name.value, aliases.value, raw.fees))
  }

  /** What an entry by itself must be to be accepted. */
  function CleanEntry(kind: Kind, raw: Entry, key: Key): Result<Entry, Error> {
    var texts := CleanTexts(kind, raw, key);
    if texts.Success? && !FeesFit(raw.fees) then Failure(BadFee) else texts
  }

  predicate ClashesAny(e: Entry, others: seq<Entry>, key: Key) {
    exists i :: 0 <= i < |others| && Clash(e, others[i], key)
  }

  /** A courier destination may not be a city with home delivery. */
  predicate Forbidden(kind: Kind, e: Entry, key: Key) {
    kind.Couriers? && ClashesAny(e, kind.home, key)
  }

  /** The three list normalisers; of one entry, a repeated key is reported before a bad fee. */
  function NormalizeEntries(kind: Kind, raw: seq<Entry>, key: Key): Result<seq<Entry>, Error> {
    if raw == [] then Success([])
    else
      var n := |raw| - 1;
      var front := NormalizeEntries(kind, raw[..n], key);
      if front.Failure? then front
      else
        var e := CleanTexts(kind, raw[n], key);
        if e.Failure? then Failure(e.error)
        else if ClashesAny(e.value, front.value, key) then Failure(Repeated)
        else if Forbidden(kind, e.value, key) then Failure(HomeCityRate)
        else if !FeesFit(raw[n].fees) then Failure(BadFee)
        else Success(front.value + [e.value])
  }

  predicate EachCleans(kind: Kind, raw: seq<Entry>, key: Key) {
    forall i :: 0 <= i < |raw| ==> CleanEntry(kind, raw[i], key).Success?
  }

  function Cleaned(kind: Kind, raw: Entry, key: Key): Entry
    requires CleanEntry(kind, raw, key).Success?
  {
    CleanEntry(kind, raw, key).value
  }

  /** What a list must meet to be accepted. */
  predicate Acceptable(kind: Kind, raw: seq<Entry>, key: Key) {
    && EachCleans(kind, raw, key)
    && (forall i, j :: 0 <= i < j < |raw| ==> !Clash(Cleaned(kind, raw[j], key), Cleaned(kind, raw[i], key), key))
    && (forall i :: 0 <= i < |raw| ==> !Forbidden(kind, Cleaned(kind, raw[i], key), key))
  }

  predicate CleanedFrom(entries: seq<Entry>, kind: Kind, raw: seq<Entry>, key: Key) {
    && |entries| == |raw|
    && forall i :: 0 <= i < |raw| ==> CleanEntry(kind, raw[i], key) == Success(entries[i])
  }

  /** A list is accepted exactly when every entry is well formed, no two share a key and none is
      forbidden; the result is the cleaned entries in order. */
  lemma {:induction false} NormalizeExactly(kind: Kind, raw: seq<Entry>, key: Key)
    ensures NormalizeEntries(kind, raw, key).Success? <==> Acceptable(kind, raw, key)
    ensures Acceptable(kind, raw, key) ==> CleanedFrom(NormalizeEntries(kind, raw, key).value, kind, raw, key)
  {
    hide CleanTexts, Clash, Forbidden, FeesFit;
    if raw != [] {
      var n := |raw| - 1;
      NormalizeExactly(kind, raw[..n], key);
      AcceptableGrows(kind, raw, key);
      hide Acceptable;
      if Acceptable(kind, raw[..n], key) {
        LastClashes(kind, raw, NormalizeEntries(kind, raw[..n], key).value, key);
      }
    }
  }

  /** The last entry of an acceptable list. */
  predicate LastFits(kind: Kind, raw: seq<Entry>, key: Key)
    requires raw != []
  {
    var n := |raw| - 1;
    && CleanEntry(kind, raw[n], key).Success?
    && (forall i :: 0 <= i < n && CleanEntry(kind, raw[i], key).Success? ==>
          !Clash(Cleaned(kind, raw[n], key), Cleaned(kind, raw[i], key), key))
    && !Forbidden(kind, Cleaned(kind, raw[n], key), key)
  }

  lemma AcceptableGrows(kind: Kind, raw: seq<Entry>, key: Key)
    requires raw != []
    ensures Acceptable(kind, raw, key) <==> Acceptable(kind, raw[..|raw| - 1], key) && LastFits(kind, raw, key)
  {
    hide CleanEntry, Clash, Forbidden;
  }

  lemma LastClashes(kind: Kind, raw: seq<Entry>, front: seq<Entry>, key: Key)
    requires raw != [] && CleanedFrom(front, kind, raw[..|raw| - 1], key)
    ensures LastFits(kind, raw, key) <==>
      && CleanEntry(kind, raw[|raw| - 1], key).Success?
      && !ClashesAny(Cleaned(kind, raw[|raw| - 1], key), front, key)
      && !Forbidden(kind, Cleaned(kind, raw[|raw| - 1], key), key)
  {
    hide CleanEntry, Clash, Forbidden;
    var n := |raw| - 1;
    forall i | 0 <= i < n
      ensures CleanEntry(kind, raw[i], key) == Success(front[i])
    {
      assert raw[..n][i] == raw[i];
    }
  }

  // ---------------------------------------------------------------- what a normalised list keeps

  predicate Disjoint(entries: seq<Entry>, key: Key) {
    forall i, j :: 0 <= i < j < |entries| ==> !Clash(entries[j], entries[i], key)
  }

  lemma ClashSymmetric(a: Entry, b: Entry, key: Key)
    ensures Clash(a, b, key) == Clash(b, a, key)
  {
    ClashMeans(a, b, key);
    ClashMeans(b, a, key);
  }

  lemma NormalizedDisjoint(kind: Kind, raw: seq<Entry>, key: Key)
    requires NormalizeEntries(kind, raw, key).Success?
    ensures Disjoint(NormalizeEntries(kind, raw, key).value, key)
    ensures !kind.Zones? ==> Toplevel(NormalizeEntries(kind, raw, key).value)
  {
    NormalizeExactly(kind, raw, key);
    var r := NormalizeEntries(kind, raw, key).value;
    forall i | 0 <= i < |raw|
      ensures Cleaned(kind, raw[i], key) == r[i]
    {
    }
    hide Clash, NormalizeEntries;
  }

  /** Where no key is shared, the key leads to its one entry. */
  lemma {:induction false} FindFinds(entries: seq<Entry>, i: nat, city: string, k: string, key: Key)
    requires Disjoint(entries, key) && i < |entries| && HasKey(entries[i], city, k, key)
    ensures Find(entries, city, k, key) == Some(entries[i])
  {
    hide Clash, HasKey;
    if i > 0 {
      if HasKey(entries[0], city, k, key) {
        ClashMeans(entries[i], entries[0], key);
        assert false;
      }
      FindFinds(entries[1..], i - 1, city, k, key);
    }
  }

  lemma {:induction false} FindMeans(entries: seq<Entry>, city: string, k: string, key: Key) returns (i: nat)
    ensures Find(entries, city, k, key).Some? ==>
      i < |entries| && Find(entries, city, k, key).value == entries[i] && HasKey(entries[i], city, k, key)
    ensures Find(entries, city, k, key).None? ==> forall j :: 0 <= j < |entries| ==> !HasKey(entries[j], city, k, key)
  {
    hide HasKey;
    i := 0;
    if entries != [] && !HasKey(entries[0], city, k, key) {
      var j := FindMeans(entries[1..], city, k, key);
      i := j + 1;
      assert forall m :: 1 <= m < |entries| ==> entries[m] == entries[1..][m - 1];
    }
  }

  // ---------------------------------------------------------------- normalising twice

  /** Home cities as the normaliser leaves them. */
  predicate HomeFits(home: seq<Entry>, key: Key) {
    && Disjoint(home, key) && Toplevel(home)
    && forall i :: 0 <= i < |home| ==> CleanText(home[i].name) == Success(home[i].name)
  }

  lemma CleanEntryTwice(kind: Kind, raw: Entry, key: Key)
    requires kind.Zones? ==> HomeFits(kind.home, key)
    requires CleanEntry(kind, raw, key).Success?
    ensures CleanEntry(kind, Cleaned(kind, raw, key), key) == CleanEntry(kind, raw, key)
  {
    var e := Cleaned(kind, raw, key);
    CleanTextIdempotent(raw.name);
    CleanAliasesFit(raw.aliases, e.name, key);
    FittingAliasesStay(e.aliases, e.name, key);
    if kind.Zones? {
      CityTwice(kind.home, raw.city, key);
    }
    hide CleanText, CleanAliases, MatchLocation, FeesFit;
  }

  lemma CityTwice(home: seq<Entry>, city: string, key: Key)
    requires HomeFits(home, key) && CityFor(Zones(home), Entry(city, "", [], []), key).Success?
    ensures var found := CityFor(Zones(home), Entry(city, "", [], []), key);
      forall e: Entry :: e.city == found.value ==> CityFor(Zones(home), e, key) == found
  {
    var text := CleanText(city).value;
    hide CleanText;
    MatchToplevel(home, text, key);
    var i := FindMeans(home, key(""), key(text), key);
    var name := home[i].name;
    assert HasKey(home[i], key(""), key(name), key);
    FindFinds(home, i, key(""), key(name), key);
    MatchToplevel(home, name, key);
  }

  /** A list of clean entries that share no key and break no rule comes back as it is. */
  lemma FittingListStays(kind: Kind, entries: seq<Entry>, key: Key)
    requires forall i :: 0 <= i < |entries| ==> CleanEntry(kind, entries[i], key) == Success(entries[i])
    requires Disjoint(entries, key)
    requires forall i :: 0 <= i < |entries| ==> !Forbidden(kind, entries[i], key)
    ensures NormalizeEntries(kind, entries, key) == Success(entries)
  {
    hide NormalizeEntries, CleanEntry, Clash, Forbidden;
    NormalizeExactly(kind, entries, key);
    var twice := NormalizeEntries(kind, entries, key).value;
    assert forall i :: 0 <= i < |entries| ==> CleanEntry(kind, entries[i], key) == Success(twice[i]);
    assert twice == entries;
  }

  lemma NoneForbidden(kind: Kind, raw: seq<Entry>, key: Key)
    requires NormalizeEntries(kind, raw, key).Success?
    ensures var once := NormalizeEntries(kind, raw, key).value;
      forall i :: 0 <= i < |once| ==>
          !Forbidden(kind, once[i], key) && i < |raw| && CleanEntry(kind, raw[i], key) == Success(once[i])
  {
    NormalizeExactly(kind, raw, key);
    hide NormalizeEntries, CleanEntry, Clash, Forbidden;
  }

  lemma NormalizeTwice(kind: Kind, raw: seq<Entry>, key: Key)
    requires kind.Zones? ==> HomeFits(kind.home, key)
    requires NormalizeEntries(kind, raw, key).Success?
    ensures NormalizeEntries(kind, NormalizeEntries(kind, raw, key).value, key) == NormalizeEntries(kind, raw, key)
  {
    var once := NormalizeEntries(kind, raw, key).value;
    NoneForbidden(kind, raw, key);
    NormalizedDisjoint(kind, raw, key);
    hide NormalizeEntries, CleanEntry, Clash, Forbidden, Disjoint, HomeFits;
    forall i | 0 <= i < |once|
      ensures CleanEntry(kind, once[i], key) == Success(once[i])
    {
      CleanEntryTwice(kind, raw[i], key);
    }
    FittingListStays(kind, once, key);
  }

  /** `normalize_shipping_policy`. */
  function Normalize(p: Policy, key: Key): Result<Policy, Error> {
    var cities := NormalizeEntries(HomeCities, p.cities, key);
    if cities.Failure? then Failure(cities.error)
    else
      var zones := NormalizeEntries(Zones(cities.value), p.zones, key);
      if zones.Failure? then Failure(zones.error)
      else
        var rates := NormalizeEntries(Couriers(cities.value), p.rates, key);
        if rates.Failure? then Failure(rates.error)
        else Success(Policy(cities.value, zones.value, rates.value))
  }

  lemma NormalizedHomeFits(raw: seq<Entry>, key: Key)
    requires NormalizeEntries(HomeCities, raw, key).Success?
    ensures HomeFits(NormalizeEntries(HomeCities, raw, key).value, key)
  {
    var home := NormalizeEntries(HomeCities, raw, key).value;
    NormalizeExactly(HomeCities, raw, key);
    NormalizedDisjoint(HomeCities, raw, key);
    hide NormalizeEntries, Clash, CleanText;
    forall i | 0 <= i < |home|
      ensures CleanText(home[i].name) == Success(home[i].name)
    {
      assert CleanEntry(HomeCities, raw[i], key) == Success(home[i]);
      CleanTextIdempotent(raw[i].name);
    }
  }

  /** Normalising a normalised policy changes nothing. */
  lemma NormalizeIdempotent(p: Policy, key: Key)
    requires Normalize(p, key).Success?
    ensures Normalize(Normalize(p, key).value, key) == Normalize(p, key)
  {
    hide NormalizeEntries;
    var cities := NormalizeEntries(HomeCities, p.cities, key).value;
    NormalizedHomeFits(p.cities, key);
    NormalizeTwice(HomeCities, p.cities, key);
    NormalizeTwice(Zones(cities), p.zones, key);
    NormalizeTwice(Couriers(cities), p.rates, key);
  }

  /** No two home cities, no two zones of a city and no two destinations share a key, and no home city
      is a destination. */
  lemma NormalizedIsDisjoint(p: Policy, key: Key)
    requires Normalize(p, key).Success?
    ensures var q := Normalize(p, key).value;
      && Disjoint(q.cities, key) && Disjoint(q.zones, key) && Disjoint(q.rates, key)
      && forall i, j :: 0 <= i < |q.rates| && 0 <= j < |q.cities| ==> !Clash(q.rates[i], q.cities[j], key)
  {
    hide NormalizeEntries, Clash;
    var q := Normalize(p, key).value;
    NormalizedDisjoint(HomeCities, p.cities, key);
    NormalizedDisjoint(Zones(q.cities), p.zones, key);
    NormalizedDisjoint(Couriers(q.cities), p.rates, key);
    NormalizeExactly(Couriers(q.cities), p.rates, key);
    forall i, j | 0 <= i < |q.rates| && 0 <= j < |q.cities|
      ensures !Clash(q.rates[i], q.cities[j], key)
    {
      assert Cleaned(Couriers(q.cities), p.rates[i], key) == q.rates[i];
      assert !Forbidden(Couriers(q.cities), q.rates[i], key);
    }
  }
}
