/** The joined city key: which city a listing row ends up in, and which cities the gate is recomputed for. */
module SeedPlacement {
  import opened SlugRegistry
  import opened Wrappers
  import opened Seed
  import opened SeedIdempotence
  import opened SeedRouting
  import opened SeedIndexing

  // ---- Names without a bar -------------------------------------------------------------------------

  predicate NoBar(s: string) {
    '|' !in s
  }

  function BeforeBar(s: string): string {
    if s == [] || s[0] == '|' then "" else [s[0]] + BeforeBar(s[1..])
  }

  lemma {:induction false} BeforeBarOfKey(name: string, rest: string)
    requires NoBar(name)
    ensures BeforeBar(name + "|" + rest) == name
  {
    var key := name + "|" + rest;
    if name != [] {
      BeforeBarOfKey(name[1..], rest);
      assert key[1..] == name[1..] + "|" + rest;
    }
  }

  /** Joined keys are distinct for distinct cities as long as no city name contains the separator. */
  lemma CityKeyIsInjective(a: string, ra: string, b: string, rb: string)
    requires NoBar(a) && NoBar(b) && CityKey(a, Cell(ra)) == CityKey(b, Cell(rb))
    ensures a == b && ra == rb
  {
    var ka, kb := a + "|" + ra, b + "|" + rb;
    assert ka == CityKey(a, Cell(ra)) && kb == CityKey(b, Cell(rb));
    BeforeBarOfKey(a, ra);
    BeforeBarOfKey(b, rb);
    assert ra == ka[|a| + 1..] && rb == kb[|b| + 1..];
  }

  // ---- The id a key leads to -----------------------------------------------------------------------

  function LastWithKey(lines: seq<CityLine>, key: string): Option<CityLine> {
    if lines == [] then None
    else
      var last := lines[|lines| - 1];
      if CityKey(last.name, Cell(last.region)) == key then Some(last) else LastWithKey(lines[..|lines| - 1], key)
  }

  /** The last line of the city sheet with this city's key is this city's own. */
  predicate OwnsItsKey(lines: seq<CityLine>, name: string, region: string) {
    var last := LastWithKey(lines, CityKey(name, Cell(region)));
    last.Some? && last.value.name == name && last.value.region == region
  }

  lemma {:induction false} NoBarOwnsItsKey(lines: seq<CityLine>, name: string, region: string)
    requires NoBar(name) && forall i | 0 <= i < |lines| :: NoBar(lines[i].name)
    ensures OwnsItsKey(lines, name, region) <==> LastWithKey(lines, CityKey(name, Cell(region))).Some?
  {
    if lines != [] {
      var last := lines[|lines| - 1];
      if CityKey(last.name, Cell(last.region)) == CityKey(name, Cell(region)) {
        CityKeyIsInjective(last.name, last.region, name, region);
      } else {
        NoBarOwnsItsKey(lines[..|lines| - 1], name, region);
      }
    }
  }

  predicate IsCity(row: CityRow, id: Id, name: string, region: Option<string>) {
    row.id == id && row.name == name && row.region == region
  }

  predicate InCity(cities: seq<CityRow>, id: Id, name: string, region: string) {
    exists c :: 0 <= c < |cities| && IsCity(cities[c], id, name, Cell(region))
  }

  ghost predicate UniqueCityIds(cities: seq<CityRow>) {
    forall i, j | 0 <= i < j < |cities| :: cities[i].id != cities[j].id
  }

  lemma {:induction false} FoundCityId(cities: seq<CityRow>, name: string, region: string)
    requires FindCity(cities, name, Cell(region)).Some?
    ensures InCity(cities, FindCity(cities, name, Cell(region)).value, name, region)
  {
    var id := FindCity(cities, name, Cell(region)).value;
    if cities[0].name == name && cities[0].region == Cell(region) {
      assert IsCity(cities[0], id, name, Cell(region));
    } else {
      FoundCityId(cities[1..], name, region);
      var c :| 0 <= c < |cities[1..]| && IsCity(cities[1..][c], id, name, Cell(region));
      assert cities[c + 1] == cities[1..][c];
    }
  }

  lemma OneIdOneCity(cities: seq<CityRow>, id: Id, a: string, ra: string, b: string, rb: string)
    requires UniqueCityIds(cities) && InCity(cities, id, a, ra) && InCity(cities, id, b, rb)
    ensures a == b && ra == rb
  {
    var i :| 0 <= i < |cities| && IsCity(cities[i], id, a, Cell(ra));
    var j :| 0 <= j < |cities| && IsCity(cities[j], id, b, Cell(rb));
    assert i == j;
  }

  /** A key holds the id of the city on the last line that has it. */
  lemma {:induction false} IdIsOfTheLast(cities: seq<CityRow>, lines: seq<CityLine>, key: string)
    requires CitiesFound(cities, lines)
    ensures var ids, last := CityIds(cities, map[], lines), LastWithKey(lines, key);
            && (key in ids <==> last.Some?)
            && (last.Some? ==>
                  && CityKey(last.value.name, Cell(last.value.region)) == key
                  && FindCity(cities, last.value.name, Cell(last.value.region)) == Some(ids[key]))
  {
    if lines != [] {
      var front, line := lines[..|lines| - 1], lines[|lines| - 1];
      assert forall i | 0 <= i < |front| :: front[i] == lines[i];
      IdIsOfTheLast(cities, front, key);
    }
  }

  lemma KeyLeadsHomeIff(cities: seq<CityRow>, lines: seq<CityLine>, name: string, region: string)
    requires CitiesFound(cities, lines) && CityKey(name, Cell(region)) in CityIds(cities, map[], lines)
    ensures var id := CityIds(cities, map[], lines)[CityKey(name, Cell(region))];
            && (OwnsItsKey(lines, name, region) ==> InCity(cities, id, name, region))
            && (UniqueCityIds(cities) && InCity(cities, id, name, region) ==> OwnsItsKey(lines, name, region))
  {
    var key := CityKey(name, Cell(region));
    var id := CityIds(cities, map[], lines)[key];
    IdIsOfTheLast(cities, lines, key);
    var last := LastWithKey(lines, key).value;
    FoundCityId(cities, last.name, last.region);
    if UniqueCityIds(cities) && InCity(cities, id, name, region) {
      OneIdOneCity(cities, id, name, region, last.name, last.region);
    }
  }

  // ---- City ids stay unique ------------------------------------------------------------------------

  /** Ids are primary keys, and nextId is not in use. */
  ghost predicate CityIdsOk(db: Tables) {
    UniqueCityIds(db.cities) && forall i | 0 <= i < |db.cities| :: db.cities[i].id < db.nextId
  }

  lemma {:induction false} SeedCitiesKeepsIds(cfg: Config, s: Progress, lines: seq<CityLine>)
    requires CityIdsOk(s.db)
    ensures CityIdsOk(SeedCities(cfg, s, lines).db)
  {
    if lines != [] {
      SeedCitiesKeepsIds(cfg, s, lines[..|lines| - 1]);
    }
  }

  lemma BeforeListingsKeepsIds(cfg: Config, db: Tables, sheets: Sheets)
    requires CityIdsOk(db) && BeforeListings(cfg, db, sheets).error.None?
    ensures UniqueCityIds(BeforeListings(cfg, db, sheets).db.cities)
  {
    var s1 := SeedVertical(cfg, Begin(cfg, db));
    var s2 := SeedCities(cfg, s1, sheets.cities);
    var s3 := RegisterRegions(cfg, s2, s2.db.cities);
    SeedCategoriesGrow(cfg, s3, sheets.categories);
    RegisterRegionsLeaves(cfg, s2, s2.db.cities);
    SeedVerticalStep(cfg, Begin(cfg, db));
    assert CityIdsOk(s1.db);
    SeedCitiesKeepsIds(cfg, s1, sheets.cities);
  }

  // ---- Row by row ----------------------------------------------------------------------------------

  /** The listings table once the first k listing rows have been read. */
  function ListingsAfter(cfg: Config, db: Tables, sheets: Sheets, k: nat): seq<ListingRow>
    requires k <= |sheets.listings|
  {
    SeedListings(cfg, BeforeListings(cfg, db, sheets), sheets.listings[..k]).db.listings
  }

  /** Listing i of the finished table is the one row k of the sheet inserted. */
  predicate Inserted(cfg: Config, db: Tables, sheets: Sheets, k: nat, i: nat) {
    && k < |sheets.listings|
    && |ListingsAfter(cfg, db, sheets, k)| == i < |ListingsAfter(cfg, db, sheets, k + 1)|
  }

  /** What reading more listing rows keeps. */
  ghost predicate Extends(a: Progress, b: Progress) {
    a.error.None? && a.db.listings <= b.db.listings && a.cityIds == b.cityIds && a.categoryIds == b.categoryIds
  }

  lemma OneMoreRow(cfg: Config, s: Progress, line: ListingLine)
    requires SeedListing(cfg, s, line).error.None?
    ensures Extends(s, SeedListing(cfg, s, line))
  {
    SeedListingStep(cfg, s, line);
  }

  lemma {:induction false} PrefixOfSheet(cfg: Config, s: Progress, lines: seq<ListingLine>, k: nat)
    requires k <= |lines| && SeedListings(cfg, s, lines).error.None?
    ensures Extends(SeedListings(cfg, s, lines[..k]), SeedListings(cfg, s, lines))
  {
    if k == |lines| {
      assert lines[..k] == lines;
    } else {
      var n := |lines| - 1;
      OneMoreRow(cfg, SeedListings(cfg, s, lines[..n]), lines[n]);
      PrefixOfSheet(cfg, s, lines[..n], k);
      assert lines[..n][..k] == lines[..k];
    }
  }

  /** What an inserted listing takes from its row and from the maps. */
  lemma InsertedFromRow(cfg: Config, s: Progress, line: ListingLine)
    requires SeedListing(cfg, s, line).error.None? && SeedListing(cfg, s, line).db.listings != s.db.listings
    ensures var key := CityKey(line.city, Cell(line.region));
            && key in s.cityIds && line.category in s.categoryIds
            && (var s' := SeedListing(cfg, s, line);
                && |s'.db.listings| == |s.db.listings| + 1
                && var l := s'.db.listings[|s.db.listings|];
                   l.name == line.name && l.category == s.categoryIds[line.category] && l.city == s.cityIds[key])
  {
  }

  lemma RowKInserts(cfg: Config, s: Progress, lines: seq<ListingLine>, k: nat)
    requires k < |lines| && SeedListings(cfg, s, lines).error.None?
    requires |SeedListings(cfg, s, lines[..k]).db.listings| < |SeedListings(cfg, s, lines[..k + 1]).db.listings|
    ensures var key := CityKey(lines[k].city, Cell(lines[k].region));
            && key in s.cityIds && lines[k].category in s.categoryIds
            && var i := |SeedListings(cfg, s, lines[..k]).db.listings|;
            && i < |SeedListings(cfg, s, lines).db.listings|
            && var l := SeedListings(cfg, s, lines).db.listings[i];
               l.name == lines[k].name && l.category == s.categoryIds[lines[k].category] && l.city == s.cityIds[key]
  {
    var mid := SeedListings(cfg, s, lines[..k]);
    assert lines[..0] == [];
    PrefixOfSheet(cfg, s, lines, 0);
    PrefixOfSheet(cfg, s, lines, k);
    PrefixOfSheet(cfg, s, lines, k + 1);
    assert lines[..k + 1][..k] == lines[..k];
    InsertedFromRow(cfg, mid, lines[k]);
  }

  lemma InCityByHead(a: seq<CityRow>, b: seq<CityRow>, id: Id, name: string, region: string)
    requires SameHeads(a, b)
    ensures InCity(a, id, name, region) <==> InCity(b, id, name, region)
  {
    if InCity(a, id, name, region) {
      var c :| 0 <= c < |a| && IsCity(a[c], id, name, Cell(region));
      assert IsCity(b[c], id, name, Cell(region));
    }
    if InCity(b, id, name, region) {
      var c :| 0 <= c < |b| && IsCity(b[c], id, name, Cell(region));
      assert IsCity(a[c], id, name, Cell(region));
    }
  }

  /** The run's listings are those of the listings loop, over cities with the same ids, names and regions. */
  lemma RunKeepsPlacement(cfg: Config, db: Tables, sheets: Sheets)
    requires Run(cfg, db, sheets).error.None?
    ensures var s, r := BeforeListings(cfg, db, sheets), Run(cfg, db, sheets).db;
            && s.error.None? && Prepared(cfg, s, sheets)
            && SameHeads(s.db.cities, r.cities) && s.db.categories == r.categories
            && SeedListings(cfg, s, sheets.listings).error.None?
            && SeedListings(cfg, s, sheets.listings).db.listings == r.listings
  {
    var s := BeforeListings(cfg, db, sheets);
    SeedListingsLeaves(cfg, s, sheets.listings);
    BeforeListingsLeaves(cfg, db, sheets);
    DerivedKeepsAllHeads(cfg, Insertions(cfg, db, sheets));
  }

  predicate InCategory(categories: seq<CategoryRow>, id: Id, name: string) {
    exists g :: 0 <= g < |categories| && categories[g].id == id && categories[g].name == name
  }

  /**
   Where the listing inserted by row k ends up, for every completed run: under the row's own name and category,
   and in the city the row names if and only if the last line of the city sheet with that city's joined key is
   that city's own.
   */
  lemma ListingLandsInItsCityIff(cfg: Config, db: Tables, sheets: Sheets, k: nat, i: nat)
    requires Run(cfg, db, sheets).error.None? && Inserted(cfg, db, sheets, k, i)
    ensures var r, line := Run(cfg, db, sheets).db, sheets.listings[k];
            && i < |r.listings|
            && var l := r.listings[i];
            && l.name == line.name && InCategory(r.categories, l.category, line.category)
            && (OwnsItsKey(sheets.cities, line.city, line.region) ==> InCity(r.cities, l.city, line.city, line.region))
            && (CityIdsOk(db) ==>
                  (InCity(r.cities, l.city, line.city, line.region) <==>
                   OwnsItsKey(sheets.cities, line.city, line.region)))
  {
    var s, r, line := BeforeListings(cfg, db, sheets), Run(cfg, db, sheets).db, sheets.listings[k];
    RunKeepsPlacement(cfg, db, sheets);
    RowKInserts(cfg, s, sheets.listings, k);
    CategoryIdsAreRight(s.db.categories, sheets.categories, line.category);
    KeyLeadsHomeIff(s.db.cities, sheets.cities, line.city, line.region);
    InCityByHead(s.db.cities, r.cities, r.listings[i].city, line.city, line.region);
    if CityIdsOk(db) {
      BeforeListingsKeepsIds(cfg, db, sheets);
    }
  }

  lemma CountStep(cfg: Config, db: Tables, sheets: Sheets, k: nat)
    requires k < |sheets.listings| && Insertions(cfg, db, sheets).error.None?
    ensures |ListingsAfter(cfg, db, sheets, k + 1)| <= |ListingsAfter(cfg, db, sheets, k)| + 1
  {
    var s, lines := BeforeListings(cfg, db, sheets), sheets.listings;
    PrefixOfSheet(cfg, s, lines, k + 1);
    assert lines[..k + 1][..k] == lines[..k];
    AtMostOneMore(cfg, SeedListings(cfg, s, lines[..k]), lines[k]);
  }

  lemma AtMostOneMore(cfg: Config, s: Progress, line: ListingLine)
    requires SeedListing(cfg, s, line).error.None?
    ensures |SeedListing(cfg, s, line).db.listings| <= |s.db.listings| + 1
  {
  }

  lemma {:induction false} SomeRowInserted(cfg: Config, db: Tables, sheets: Sheets, m: nat, i: nat) returns (k: nat)
    requires m <= |sheets.listings| && Insertions(cfg, db, sheets).error.None?
    requires |ListingsAfter(cfg, db, sheets, 0)| <= i < |ListingsAfter(cfg, db, sheets, m)|
    ensures Inserted(cfg, db, sheets, k, i)
  {
    CountStep(cfg, db, sheets, m - 1);
    if i < |ListingsAfter(cfg, db, sheets, m - 1)| {
      k := SomeRowInserted(cfg, db, sheets, m - 1, i);
    } else {
      k := m - 1;
    }
  }

  lemma EveryListingHasItsRow(cfg: Config, db: Tables, sheets: Sheets, i: nat) returns (k: nat)
    requires Run(cfg, db, sheets).error.None? && |db.listings| <= i < |Run(cfg, db, sheets).db.listings|
    ensures Inserted(cfg, db, sheets, k, i)
  {
    RunKeepsPlacement(cfg, db, sheets);
    BeforeListingsLeaves(cfg, db, sheets);
    var lines := sheets.listings;
    assert lines[..0] == [] && lines[..|lines|] == lines;
    k := SomeRowInserted(cfg, db, sheets, |lines|, i);
  }

  /** Row k of the sheet inserted listing i, which is in the city and the category the row names. */
  ghost predicate LandedRight(cfg: Config, db: Tables, sheets: Sheets, k: nat, i: nat) {
    && Inserted(cfg, db, sheets, k, i)
    && var r, line := Run(cfg, db, sheets).db, sheets.listings[k];
    && i < |r.listings| && r.listings[i].name == line.name
    && InCategory(r.categories, r.listings[i].category, line.category)
    && InCity(r.cities, r.listings[i].city, line.city, line.region)
  }

  /** With no '|' in a city name, every listing the run inserts is in the city its own row names, region included. */
  lemma EveryListingInItsOwnCity(cfg: Config, db: Tables, sheets: Sheets, i: nat)
    requires Run(cfg, db, sheets).error.None? && |db.listings| <= i < |Run(cfg, db, sheets).db.listings|
    requires forall c | 0 <= c < |sheets.cities| :: NoBar(sheets.cities[c].name)
    requires forall c | 0 <= c < |sheets.listings| :: NoBar(sheets.listings[c].city)
    ensures exists k: nat :: LandedRight(cfg, db, sheets, k, i)
  {
    var s := BeforeListings(cfg, db, sheets);
    var k := EveryListingHasItsRow(cfg, db, sheets, i);
    RunKeepsPlacement(cfg, db, sheets);
    RowKInserts(cfg, s, sheets.listings, k);
    var line := sheets.listings[k];
    IdIsOfTheLast(s.db.cities, sheets.cities, CityKey(line.city, Cell(line.region)));
    NoBarOwnsItsKey(sheets.cities, line.city, line.region);
    ListingLandsInItsCityIff(cfg, db, sheets, k, i);
    assert LandedRight(cfg, db, sheets, k, i);
  }

  // ---- The cities the gate is recomputed for -------------------------------------------------------

  lemma JudgedIff(cities: seq<CityRow>, lines: seq<CityLine>, name: string, region: string)
    requires CitiesFound(cities, lines) && FindCity(cities, name, Cell(region)).Some?
    ensures var id, ids := FindCity(cities, name, Cell(region)).value, CityIds(cities, map[], lines);
            && (OwnsItsKey(lines, name, region) ==> id in ids.Values)
            && (UniqueCityIds(cities) && id in ids.Values ==> OwnsItsKey(lines, name, region))
  {
    var id, ids := FindCity(cities, name, Cell(region)).value, CityIds(cities, map[], lines);
    IdIsOfTheLast(cities, lines, CityKey(name, Cell(region)));
    if UniqueCityIds(cities) && id in ids.Values {
      var key :| key in ids && ids[key] == id;
      IdIsOfTheLast(cities, lines, key);
      var last := LastWithKey(lines, key).value;
      FoundCityId(cities, name, region);
      FoundCityId(cities, last.name, last.region);
      OneIdOneCity(cities, id, name, region, last.name, last.region);
    }
  }

  /** A city of the sheet is judged by the gate if and only if the last line with its joined key is its own. */
  lemma SheetCityIsJudgedIff(cfg: Config, db: Tables, sheets: Sheets, i: nat)
    requires Run(cfg, db, sheets).error.None? && i < |sheets.cities|
    ensures var r, line := Run(cfg, db, sheets), sheets.cities[i];
            var found := FindCity(r.db.cities, line.name, Cell(line.region));
            && found.Some?
            && (OwnsItsKey(sheets.cities, line.name, line.region) ==> found.value in r.cityIds.Values)
            && (CityIdsOk(db) ==>
                  (found.value in r.cityIds.Values <==> OwnsItsKey(sheets.cities, line.name, line.region)))
  {
    var s, line := BeforeListings(cfg, db, sheets), sheets.cities[i];
    RunKeepsPlacement(cfg, db, sheets);
    SeedListingsLeaves(cfg, s, sheets.listings);
    FindCityByHead(s.db.cities, Run(cfg, db, sheets).db.cities, line.name, Cell(line.region));
    JudgedIff(s.db.cities, sheets.cities, line.name, line.region);
    if CityIdsOk(db) {
      BeforeListingsKeepsIds(cfg, db, sheets);
    }
  }

  lemma {:induction false} EveryLineHasItsKey(lines: seq<CityLine>, i: nat)
    requires i < |lines|
    ensures LastWithKey(lines, CityKey(lines[i].name, Cell(lines[i].region))).Some?
  {
    if i < |lines| - 1 {
      EveryLineHasItsKey(lines[..|lines| - 1], i);
    }
  }

  /** With no '|' in a city name, every city of the sheet is judged. */
  lemma EverySheetCityIsJudged(cfg: Config, db: Tables, sheets: Sheets, i: nat)
    requires Run(cfg, db, sheets).error.None? && i < |sheets.cities|
    requires forall c | 0 <= c < |sheets.cities| :: NoBar(sheets.cities[c].name)
    ensures var r, line := Run(cfg, db, sheets), sheets.cities[i];
            var found := FindCity(r.db.cities, line.name, Cell(line.region));
            found.Some? && found.value in r.cityIds.Values
  {
    EveryLineHasItsKey(sheets.cities, i);
    NoBarOwnsItsKey(sheets.cities, sheets.cities[i].name, sheets.cities[i].region);
    SheetCityIsJudgedIff(cfg, db, sheets, i);
  }

  // ---- A listing in the wrong city -----------------------------------------------------------------

  lemma CityKeyCollides()
    ensures CityKey("A|B", Cell("")) == CityKey("A", Cell("B|")) == "A|B|"
  {
  }

  function TwoCities(): seq<CityRow> {
    [CityRow(1, "A|B", "a-b", None, "GB", None, 0, false), CityRow(2, "A", "a", Some("B|"), "GB", None, 0, false)]
  }

  /** Both cities, their region, and the category with its route in the second city are already there. */
  function BarTables(): Tables {
    Tables([SlugRow(Root, "venues", Vertical, Some(0)), SlugRow(Areas, "B|", Region, None),
            SlugRow(Of(2), "Halls", Category, Some(3))],
           [VerticalRow(0, "Venues", "venues", "venues")], TwoCities(),
           [CategoryRow(3, 0, "Halls", "halls", "hall", "halls")], [], 4)
  }

  function BarSheets(): Sheets {
    Sheets([CityLine("A|B", "", ""), CityLine("A", "B|", "")], [CategoryLine("Halls", "", "")],
           [ListingLine("Hall", "A|B", "", "Halls")])
  }

  lemma BarSheetsAreFound()
    ensures CitiesFound(TwoCities(), BarSheets().cities)
    ensures CategoriesFound(BarTables().categories, BarSheets().categories)
  {
    assert TwoCities()[1..][0] == TwoCities()[1];
  }

  lemma BarBeforeListings() returns (s: Progress)
    ensures s == BeforeListings(SmallSite(), BarTables(), BarSheets())
    ensures s.error.None? && s.db == BarTables() && s.routed == {}
    ensures CitiesFound(TwoCities(), BarSheets().cities)
    ensures CategoriesFound(BarTables().categories, BarSheets().categories)
    ensures s.cityIds == CityIds(TwoCities(), map[], BarSheets().cities)
    ensures s.categoryIds == CategoryIds(BarTables().categories, map[], BarSheets().categories)
  {
    var cfg, db, sheets := SmallSite(), BarTables(), BarSheets();
    BarSheetsAreFound();
    var s1 := SeedVertical(cfg, Begin(cfg, db));
    SeedCitiesAgain(cfg, s1, sheets.cities);
    var s2 := SeedCities(cfg, s1, sheets.cities);
    assert Taken(db.slugs, Areas, "B|") by { assert db.slugs[1].slug == "B|"; }
    RegisterRegionsAgain(cfg, s2, s2.db.cities);
    SeedCategoriesAgain(cfg, s2, sheets.categories);
    s := SeedCategories(cfg, s2, sheets.categories);
  }

  lemma BarKeyLeadsToA()
    requires CitiesFound(TwoCities(), BarSheets().cities)
    requires CategoriesFound(BarTables().categories, BarSheets().categories)
    ensures !OwnsItsKey(BarSheets().cities, "A|B", "")
    ensures var ids := CityIds(TwoCities(), map[], BarSheets().cities); "A|B|" in ids && ids["A|B|"] == 2
    ensures var ids := CategoryIds(BarTables().categories, map[], BarSheets().categories);
            "Halls" in ids && ids["Halls"] == 3
  {
    var lines := BarSheets().cities;
    CityKeyCollides();
    assert LastWithKey(lines, "A|B|") == Some(lines[1]);
    IdIsOfTheLast(TwoCities(), lines, "A|B|");
    assert TwoCities()[1..][0] == TwoCities()[1];
  }

  lemma BarListingIsInserted(s: Progress)
    requires s.error.None? && s.db == BarTables() && s.routed == {}
    requires "A|B|" in s.cityIds && s.cityIds["A|B|"] == 2 && "Halls" in s.categoryIds && s.categoryIds["Halls"] == 3
    ensures var s' := SeedListing(SmallSite(), s, BarSheets().listings[0]);
            s'.error.None? && |s'.db.listings| == 1 && s'.db.listings[0].city == 2
  {
    var slugs := BarTables().slugs;
    CityKeyCollides();
    assert HasRoute(slugs, 2, 3) by { assert slugs[2].entity == Some(3); }
    assert !Taken(slugs, Of(2), "Hall");
    assert Ladder(Plain(), "Hall", None)[0] == "Hall";
  }

  lemma OneRow(cfg: Config, s: Progress, lines: seq<ListingLine>)
    requires |lines| == 1
    ensures SeedListings(cfg, s, lines[..0]) == s && lines[..1] == lines
    ensures SeedListings(cfg, s, lines) == SeedListing(cfg, s, lines[0])
  {
  }

  lemma BarRowInserts()
    ensures Run(SmallSite(), BarTables(), BarSheets()).error.None?
    ensures Inserted(SmallSite(), BarTables(), BarSheets(), 0, 0)
    ensures var l := Run(SmallSite(), BarTables(), BarSheets()).db.listings; |l| == 1 && l[0].city == 2
  {
    var s := BarBeforeListings();
    BarKeyLeadsToA();
    BarListingIsInserted(s);
    OneRow(SmallSite(), s, BarSheets().listings);
  }

  lemma SecondCityIsA(cities: seq<CityRow>)
    requires SameHeads(TwoCities(), cities)
    ensures InCity(cities, 2, "A", "B|")
  {
    assert IsCity(cities[1], 2, "A", Cell("B|"));
  }

  /** The sheet's one listing row names one city and its listing is in another of the sheet's cities. */
  ghost predicate Astray(cfg: Config, db: Tables, sheets: Sheets, other: CityLine) {
    var r := Run(cfg, db, sheets);
    && CityIdsOk(db) && r.error.None? && |sheets.listings| == 1 && Inserted(cfg, db, sheets, 0, 0)
    && other in sheets.cities && |r.db.listings| == 1
    && !InCity(r.db.cities, r.db.listings[0].city, sheets.listings[0].city, sheets.listings[0].region)
    && InCity(r.db.cities, r.db.listings[0].city, other.name, other.region)
  }

  lemma NotOwnKeyGoesAstray(cfg: Config, db: Tables, sheets: Sheets, other: CityLine)
    requires Run(cfg, db, sheets).error.None? && CityIdsOk(db) && |sheets.listings| == 1
    requires Inserted(cfg, db, sheets, 0, 0) && |Run(cfg, db, sheets).db.listings| == 1
    requires !OwnsItsKey(sheets.cities, sheets.listings[0].city, sheets.listings[0].region) && other in sheets.cities
    requires InCity(Run(cfg, db, sheets).db.cities, Run(cfg, db, sheets).db.listings[0].city, other.name, other.region)
    ensures Astray(cfg, db, sheets, other)
  {
    ListingLandsInItsCityIff(cfg, db, sheets, 0, 0);
  }

  lemma SecondCityStays(cfg: Config, db: Tables, sheets: Sheets)
    requires Run(cfg, db, sheets).error.None? && BeforeListings(cfg, db, sheets).db.cities == TwoCities()
    ensures InCity(Run(cfg, db, sheets).db.cities, 2, "A", "B|")
  {
    RunKeepsPlacement(cfg, db, sheets);
    SecondCityIsA(Run(cfg, db, sheets).db.cities);
  }

  lemma BarCityIdsAreOk()
    ensures CityIdsOk(BarTables())
  {
  }

  /**
   The sheet's two cities are two, and the row names the first; but their joined keys agree, the second line's
   id wins, and the listing is inserted in the other city.
   */
  lemma ABarSendsAListingAstray()
    ensures Astray(SmallSite(), BarTables(), BarSheets(), CityLine("A", "B|", ""))
  {
    var s := BarBeforeListings();
    BarKeyLeadsToA();
    BarRowInserts();
    BarCityIdsAreOk();
    SecondCityStays(SmallSite(), BarTables(), BarSheets());
    assert BarSheets().cities[1] == CityLine("A", "B|", "");
    NotOwnKeyGoesAstray(SmallSite(), BarTables(), BarSheets(), CityLine("A", "B|", ""));
  }
}
