/** Running the seed again: what a completed run leaves makes every step of the next one a skip. */
module SeedIdempotence {
  import opened SlugRegistry
  import opened Wrappers
  import opened Seed

  ghost predicate Grows(a: Tables, b: Tables) {
    && a.slugs <= b.slugs && a.verticals <= b.verticals && a.cities <= b.cities
    && a.categories <= b.categories && a.listings <= b.listings && a.nextId <= b.nextId
  }

  lemma GrowsOn(a: Tables, b: Tables, c: Tables)
    requires Grows(a, b) && Grows(b, c)
    ensures Grows(a, c)
  {
  }

  // ---- Lookups survive growth --------------------------------------------------------------------

  lemma {:induction false} FindCityGrows(a: seq<CityRow>, b: seq<CityRow>, name: string, region: Option<string>)
    requires a <= b && FindCity(a, name, region).Some?
    ensures FindCity(b, name, region) == FindCity(a, name, region)
  {
    if !(a[0].name == name && a[0].region == region) {
      FindCityGrows(a[1..], b[1..], name, region);
    }
  }

  lemma {:induction false} FindCityAppend(a: seq<CityRow>, row: CityRow)
    requires FindCity(a, row.name, row.region).None?
    ensures FindCity(a + [row], row.name, row.region) == Some(row.id)
  {
    if a != [] {
      FindCityAppend(a[1..], row);
      assert (a + [row])[1..] == a[1..] + [row];
    }
  }

  /** Derived columns do not matter to the lookup. */
  lemma {:induction false} FindCityByHead(a: seq<CityRow>, b: seq<CityRow>, name: string, region: Option<string>)
    requires SameHeads(a, b)
    ensures FindCity(a, name, region) == FindCity(b, name, region)
  {
    if a != [] {
      FindCityByHead(a[1..], b[1..], name, region);
    }
  }

  ghost predicate SameHeads(a: seq<CityRow>, b: seq<CityRow>) {
    && |a| == |b|
    && forall i | 0 <= i < |a| ::
         a[i].id == b[i].id && a[i].name == b[i].name && a[i].region == b[i].region
         && a[i].slug == b[i].slug && a[i].country == b[i].country
  }

  lemma {:induction false} FindCategoryGrows(a: seq<CategoryRow>, b: seq<CategoryRow>, name: string)
    requires a <= b && FindCategory(a, name).Some?
    ensures FindCategory(b, name) == FindCategory(a, name)
  {
    if a[0].name != name {
      FindCategoryGrows(a[1..], b[1..], name);
    }
  }

  lemma {:induction false} FindCategoryAppend(a: seq<CategoryRow>, row: CategoryRow)
    requires FindCategory(a, row.name).None?
    ensures FindCategory(a + [row], row.name) == Some(row.id)
  {
    if a != [] {
      FindCategoryAppend(a[1..], row);
      assert (a + [row])[1..] == a[1..] + [row];
    }
  }

  lemma TakenGrows(a: seq<SlugRow>, b: seq<SlugRow>, scope: Scope, slug: string)
    requires a <= b && Taken(a, scope, slug)
    ensures Taken(b, scope, slug)
  {
    var i :| 0 <= i < |a| && a[i].scope == scope && a[i].slug == slug;
    assert b[i] == a[i];
  }

  lemma HasListingGrows(a: seq<ListingRow>, b: seq<ListingRow>, city: Id, name: string)
    requires a <= b && HasListing(a, city, name)
    ensures HasListing(b, city, name)
  {
    var i :| 0 <= i < |a| && a[i].city == city && a[i].name == name;
    assert b[i] == a[i];
  }

  // ---- Reserved slugs ------------------------------------------------------------------------------

  lemma {:induction false} ReserveTakesAll(slugs: seq<SlugRow>, reserved: seq<string>)
    ensures slugs <= ReserveAll(slugs, reserved)
    ensures forall i | 0 <= i < |reserved| :: Taken(ReserveAll(slugs, reserved), Root, reserved[i])
    ensures UniqueSlugs(slugs) ==> UniqueSlugs(ReserveAll(slugs, reserved))
  {
    if reserved != [] {
      var front := reserved[..|reserved| - 1];
      var before := ReserveAll(slugs, front);
      ReserveTakesAll(slugs, front);
      var row := SlugRow(Root, reserved[|reserved| - 1], Static, None);
      if UniqueSlugs(before) {
        ClaimKeepsUnique(before, row);
      }
      var after := Claim(before, row);
      assert before != after ==> after[|before|] == row;
      forall i | 0 <= i < |front| ensures Taken(after, Root, reserved[i]) {
        assert reserved[i] == front[i];
        TakenGrows(before, after, Root, front[i]);
      }
    }
  }

  lemma {:induction false} ReserveAgain(slugs: seq<SlugRow>, reserved: seq<string>)
    requires forall i | 0 <= i < |reserved| :: Taken(slugs, Root, reserved[i])
    ensures ReserveAll(slugs, reserved) == slugs
  {
    if reserved != [] {
      ReserveAgain(slugs, reserved[..|reserved| - 1]);
    }
  }

  // ---- Cities --------------------------------------------------------------------------------------

  /** The id each sheet row's key ends up with, given the finished cities table. */
  function CityIds(cities: seq<CityRow>, ids: map<string, Id>, lines: seq<CityLine>): map<string, Id>
    requires CitiesFound(cities, lines)
  {
    if lines == [] then ids
    else
      var line := lines[|lines| - 1];
      CityIds(cities, ids, lines[..|lines| - 1])
        [CityKey(line.name, Cell(line.region)) := FindCity(cities, line.name, Cell(line.region)).value]
  }

  lemma SeedCityStep(cfg: Config, s: Progress, line: CityLine)
    requires SeedCity(cfg, s, line).error.None?
    ensures var s' := SeedCity(cfg, s, line);
            && s.error.None? && Grows(s.db, s'.db)
            && FindCity(s'.db.cities, line.name, Cell(line.region)).Some?
            && s'.cityIds == s.cityIds[CityKey(line.name, Cell(line.region)) :=
                 FindCity(s'.db.cities, line.name, Cell(line.region)).value]
            && s'.db.categories == s.db.categories && s'.db.listings == s.db.listings
            && s'.categoryIds == s.categoryIds && s'.vertical == s.vertical && s'.routed == s.routed
  {
    var s' := SeedCity(cfg, s, line);
    if FindCity(s.db.cities, line.name, Cell(line.region)).None? {
      FindCityAppend(s.db.cities, s'.db.cities[|s.db.cities|]);
      assert s'.db.cities == s.db.cities + [s'.db.cities[|s.db.cities|]];
    }
  }

  lemma {:induction false} SeedCitiesGrow(cfg: Config, s: Progress, lines: seq<CityLine>)
    requires SeedCities(cfg, s, lines).error.None?
    ensures var s' := SeedCities(cfg, s, lines);
            && s.error.None? && Grows(s.db, s'.db)
            && s'.db.categories == s.db.categories && s'.db.listings == s.db.listings
            && s'.categoryIds == s.categoryIds && s'.vertical == s.vertical && s'.routed == s.routed
  {
    if lines != [] {
      var front, line := lines[..|lines| - 1], lines[|lines| - 1];
      var mid := SeedCities(cfg, s, front);
      SeedCityStep(cfg, mid, line);
      SeedCitiesGrow(cfg, s, front);
      GrowsOn(s.db, mid.db, SeedCity(cfg, mid, line).db);
    }
  }

  ghost predicate CitiesFound(cities: seq<CityRow>, lines: seq<CityLine>) {
    forall i | 0 <= i < |lines| :: FindCity(cities, lines[i].name, Cell(lines[i].region)).Some?
  }

  lemma {:induction false} SeedCitiesFind(cfg: Config, s: Progress, lines: seq<CityLine>, finished: seq<CityRow>)
    requires var s' := SeedCities(cfg, s, lines); s'.error.None? && s'.db.cities <= finished
    ensures CitiesFound(finished, lines)
    ensures SeedCities(cfg, s, lines).cityIds == CityIds(finished, s.cityIds, lines)
  {
    if lines != [] {
      var front, line := lines[..|lines| - 1], lines[|lines| - 1];
      var mid := SeedCities(cfg, s, front);
      var cities := SeedCity(cfg, mid, line).db.cities;
      SeedCityStep(cfg, mid, line);
      assert mid.db.cities <= cities <= finished;
      SeedCitiesFind(cfg, s, front, finished);
      FindCityGrows(cities, finished, line.name, Cell(line.region));
      forall i | 0 <= i < |lines| ensures FindCity(finished, lines[i].name, Cell(lines[i].region)).Some? {
        assert i < |front| ==> lines[i] == front[i];
      }
    }
  }

  lemma {:induction false} SeedCitiesAgain(cfg: Config, s: Progress, lines: seq<CityLine>)
    requires s.error.None?
    requires CitiesFound(s.db.cities, lines)
    ensures SeedCities(cfg, s, lines) ==
            s.(cityIds := CityIds(s.db.cities, s.cityIds, lines),
               report := s.report.(skipped := s.report.skipped + |lines|))
  {
    if lines != [] {
      var front := lines[..|lines| - 1];
      assert forall i | 0 <= i < |front| :: front[i] == lines[i];
      SeedCitiesAgain(cfg, s, front);
    }
  }

  lemma {:induction false} CityIdsByHead(a: seq<CityRow>, b: seq<CityRow>, ids: map<string, Id>, lines: seq<CityLine>)
    requires SameHeads(a, b)
    requires CitiesFound(a, lines)
    ensures CitiesFound(b, lines)
    ensures CityIds(a, ids, lines) == CityIds(b, ids, lines)
  {
    forall i | 0 <= i < |lines| ensures FindCity(b, lines[i].name, Cell(lines[i].region)).Some? {
      FindCityByHead(a, b, lines[i].name, Cell(lines[i].region));
    }
    if lines != [] {
      var front, line := lines[..|lines| - 1], lines[|lines| - 1];
      assert forall i | 0 <= i < |front| :: front[i] == lines[i];
      CityIdsByHead(a, b, ids, front);
      FindCityByHead(a, b, line.name, Cell(line.region));
    }
  }

  // ---- Regions -------------------------------------------------------------------------------------

  ghost predicate RegionSettled(cfg: Config, slugs: seq<SlugRow>, city: CityRow) {
    city.region.Some? ==>
      var slug := cfg.words.slugify(city.region.value);
      slug != "" && cfg.words.lower(slug) !in cfg.words.reserved && Taken(slugs, Areas, slug)
  }

  lemma {:induction false} RegisterRegionsLeaves(cfg: Config, s: Progress, cities: seq<CityRow>)
    requires RegisterRegions(cfg, s, cities).error.None?
    ensures var s' := RegisterRegions(cfg, s, cities);
            && s.error.None? && Grows(s.db, s'.db) && s' == s.(db := s.db.(slugs := s'.db.slugs))
            && forall i | 0 <= i < |cities| :: RegionSettled(cfg, s'.db.slugs, cities[i])
  {
    if cities != [] {
      var front, city := cities[..|cities| - 1], cities[|cities| - 1];
      RegisterRegionsLeaves(cfg, s, front);
      var mid, s' := RegisterRegions(cfg, s, front), RegisterRegions(cfg, s, cities);
      if city.region.Some? {
        var row := SlugRow(Areas, cfg.words.slugify(city.region.value), Region, None);
        assert s'.db.slugs != mid.db.slugs ==> s'.db.slugs[|mid.db.slugs|] == row;
      }
      forall i | 0 <= i < |front| ensures RegionSettled(cfg, s'.db.slugs, cities[i]) {
        assert cities[i] == front[i];
        if cities[i].region.Some? {
          TakenGrows(mid.db.slugs, s'.db.slugs, Areas, cfg.words.slugify(cities[i].region.value));
        }
      }
    }
  }

  lemma {:induction false} RegisterRegionsAgain(cfg: Config, s: Progress, cities: seq<CityRow>)
    requires s.error.None? && forall i | 0 <= i < |cities| :: RegionSettled(cfg, s.db.slugs, cities[i])
    ensures RegisterRegions(cfg, s, cities) == s
  {
    if cities != [] {
      var front := cities[..|cities| - 1];
      assert forall i | 0 <= i < |front| :: front[i] == cities[i];
      RegisterRegionsAgain(cfg, s, front);
      assert RegionSettled(cfg, s.db.slugs, cities[|cities| - 1]);
    }
  }

  // ---- Categories ----------------------------------------------------------------------------------

  function CategoryIds(categories: seq<CategoryRow>, ids: map<string, Id>, lines: seq<CategoryLine>): map<string, Id>
    requires CategoriesFound(categories, lines)
  {
    if lines == [] then ids
    else
      var line := lines[|lines| - 1];
      CategoryIds(categories, ids, lines[..|lines| - 1])[line.name := FindCategory(categories, line.name).value]
  }

  lemma SeedCategoryStep(cfg: Config, s: Progress, line: CategoryLine)
    requires SeedCategory(cfg, s, line).error.None?
    ensures var s' := SeedCategory(cfg, s, line);
            && s.error.None? && Grows(s.db, s'.db)
            && FindCategory(s'.db.categories, line.name).Some?
            && s'.categoryIds == s.categoryIds[line.name := FindCategory(s'.db.categories, line.name).value]
            && s'.db.cities == s.db.cities && s'.db.listings == s.db.listings
            && s'.cityIds == s.cityIds && s'.routed == s.routed
  {
    var s' := SeedCategory(cfg, s, line);
    if FindCategory(s.db.categories, line.name).None? {
      FindCategoryAppend(s.db.categories, s'.db.categories[|s.db.categories|]);
      assert s'.db.categories == s.db.categories + [s'.db.categories[|s.db.categories|]];
    }
  }

  lemma {:induction false} SeedCategoriesGrow(cfg: Config, s: Progress, lines: seq<CategoryLine>)
    requires SeedCategories(cfg, s, lines).error.None?
    ensures var s' := SeedCategories(cfg, s, lines);
            && s.error.None? && Grows(s.db, s'.db)
            && s'.db.cities == s.db.cities && s'.db.listings == s.db.listings
            && s'.cityIds == s.cityIds && s'.routed == s.routed
  {
    if lines != [] {
      var front, line := lines[..|lines| - 1], lines[|lines| - 1];
      var mid := SeedCategories(cfg, s, front);
      SeedCategoryStep(cfg, mid, line);
      SeedCategoriesGrow(cfg, s, front);
      GrowsOn(s.db, mid.db, SeedCategory(cfg, mid, line).db);
    }
  }

  ghost predicate CategoriesFound(categories: seq<CategoryRow>, lines: seq<CategoryLine>) {
    forall i | 0 <= i < |lines| :: FindCategory(categories, lines[i].name).Some?
  }

  lemma {:induction false} SeedCategoriesFind(cfg: Config, s: Progress, lines: seq<CategoryLine>,
                                              finished: seq<CategoryRow>)
    requires var s' := SeedCategories(cfg, s, lines); s'.error.None? && s'.db.categories <= finished
    ensures CategoriesFound(finished, lines)
    ensures SeedCategories(cfg, s, lines).categoryIds == CategoryIds(finished, s.categoryIds, lines)
  {
    if lines != [] {
      var front, line := lines[..|lines| - 1], lines[|lines| - 1];
      var mid := SeedCategories(cfg, s, front);
      var categories := SeedCategory(cfg, mid, line).db.categories;
      SeedCategoryStep(cfg, mid, line);
      assert mid.db.categories <= categories <= finished;
      SeedCategoriesFind(cfg, s, front, finished);
      FindCategoryGrows(categories, finished, line.name);
      forall i | 0 <= i < |lines| ensures FindCategory(finished, lines[i].name).Some? {
        assert i < |front| ==> lines[i] == front[i];
      }
    }
  }

  lemma {:induction false} SeedCategoriesAgain(cfg: Config, s: Progress, lines: seq<CategoryLine>)
    requires s.error.None?
    requires CategoriesFound(s.db.categories, lines)
    ensures var s' := SeedCategories(cfg, s, lines);
            s' == s.(categoryIds := CategoryIds(s.db.categories, s.categoryIds, lines), singulars := s'.singulars,
                     report := s.report.(skipped := s.report.skipped + |lines|))
  {
    if lines != [] {
      var front := lines[..|lines| - 1];
      assert forall i | 0 <= i < |front| :: front[i] == lines[i];
      SeedCategoriesAgain(cfg, s, front);
    }
  }

  // ---- Listings ------------------------------------------------------------------------------------

  /** A row the next run skips: it points nowhere, or its listing is already there. */
  ghost predicate ListingSettled(cityIds: map<string, Id>, categoryIds: map<string, Id>, listings: seq<ListingRow>,
                                 line: ListingLine)
  {
    var key := CityKey(line.city, Cell(line.region));
    key in cityIds && line.category in categoryIds ==> HasListing(listings, cityIds[key], line.name)
  }

  lemma SeedListingStep(cfg: Config, s: Progress, line: ListingLine)
    requires SeedListing(cfg, s, line).error.None?
    ensures var s' := SeedListing(cfg, s, line);
            && s.error.None? && Grows(s.db, s'.db)
            && s'.db.cities == s.db.cities && s'.db.categories == s.db.categories
            && s'.cityIds == s.cityIds && s'.categoryIds == s.categoryIds
            && ListingSettled(s.cityIds, s.categoryIds, s'.db.listings, line)
  {
    var s' := SeedListing(cfg, s, line);
    if s'.db.listings != s.db.listings {
      var row := s'.db.listings[|s.db.listings|];
      assert row.city == s.cityIds[CityKey(line.city, Cell(line.region))] && row.name == line.name;
    }
  }

  lemma ListingStaysSettled(s: Progress, a: seq<ListingRow>, b: seq<ListingRow>, line: ListingLine)
    requires a <= b && ListingSettled(s.cityIds, s.categoryIds, a, line)
    ensures ListingSettled(s.cityIds, s.categoryIds, b, line)
  {
    var key := CityKey(line.city, Cell(line.region));
    if key in s.cityIds && line.category in s.categoryIds {
      HasListingGrows(a, b, s.cityIds[key], line.name);
    }
  }

  lemma {:induction false} SeedListingsLeaves(cfg: Config, s: Progress, lines: seq<ListingLine>)
    requires SeedListings(cfg, s, lines).error.None?
    ensures var s' := SeedListings(cfg, s, lines);
            && s.error.None? && Grows(s.db, s'.db)
            && s'.db.cities == s.db.cities && s'.db.categories == s.db.categories
            && s'.cityIds == s.cityIds && s'.categoryIds == s.categoryIds
            && forall i | 0 <= i < |lines| :: ListingSettled(s.cityIds, s.categoryIds, s'.db.listings, lines[i])
  {
    if lines != [] {
      var front, line := lines[..|lines| - 1], lines[|lines| - 1];
      var mid, s' := SeedListings(cfg, s, front), SeedListings(cfg, s, lines);
      SeedListingStep(cfg, mid, line);
      SeedListingsLeaves(cfg, s, front);
      forall i | 0 <= i < |front| ensures ListingSettled(s.cityIds, s.categoryIds, s'.db.listings, lines[i]) {
        ListingStaysSettled(s, mid.db.listings, s'.db.listings, front[i]);
      }
    }
  }

  lemma {:induction false} SeedListingsAgain(cfg: Config, s: Progress, lines: seq<ListingLine>)
    requires s.error.None?
    requires forall i | 0 <= i < |lines| :: ListingSettled(s.cityIds, s.categoryIds, s.db.listings, lines[i])
    ensures SeedListings(cfg, s, lines) == s.(report := s.report.(skipped := s.report.skipped + |lines|))
  {
    if lines != [] {
      var front := lines[..|lines| - 1];
      assert forall i | 0 <= i < |front| :: front[i] == lines[i];
      SeedListingsAgain(cfg, s, front);
      assert ListingSettled(s.cityIds, s.categoryIds, s.db.listings, lines[|lines| - 1]);
    }
  }

  // ---- Derived columns -----------------------------------------------------------------------------

  lemma DerivedKeepsHeads(cfg: Config, db: Tables, ids: set<Id>)
    ensures SameHeads(db.cities, WriteIntroCopy(cfg, db).cities)
    ensures SameHeads(db.cities, Recompute(cfg, db, ids).cities)
  {
  }

  lemma WriteIntroFills(cfg: Config, db: Tables)
    ensures forall i | 0 <= i < |db.cities| :: WriteIntroCopy(cfg, db).cities[i].intro.Some?
  {
  }

  lemma WriteIntroAgain(cfg: Config, db: Tables)
    requires forall i | 0 <= i < |db.cities| :: db.cities[i].intro.Some?
    ensures WriteIntroCopy(cfg, db) == db
  {
    assert WriteIntroCopy(cfg, db).cities == db.cities;
  }

  lemma RecomputeAgain(cfg: Config, db: Tables, ids: set<Id>)
    ensures var db' := Recompute(cfg, db, ids); Recompute(cfg, db', ids) == db'
  {
    var db' := Recompute(cfg, db, ids);
    assert Recompute(cfg, db', ids).cities == db'.cities;
  }

  // ---- A whole run ---------------------------------------------------------------------------------

  ghost predicate ReservedTaken(cfg: Config, slugs: seq<SlugRow>) {
    forall i | 0 <= i < |cfg.words.reserved| :: Taken(slugs, Root, cfg.words.reserved[i])
  }

  ghost predicate RegionsSettled(cfg: Config, slugs: seq<SlugRow>, cities: seq<CityRow>) {
    forall i | 0 <= i < |cities| :: RegionSettled(cfg, slugs, cities[i])
  }

  ghost predicate ListingsSettled(cityIds: map<string, Id>, categoryIds: map<string, Id>, listings: seq<ListingRow>,
                                  lines: seq<ListingLine>) {
    forall i | 0 <= i < |lines| :: ListingSettled(cityIds, categoryIds, listings, lines[i])
  }

  ghost predicate AllHaveCopy(cities: seq<CityRow>) {
    forall i | 0 <= i < |cities| :: cities[i].intro.Some?
  }

  /** Tables in which every row of the sheets is already accounted for. */
  ghost predicate Settled(cfg: Config, db: Tables, sheets: Sheets) {
    && ReservedTaken(cfg, db.slugs) && RegionsSettled(cfg, db.slugs, db.cities)
    && CitiesFound(db.cities, sheets.cities) && CategoriesFound(db.categories, sheets.categories)
    && (var cityIds := CityIds(db.cities, map[], sheets.cities);
        && ListingsSettled(cityIds, CategoryIds(db.categories, map[], sheets.categories), db.listings, sheets.listings)
        && Recompute(cfg, db, cityIds.Values) == db)
    && AllHaveCopy(db.cities)
  }

  lemma SeedVerticalStep(cfg: Config, s: Progress)
    requires s.error.None?
    ensures var s' := SeedVertical(cfg, s);
            && Grows(s.db, s'.db) && s' == s.(db := s'.db, vertical := s'.vertical, error := s'.error)
            && s'.db.cities == s.db.cities && s'.db.categories == s.db.categories && s'.db.listings == s.db.listings
            && (if KnownVertical(cfg, s.db).Some? then s'.db == s.db && s'.error.None?
                else s'.error.Some? || s'.db.nextId == s.db.nextId + 1)
  {
  }

  function BeforeListings(cfg: Config, db: Tables, sheets: Sheets): Progress {
    var s := SeedCities(cfg, SeedVertical(cfg, Begin(cfg, db)), sheets.cities);
    SeedCategories(cfg, RegisterRegions(cfg, s, s.db.cities), sheets.categories)
  }

  /** What a run has in place once its maps are complete. */
  ghost predicate Prepared(cfg: Config, s: Progress, sheets: Sheets) {
    && CitiesFound(s.db.cities, sheets.cities) && CategoriesFound(s.db.categories, sheets.categories)
    && s.cityIds == CityIds(s.db.cities, map[], sheets.cities)
    && s.categoryIds == CategoryIds(s.db.categories, map[], sheets.categories)
  }

  /** The run as far as the listings: it grew, its maps are complete, and it inserted no listing. */
  lemma BeforeListingsLeaves(cfg: Config, db: Tables, sheets: Sheets)
    requires BeforeListings(cfg, db, sheets).error.None?
    ensures var s := BeforeListings(cfg, db, sheets);
            && SeedVertical(cfg, Begin(cfg, db)).error.None?
            && Grows(SeedVertical(cfg, Begin(cfg, db)).db, s.db)
            && s.db.listings == db.listings && s.routed == {} && Prepared(cfg, s, sheets)
  {
    var s0 := Begin(cfg, db);
    var s1 := SeedVertical(cfg, s0);
    var s2 := SeedCities(cfg, s1, sheets.cities);
    var s3 := RegisterRegions(cfg, s2, s2.db.cities);
    var s := SeedCategories(cfg, s3, sheets.categories);
    SeedCategoriesGrow(cfg, s3, sheets.categories);
    SeedCategoriesFind(cfg, s3, sheets.categories, s.db.categories);
    RegisterRegionsLeaves(cfg, s2, s2.db.cities);
    SeedCitiesGrow(cfg, s1, sheets.cities);
    SeedCitiesFind(cfg, s1, sheets.cities, s.db.cities);
    SeedVerticalStep(cfg, s0);
    GrowsOn(s1.db, s2.db, s3.db);
    GrowsOn(s1.db, s3.db, s.db);
  }

  lemma BeforeListingsSettlesSlugs(cfg: Config, db: Tables, sheets: Sheets)
    requires BeforeListings(cfg, db, sheets).error.None?
    ensures var s := BeforeListings(cfg, db, sheets);
            ReservedTaken(cfg, s.db.slugs) && RegionsSettled(cfg, s.db.slugs, s.db.cities)
  {
    var s0 := Begin(cfg, db);
    var s1 := SeedVertical(cfg, s0);
    var s2 := SeedCities(cfg, s1, sheets.cities);
    var s3 := RegisterRegions(cfg, s2, s2.db.cities);
    var s := SeedCategories(cfg, s3, sheets.categories);
    SeedCategoriesGrow(cfg, s3, sheets.categories);
    RegisterRegionsLeaves(cfg, s2, s2.db.cities);
    SeedCitiesGrow(cfg, s1, sheets.cities);
    SeedVerticalStep(cfg, s0);
    ReserveTakesAll(db.slugs, cfg.words.reserved);
    ReservedStayTaken(cfg, s0.db.slugs, s.db.slugs);
    RegionsStaySettled(cfg, s3.db.slugs, s.db.slugs, s2.db.cities);
  }

  lemma ReservedStayTaken(cfg: Config, a: seq<SlugRow>, b: seq<SlugRow>)
    requires a <= b && ReservedTaken(cfg, a)
    ensures ReservedTaken(cfg, b)
  {
    forall i | 0 <= i < |cfg.words.reserved| ensures Taken(b, Root, cfg.words.reserved[i]) {
      TakenGrows(a, b, Root, cfg.words.reserved[i]);
    }
  }

  lemma RegionsStaySettled(cfg: Config, a: seq<SlugRow>, b: seq<SlugRow>, cities: seq<CityRow>)
    requires a <= b && RegionsSettled(cfg, a, cities)
    ensures RegionsSettled(cfg, b, cities)
  {
    forall i | 0 <= i < |cities| ensures RegionSettled(cfg, b, cities[i]) {
      if cities[i].region.Some? {
        TakenGrows(a, b, Areas, cfg.words.slugify(cities[i].region.value));
      }
    }
  }

  lemma InsertionsLeave(cfg: Config, db: Tables, sheets: Sheets)
    requires Insertions(cfg, db, sheets).error.None?
    ensures BeforeListings(cfg, db, sheets).error.None?
    ensures var s := Insertions(cfg, db, sheets);
            && Grows(SeedVertical(cfg, Begin(cfg, db)).db, s.db) && Prepared(cfg, s, sheets)
            && ReservedTaken(cfg, s.db.slugs) && RegionsSettled(cfg, s.db.slugs, s.db.cities)
            && ListingsSettled(s.cityIds, s.categoryIds, s.db.listings, sheets.listings)
  {
    var s4 := BeforeListings(cfg, db, sheets);
    var s := SeedListings(cfg, s4, sheets.listings);
    SeedListingsLeaves(cfg, s4, sheets.listings);
    BeforeListingsLeaves(cfg, db, sheets);
    BeforeListingsSettlesSlugs(cfg, db, sheets);
    GrowsOn(SeedVertical(cfg, Begin(cfg, db)).db, s4.db, s.db);
    ReservedStayTaken(cfg, s4.db.slugs, s.db.slugs);
    RegionsStaySettled(cfg, s4.db.slugs, s.db.slugs, s.db.cities);
  }

  /** Nothing a settled store is judged by looks at a city's derived columns. */
  lemma SettledByHead(cfg: Config, slugs: seq<SlugRow>, a: seq<CityRow>, b: seq<CityRow>, lines: seq<CityLine>)
    requires SameHeads(a, b) && RegionsSettled(cfg, slugs, a) && CitiesFound(a, lines)
    ensures RegionsSettled(cfg, slugs, b) && CitiesFound(b, lines)
    ensures CityIds(a, map[], lines) == CityIds(b, map[], lines)
  {
    CityIdsByHead(a, b, map[], lines);
    forall i | 0 <= i < |b| ensures RegionSettled(cfg, slugs, b[i]) {
      assert RegionSettled(cfg, slugs, a[i]) && a[i].region == b[i].region;
    }
  }

  lemma DerivedKeepsAllHeads(cfg: Config, s: Progress)
    ensures SameHeads(s.db.cities, Derive(cfg, s).db.cities)
    ensures s.error.None? ==> AllHaveCopy(Derive(cfg, s).db.cities)
  {
    var filled := WriteIntroCopy(cfg, s.db);
    DerivedKeepsHeads(cfg, s.db, {});
    DerivedKeepsHeads(cfg, filled, s.cityIds.Values);
    WriteIntroFills(cfg, s.db);
  }

  /** Derived columns leave a prepared store settled. */
  lemma DerivedIsSettled(cfg: Config, s: Progress, sheets: Sheets)
    requires s.error.None? && Prepared(cfg, s, sheets)
    requires ReservedTaken(cfg, s.db.slugs) && RegionsSettled(cfg, s.db.slugs, s.db.cities)
    requires ListingsSettled(s.cityIds, s.categoryIds, s.db.listings, sheets.listings)
    ensures Settled(cfg, Derive(cfg, s).db, sheets)
  {
    var final := Derive(cfg, s).db;
    DerivedKeepsAllHeads(cfg, s);
    SettledByHead(cfg, s.db.slugs, s.db.cities, final.cities, sheets.cities);
    RecomputeAgain(cfg, WriteIntroCopy(cfg, s.db), s.cityIds.Values);
    assert final.slugs == s.db.slugs && final.categories == s.db.categories && final.listings == s.db.listings;
  }

  lemma RunLeavesSettled(cfg: Config, db: Tables, sheets: Sheets)
    requires Run(cfg, db, sheets).error.None?
    ensures Settled(cfg, Run(cfg, db, sheets).db, sheets)
  {
    InsertionsLeave(cfg, db, sheets);
    DerivedIsSettled(cfg, Insertions(cfg, db, sheets), sheets);
  }

  lemma SettledInsertions(cfg: Config, db: Tables, sheets: Sheets)
    requires Settled(cfg, db, sheets) && KnownVertical(cfg, db).Some?
    ensures var s := Insertions(cfg, db, sheets);
            && s.error.None? && s.db == db && s.cityIds == CityIds(db.cities, map[], sheets.cities)
            && s.report == Report(0, 0, 0, |sheets.cities| + |sheets.categories| + |sheets.listings|)
  {
    ReserveAgain(db.slugs, cfg.words.reserved);
    var s1 := SeedVertical(cfg, Begin(cfg, db));
    SeedCitiesAgain(cfg, s1, sheets.cities);
    var s2 := SeedCities(cfg, s1, sheets.cities);
    RegisterRegionsAgain(cfg, s2, s2.db.cities);
    SeedCategoriesAgain(cfg, s2, sheets.categories);
    SeedListingsAgain(cfg, SeedCategories(cfg, s2, sheets.categories), sheets.listings);
  }

  /** A plural that does not resolve costs the run an id, for the vertical it creates. */
  lemma UnknownVerticalTakesAnId(cfg: Config, db: Tables, sheets: Sheets)
    requires ReservedTaken(cfg, db.slugs) && KnownVertical(cfg, db).None? && Insertions(cfg, db, sheets).error.None?
    ensures Insertions(cfg, db, sheets).db.nextId > db.nextId
  {
    ReserveAgain(db.slugs, cfg.words.reserved);
    SeedVerticalStep(cfg, Begin(cfg, db));
    InsertionsLeave(cfg, db, sheets);
    BeforeListingsLeaves(cfg, db, sheets);
    assert Begin(cfg, db).db == db;
  }

  /**
   Idempotence. After a run that completes, another run on the same sheets completes, creates nothing,
   skips every row and leaves every table exactly as it was -- if and only if the plural now resolves to
   an entity at the root, which is what the script looks up before it creates a vertical.
   */
  lemma SecondRunChangesNothing(cfg: Config, db: Tables, sheets: Sheets)
    requires Run(cfg, db, sheets).error.None?
    ensures var first := Run(cfg, db, sheets).db;
            var second := Run(cfg, first, sheets);
            (second.error.None? && second.db == first) <==> KnownVertical(cfg, first).Some?
    ensures var first := Run(cfg, db, sheets).db;
            var second := Run(cfg, first, sheets);
            KnownVertical(cfg, first).Some? ==>
              second.report == Report(0, 0, 0, |sheets.cities| + |sheets.categories| + |sheets.listings|)
  {
    var first := Run(cfg, db, sheets).db;
    RunLeavesSettled(cfg, db, sheets);
    if KnownVertical(cfg, first).Some? {
      SettledInsertions(cfg, first, sheets);
      WriteIntroAgain(cfg, first);
    } else if Insertions(cfg, first, sheets).error.None? {
      UnknownVerticalTakesAnId(cfg, first, sheets);
    }
  }
}
