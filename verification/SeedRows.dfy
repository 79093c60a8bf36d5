/** What is in the rows a completed run has inserted: each from its own line of a sheet, under its own slug. */
module SeedRows {
  import opened SlugRegistry
  import opened Wrappers
  import opened Seed
  import opened SeedIdempotence
  import opened SeedRouting
  import opened SeedIndexing
  import opened SeedPlacement

  /** An empty cell stands for the default. */
  function Given(cell: string, default: string): string {
    if cell == "" then default else cell
  }

  ghost predicate Owns(slugs: seq<SlugRow>, slug: string, kind: Kind, id: Id) {
    SlugRow(Root, slug, kind, Some(id)) in slugs
  }

  lemma OwnsStill(a: seq<SlugRow>, b: seq<SlugRow>, slug: string, kind: Kind, id: Id)
    requires a <= b && Owns(a, slug, kind, id)
    ensures Owns(b, slug, kind, id)
  {
    var k :| 0 <= k < |a| && a[k] == SlugRow(Root, slug, kind, Some(id));
    assert b[k] == a[k];
  }

  lemma AllocatedIsOnTheLadder(w: Words, rows: seq<SlugRow>, scope: Scope, desired: string,
                               disambiguator: Option<string>)
    ensures var a := Allocate(w, rows, scope, desired, disambiguator);
            a.Allocated? ==> a.slug in Ladder(w, desired, disambiguator)
  {
    FirstFreeIsFirst(rows, scope, Ladder(w, desired, disambiguator));
  }

  // ---- Cities --------------------------------------------------------------------------------------------

  ghost predicate CityOfLine(cfg: Config, row: CityRow, line: CityLine) {
    && row.name == line.name && row.country == Given(line.country, cfg.country)
    && row.region == (if line.region == "" then None else Some(line.region))
    && row.slug in Ladder(cfg.words, row.name, row.region)
  }

  ghost predicate CityFromSheet(cfg: Config, lines: seq<CityLine>, slugs: seq<SlugRow>, row: CityRow) {
    && (exists k :: 0 <= k < |lines| && CityOfLine(cfg, row, lines[k]))
    && Owns(slugs, row.slug, City, row.id)
  }

  ghost predicate NewCities(cfg: Config, lines: seq<CityLine>, a: Tables, b: Tables) {
    && a.cities <= b.cities && a.slugs <= b.slugs
    && forall i | |a.cities| <= i < |b.cities| ::
         && CityFromSheet(cfg, lines, b.slugs, b.cities[i])
         && b.cities[i].listingCount == 0 && !b.cities[i].isIndexable
  }

  /** Nothing else moves while cities are read. */
  ghost predicate OnlyCities(s: Progress, s': Progress) {
    && s'.vertical == s.vertical && s'.singulars == s.singulars && s'.db.verticals == s.db.verticals
    && s'.db.categories == s.db.categories && s'.db.listings == s.db.listings
  }

  lemma OneCity(cfg: Config, s: Progress, line: CityLine)
    ensures var s' := SeedCity(cfg, s, line);
            OnlyCities(s, s') && NewCities(cfg, [line], s.db, s'.db)
  {
    var s', region := SeedCity(cfg, s, line), Cell(line.region);
    AllocatedIsOnTheLadder(cfg.words, s.db.slugs, Root, line.name, region);
    if |s'.db.cities| > |s.db.cities| {
      var row := s'.db.cities[|s.db.cities|];
      assert s'.db.slugs[|s.db.slugs|] == SlugRow(Root, row.slug, City, Some(row.id));
      assert CityOfLine(cfg, row, [line][0]);
    }
  }

  lemma OneMoreLine(cfg: Config, lines: seq<CityLine>, line: CityLine, a: Tables, b: Tables, c: Tables)
    requires NewCities(cfg, lines, a, b) && NewCities(cfg, [line], b, c)
    ensures NewCities(cfg, lines + [line], a, c)
  {
    var all := lines + [line];
    forall i | |a.cities| <= i < |c.cities|
      ensures CityFromSheet(cfg, all, c.slugs, c.cities[i])
      ensures c.cities[i].listingCount == 0 && !c.cities[i].isIndexable
    {
      if i < |b.cities| {
        var k :| 0 <= k < |lines| && CityOfLine(cfg, b.cities[i], lines[k]);
        assert c.cities[i] == b.cities[i] && all[k] == lines[k];
        OwnsStill(b.slugs, c.slugs, c.cities[i].slug, City, c.cities[i].id);
      } else {
        assert CityOfLine(cfg, c.cities[i], all[|lines|]);
      }
    }
  }

  lemma {:induction false} CitiesFromTheSheet(cfg: Config, s: Progress, lines: seq<CityLine>)
    ensures var s' := SeedCities(cfg, s, lines);
            OnlyCities(s, s') && NewCities(cfg, lines, s.db, s'.db)
  {
    if lines != [] {
      var front, last := lines[..|lines| - 1], lines[|lines| - 1];
      var mid := SeedCities(cfg, s, front);
      CitiesFromTheSheet(cfg, s, front);
      OneCity(cfg, mid, last);
      OneMoreLine(cfg, front, last, s.db, mid.db, SeedCities(cfg, s, lines).db);
      assert lines == front + [last];
    }
  }

  // ---- Categories ------------------------------------------------------------------------------------------

  ghost predicate CategoryOfLine(cfg: Config, vertical: Id, row: CategoryRow, line: CategoryLine) {
    && row.name == line.name && row.vertical == vertical
    && row.singular == Given(line.singular, line.name)
    && row.plural == Given(line.plural, cfg.words.lower(line.name))
    && row.slug in Ladder(cfg.words, row.name, None)
  }

  ghost predicate CategoryFromSheet(cfg: Config, vertical: Id, lines: seq<CategoryLine>, slugs: seq<SlugRow>,
                                    row: CategoryRow) {
    && (exists k :: 0 <= k < |lines| && CategoryOfLine(cfg, vertical, row, lines[k]))
    && Owns(slugs, row.slug, Category, row.id)
  }

  ghost predicate NewCategories(cfg: Config, vertical: Id, lines: seq<CategoryLine>, a: Tables, b: Tables) {
    && a.categories <= b.categories && a.slugs <= b.slugs
    && forall i | |a.categories| <= i < |b.categories| ::
         CategoryFromSheet(cfg, vertical, lines, b.slugs, b.categories[i])
  }

  ghost predicate OnlyCategories(s: Progress, s': Progress) {
    && s'.vertical == s.vertical && s'.db.verticals == s.db.verticals
    && s'.db.cities == s.db.cities && s'.db.listings == s.db.listings
  }

  /** The last line of a category gives the noun for it. */
  ghost predicate Noun(lines: seq<CategoryLine>, name: string, singular: string) {
    exists j :: 0 <= j < |lines| && NounAt(lines, j, name, singular)
  }

  ghost predicate NounAt(lines: seq<CategoryLine>, j: nat, name: string, singular: string) {
    && j < |lines| && lines[j].name == name && singular == Given(lines[j].singular, name)
    && forall k | j < k < |lines| :: lines[k].name != name
  }

  ghost predicate NounsFrom(lines: seq<CategoryLine>, singulars: map<string, string>) {
    && (forall name | name in singulars :: Noun(lines, name, singulars[name]))
    && forall k | 0 <= k < |lines| :: lines[k].name in singulars
  }

  lemma OneCategory(cfg: Config, s: Progress, line: CategoryLine)
    ensures var s' := SeedCategory(cfg, s, line);
            && OnlyCategories(s, s') && NewCategories(cfg, s.vertical, [line], s.db, s'.db)
            && (s.error.None? ==> s'.singulars == s.singulars[line.name := Given(line.singular, line.name)])
  {
    var s' := SeedCategory(cfg, s, line);
    AllocatedIsOnTheLadder(cfg.words, s.db.slugs, Root, line.name, None);
    if |s'.db.categories| > |s.db.categories| {
      var row := s'.db.categories[|s.db.categories|];
      assert s'.db.slugs[|s.db.slugs|] == SlugRow(Root, row.slug, Category, Some(row.id));
      assert CategoryOfLine(cfg, s.vertical, row, [line][0]);
    }
  }

  lemma OneMoreCategoryLine(cfg: Config, vertical: Id, lines: seq<CategoryLine>, line: CategoryLine, a: Tables,
                            b: Tables, c: Tables)
    requires NewCategories(cfg, vertical, lines, a, b) && NewCategories(cfg, vertical, [line], b, c)
    ensures NewCategories(cfg, vertical, lines + [line], a, c)
  {
    var all := lines + [line];
    forall i | |a.categories| <= i < |c.categories|
      ensures CategoryFromSheet(cfg, vertical, all, c.slugs, c.categories[i])
    {
      if i < |b.categories| {
        var k :| 0 <= k < |lines| && CategoryOfLine(cfg, vertical, b.categories[i], lines[k]);
        assert c.categories[i] == b.categories[i] && all[k] == lines[k];
        OwnsStill(b.slugs, c.slugs, c.categories[i].slug, Category, c.categories[i].id);
      } else {
        assert CategoryOfLine(cfg, vertical, c.categories[i], all[|lines|]);
      }
    }
  }

  lemma OneMoreNoun(lines: seq<CategoryLine>, line: CategoryLine, singulars: map<string, string>)
    requires NounsFrom(lines, singulars)
    ensures NounsFrom(lines + [line], singulars[line.name := Given(line.singular, line.name)])
  {
    var all, after := lines + [line], singulars[line.name := Given(line.singular, line.name)];
    forall name | name in after ensures Noun(all, name, after[name]) {
      if name == line.name {
        assert NounAt(all, |lines|, name, after[name]);
      } else {
        var j :| 0 <= j < |lines| && NounAt(lines, j, name, singulars[name]);
        assert NounAt(all, j, name, after[name]);
      }
    }
  }

  lemma {:induction false} CategoriesFromTheSheet(cfg: Config, s: Progress, lines: seq<CategoryLine>)
    requires s.singulars == map[]
    ensures var s' := SeedCategories(cfg, s, lines);
            && OnlyCategories(s, s') && NewCategories(cfg, s.vertical, lines, s.db, s'.db)
            && (s'.error.None? ==> NounsFrom(lines, s'.singulars))
  {
    if lines != [] {
      var front, last := lines[..|lines| - 1], lines[|lines| - 1];
      var mid := SeedCategories(cfg, s, front);
      CategoriesFromTheSheet(cfg, s, front);
      OneCategory(cfg, mid, last);
      OneMoreCategoryLine(cfg, s.vertical, front, last, s.db, mid.db, SeedCategories(cfg, s, lines).db);
      assert lines == front + [last];
      if mid.error.None? {
        OneMoreNoun(front, last, mid.singulars);
      }
    }
  }

  // ---- The rest of the run -----------------------------------------------------------------------------------

  lemma {:induction false} RegionsTouchOnlySlugs(cfg: Config, s: Progress, cities: seq<CityRow>)
    ensures var s' := RegisterRegions(cfg, s, cities);
            && s' == s.(db := s.db.(slugs := s'.db.slugs), error := s'.error) && s.db.slugs <= s'.db.slugs
  {
    if cities != [] {
      RegionsTouchOnlySlugs(cfg, s, cities[..|cities| - 1]);
    }
  }

  ghost predicate OnlyListings(s: Progress, s': Progress) {
    && s'.vertical == s.vertical && s'.singulars == s.singulars && s'.db.verticals == s.db.verticals
    && s'.db.cities == s.db.cities && s'.db.categories == s.db.categories && s.db.slugs <= s'.db.slugs
  }

  lemma RouteTouchesOnlySlugs(cfg: Config, s: Progress, city: Id, category: Id, name: string)
    ensures var s' := RouteCategory(cfg, s, city, category, name);
            OnlyListings(s, s') && s'.db.listings == s.db.listings
  {
  }

  lemma InsertTouchesOnlyListings(cfg: Config, s: Progress, city: Id, category: Id, line: ListingLine)
    ensures OnlyListings(s, InsertListing(cfg, s, city, category, line))
  {
  }

  lemma OneListingTouchesOnlyTheirs(cfg: Config, s: Progress, line: ListingLine)
    ensures OnlyListings(s, SeedListing(cfg, s, line))
  {
    var key := CityKey(line.city, Cell(line.region));
    if s.error.None? && key in s.cityIds && line.category in s.categoryIds {
      var city, category := s.cityIds[key], s.categoryIds[line.category];
      RouteTouchesOnlySlugs(cfg, s, city, category, line.category);
      InsertTouchesOnlyListings(cfg, RouteCategory(cfg, s, city, category, line.category), city, category, line);
    }
  }

  lemma {:induction false} ListingsTouchOnlyTheirs(cfg: Config, s: Progress, lines: seq<ListingLine>)
    ensures OnlyListings(s, SeedListings(cfg, s, lines))
  {
    if lines != [] {
      var mid := SeedListings(cfg, s, lines[..|lines| - 1]);
      ListingsTouchOnlyTheirs(cfg, s, lines[..|lines| - 1]);
      OneListingTouchesOnlyTheirs(cfg, mid, lines[|lines| - 1]);
    }
  }

  /** The vertical a run works under: the one the plural resolves to, or one made now from the site's own words. */
  ghost predicate VerticalOf(cfg: Config, db: Tables, r: Progress) {
    || (r.db.verticals == db.verticals
        && exists kind :: SlugRow(Root, cfg.words.lower(cfg.plural), kind, Some(r.vertical)) in r.db.slugs)
    || (exists slug :: slug in Ladder(cfg.words, cfg.Plural, None) && Owns(r.db.slugs, slug, Vertical, r.vertical)
          && r.db.verticals == db.verticals + [VerticalRow(r.vertical, cfg.Plural, slug, cfg.plural)])
  }

  lemma ResolvedRow(slugs: seq<SlugRow>, slug: string)
    requires Resolve(slugs, Root, slug).Some?
    ensures Resolve(slugs, Root, slug).value in slugs
    ensures Resolve(slugs, Root, slug).value.scope == Root && Resolve(slugs, Root, slug).value.slug == slug
  {
    ResolveIsFirst(slugs, Root, slug);
  }

  lemma TheVertical(cfg: Config, db: Tables)
    requires SeedVertical(cfg, Begin(cfg, db)).error.None?
    ensures var s := SeedVertical(cfg, Begin(cfg, db));
            VerticalOf(cfg, db, s) && s.singulars == map[] && s.db == s.db.(cities := db.cities,
              categories := db.categories, listings := db.listings)
  {
    var s0 := Begin(cfg, db);
    var s := SeedVertical(cfg, s0);
    AllocatedIsOnTheLadder(cfg.words, s0.db.slugs, Root, cfg.Plural, None);
    if KnownVertical(cfg, s0.db).Some? {
      ResolvedRow(s0.db.slugs, cfg.words.lower(cfg.plural));
      var row := Resolve(s0.db.slugs, Root, cfg.words.lower(cfg.plural)).value;
      assert SlugRow(Root, cfg.words.lower(cfg.plural), row.kind, Some(s.vertical)) == row;
    } else {
      var slug := Allocate(cfg.words, s0.db.slugs, Root, cfg.Plural, None).slug;
      assert s.db.slugs[|s0.db.slugs|] == SlugRow(Root, slug, Vertical, Some(s.vertical));
    }
  }

  lemma VerticalStays(cfg: Config, db: Tables, s: Progress, r: Progress)
    requires VerticalOf(cfg, db, s) && s.db.slugs <= r.db.slugs
    requires r.vertical == s.vertical && r.db.verticals == s.db.verticals
    ensures VerticalOf(cfg, db, r)
  {
    assert forall row :: row in s.db.slugs ==> row in r.db.slugs;
    if exists slug :: slug in Ladder(cfg.words, cfg.Plural, None) && Owns(s.db.slugs, slug, Vertical, s.vertical)
                      && s.db.verticals == db.verticals + [VerticalRow(s.vertical, cfg.Plural, slug, cfg.plural)] {
      var slug :| slug in Ladder(cfg.words, cfg.Plural, None) && Owns(s.db.slugs, slug, Vertical, s.vertical)
                  && s.db.verticals == db.verticals + [VerticalRow(s.vertical, cfg.Plural, slug, cfg.plural)];
      assert Owns(r.db.slugs, slug, Vertical, r.vertical);
    }
  }

  // ---- A whole run ---------------------------------------------------------------------------------------------

  /** All that is inserted before the derived columns. */
  ghost predicate RowsFromSheets(cfg: Config, db: Tables, sheets: Sheets, s: Progress) {
    && VerticalOf(cfg, db, s)
    && NewCities(cfg, sheets.cities, db, s.db) && NewCategories(cfg, s.vertical, sheets.categories, db, s.db)
    && NounsFrom(sheets.categories, s.singulars)
  }

  lemma NewCitiesStay(cfg: Config, lines: seq<CityLine>, a: Tables, b: Tables, a': Tables, b': Tables)
    requires NewCities(cfg, lines, a, b) && a'.cities == a.cities && b'.cities == b.cities
    requires a'.slugs <= b'.slugs && b.slugs <= b'.slugs
    ensures NewCities(cfg, lines, a', b')
  {
    forall i | |a.cities| <= i < |b.cities| ensures CityFromSheet(cfg, lines, b'.slugs, b.cities[i]) {
      OwnsStill(b.slugs, b'.slugs, b.cities[i].slug, City, b.cities[i].id);
    }
  }

  lemma NewCategoriesStay(cfg: Config, vertical: Id, lines: seq<CategoryLine>, a: Tables, b: Tables, a': Tables,
                          b': Tables)
    requires NewCategories(cfg, vertical, lines, a, b) && a'.categories == a.categories
    requires b'.categories == b.categories && a'.slugs <= b'.slugs && b.slugs <= b'.slugs
    ensures NewCategories(cfg, vertical, lines, a', b')
  {
    forall i | |a.categories| <= i < |b.categories|
      ensures CategoryFromSheet(cfg, vertical, lines, b'.slugs, b.categories[i])
    {
      OwnsStill(b.slugs, b'.slugs, b.categories[i].slug, Category, b.categories[i].id);
    }
  }

  lemma BeforeListingsFromSheets(cfg: Config, db: Tables, sheets: Sheets)
    requires BeforeListings(cfg, db, sheets).error.None?
    ensures RowsFromSheets(cfg, db, sheets, BeforeListings(cfg, db, sheets))
  {
    var s1 := SeedVertical(cfg, Begin(cfg, db));
    var s2 := SeedCities(cfg, s1, sheets.cities);
    var s3 := RegisterRegions(cfg, s2, s2.db.cities);
    var s := SeedCategories(cfg, s3, sheets.categories);
    BeforeListingsLeaves(cfg, db, sheets);
    TheVertical(cfg, db);
    CitiesFromTheSheet(cfg, s1, sheets.cities);
    RegionsTouchOnlySlugs(cfg, s2, s2.db.cities);
    CategoriesFromTheSheet(cfg, s3, sheets.categories);
    ReserveTakesAll(db.slugs, cfg.words.reserved);
    SeedVerticalStep(cfg, Begin(cfg, db));
    VerticalStays(cfg, db, s1, s);
    NewCitiesStay(cfg, sheets.cities, s1.db, s2.db, db, s.db);
    NewCategoriesStay(cfg, s.vertical, sheets.categories, s3.db, s.db, db, s.db);
  }

  lemma InsertionsFromSheets(cfg: Config, db: Tables, sheets: Sheets)
    requires Insertions(cfg, db, sheets).error.None?
    ensures RowsFromSheets(cfg, db, sheets, Insertions(cfg, db, sheets))
  {
    var s := BeforeListings(cfg, db, sheets);
    var s' := SeedListings(cfg, s, sheets.listings);
    SeedListingsLeaves(cfg, s, sheets.listings);
    BeforeListingsFromSheets(cfg, db, sheets);
    ListingsTouchOnlyTheirs(cfg, s, sheets.listings);
    VerticalStays(cfg, db, s, s');
    NewCitiesStay(cfg, sheets.cities, db, s.db, db, s'.db);
    NewCategoriesStay(cfg, s.vertical, sheets.categories, db, s.db, db, s'.db);
  }

  /**
   Every city a completed run inserted has the name, region and country of a line of its sheet, an empty country
   being the site's, and owns the slug it stands under, a rung of its name's ladder. Unless the gate was
   recomputed for it, it counts nothing and is not indexable.
   */
  lemma NewCityIsFromItsLine(cfg: Config, db: Tables, sheets: Sheets, c: nat)
    requires Run(cfg, db, sheets).error.None?
    requires |db.cities| <= c < |Run(cfg, db, sheets).db.cities|
    ensures var r := Run(cfg, db, sheets);
            var city := r.db.cities[c];
            && CityFromSheet(cfg, sheets.cities, r.db.slugs, city)
            && (city.id !in r.cityIds.Values ==> city.listingCount == 0 && !city.isIndexable)
  {
    var s := Insertions(cfg, db, sheets);
    InsertionsFromSheets(cfg, db, sheets);
    DerivedKeepCounts(cfg, s);
    DerivedRow(cfg, s, c);
    var row := Run(cfg, db, sheets).db.cities[c];
    var k :| 0 <= k < |sheets.cities| && CityOfLine(cfg, s.db.cities[c], sheets.cities[k]);
    assert CityOfLine(cfg, row, sheets.cities[k]);
  }

  /** The derived phases leave a row's own columns, and its flag unless its id is judged. */
  lemma DerivedRow(cfg: Config, s: Progress, c: nat)
    requires s.error.None? && c < |s.db.cities|
    ensures var d := Derive(cfg, s).db;
            && |d.cities| == |s.db.cities| && d.slugs == s.db.slugs
            && KeepsItsColumns(s.db.cities[c], d.cities[c], s.cityIds.Values)
  {
    RowByRow(cfg, s.db, s.cityIds.Values, c);
    JudgedRow(cfg, s.db, s.cityIds.Values, s.db.cities[c]);
  }

  ghost predicate KeepsItsColumns(row: CityRow, derived: CityRow, judged: set<Id>) {
    && derived.id == row.id && derived.name == row.name && derived.slug == row.slug
    && derived.region == row.region && derived.country == row.country
    && (row.id !in judged ==> derived.listingCount == row.listingCount && derived.isIndexable == row.isIndexable)
  }

  lemma JudgedRow(cfg: Config, db: Tables, ids: set<Id>, row: CityRow)
    ensures KeepsItsColumns(row, JudgeAmong(cfg, db.listings, ids, WithIntro(cfg, db, row)), ids)
  {
  }

  /**
   Every category it inserted has the name of a line of its sheet, that line's singular and plural or, where they
   are empty, the name and the name in lower case, the run's vertical, and owns its slug.
   */
  lemma NewCategoryIsFromItsLine(cfg: Config, db: Tables, sheets: Sheets, c: nat)
    requires Run(cfg, db, sheets).error.None?
    requires |db.categories| <= c < |Run(cfg, db, sheets).db.categories|
    ensures var r := Run(cfg, db, sheets);
            CategoryFromSheet(cfg, r.vertical, sheets.categories, r.db.slugs, r.db.categories[c])
  {
    InsertionsFromSheets(cfg, db, sheets);
  }

  /** It works under the vertical its plural resolves to, or under a new one with a slug of its own. */
  lemma TheRunHasItsVertical(cfg: Config, db: Tables, sheets: Sheets)
    requires Run(cfg, db, sheets).error.None?
    ensures VerticalOf(cfg, db, Run(cfg, db, sheets))
  {
    InsertionsFromSheets(cfg, db, sheets);
  }

  // ---- Listings --------------------------------------------------------------------------------------------------

  ghost predicate ListingSays(cfg: Config, singulars: map<string, string>, vertical: Id, line: ListingLine,
                              row: ListingRow) {
    && row.published && row.vertical == vertical && row.slug in Ladder(cfg.words, line.name, None)
    && line.category in singulars
    && row.description == line.name + " is a " + singulars[line.category] + " in " + line.city + "."
  }

  lemma InsertedSays(cfg: Config, s: Progress, line: ListingLine)
    requires SeedListing(cfg, s, line).error.None? && SeedListing(cfg, s, line).db.listings != s.db.listings
    requires line.category in s.singulars
    ensures var s' := SeedListing(cfg, s, line);
            && |s'.db.listings| == |s.db.listings| + 1
            && ListingSays(cfg, s.singulars, s.vertical, line, s'.db.listings[|s.db.listings|])
  {
    var key := CityKey(line.city, Cell(line.region));
    var city, category := s.cityIds[key], s.categoryIds[line.category];
    var mid := RouteCategory(cfg, s, city, category, line.category);
    RouteTouchesOnlySlugs(cfg, s, city, category, line.category);
    AllocatedIsOnTheLadder(cfg.words, mid.db.slugs, Of(city), line.name, None);
  }

  lemma RowKSays(cfg: Config, s: Progress, lines: seq<ListingLine>, k: nat)
    requires k < |lines| && SeedListings(cfg, s, lines).error.None? && lines[k].category in s.singulars
    requires |SeedListings(cfg, s, lines[..k]).db.listings| < |SeedListings(cfg, s, lines[..k + 1]).db.listings|
    ensures var i := |SeedListings(cfg, s, lines[..k]).db.listings|;
            && i < |SeedListings(cfg, s, lines).db.listings|
            && ListingSays(cfg, s.singulars, s.vertical, lines[k], SeedListings(cfg, s, lines).db.listings[i])
  {
    var mid := SeedListings(cfg, s, lines[..k]);
    PrefixOfSheet(cfg, s, lines, k + 1);
    assert lines[..k + 1][..k] == lines[..k];
    ListingsTouchOnlyTheirs(cfg, s, lines[..k]);
    InsertedSays(cfg, mid, lines[k]);
  }

  /**
   The listing row k inserted is published, under the run's vertical and a rung of its name's ladder, and its
   description names it, the noun of its category's last line, or the category's own name where that is empty,
   and the city the row names.
   */
  lemma NewListingSaysItsRow(cfg: Config, db: Tables, sheets: Sheets, k: nat, i: nat)
    requires Run(cfg, db, sheets).error.None? && Inserted(cfg, db, sheets, k, i)
    ensures var r, line := Run(cfg, db, sheets), sheets.listings[k];
            && i < |r.db.listings|
            && var l := r.db.listings[i];
            && l.published && l.vertical == r.vertical && l.slug in Ladder(cfg.words, line.name, None)
            && exists j, noun :: NounAt(sheets.categories, j, line.category, noun)
                 && l.description == line.name + " is a " + noun + " in " + line.city + "."
  {
    var s, line := BeforeListings(cfg, db, sheets), sheets.listings[k];
    RunKeepsPlacement(cfg, db, sheets);
    RowKInserts(cfg, s, sheets.listings, k);
    CategoryIdsAreRight(s.db.categories, sheets.categories, line.category);
    BeforeListingsFromSheets(cfg, db, sheets);
    KnownCategoriesHaveNouns(s, sheets.categories, line.category);
    RowKSays(cfg, s, sheets.listings, k);
    ListingsTouchOnlyTheirs(cfg, s, sheets.listings);
    var noun := s.singulars[line.category];
    var j :| 0 <= j < |sheets.categories| && NounAt(sheets.categories, j, line.category, noun);
  }

  lemma {:induction false} CategoryIdsAreOfLines(categories: seq<CategoryRow>, lines: seq<CategoryLine>, name: string)
    requires CategoriesFound(categories, lines) && name in CategoryIds(categories, map[], lines)
    ensures exists k :: 0 <= k < |lines| && lines[k].name == name
  {
    var n := |lines| - 1;
    if lines[n].name != name {
      assert forall k | 0 <= k < n :: lines[..n][k] == lines[k];
      CategoryIdsAreOfLines(categories, lines[..n], name);
    }
  }

  lemma KnownCategoriesHaveNouns(s: Progress, lines: seq<CategoryLine>, name: string)
    requires CategoriesFound(s.db.categories, lines) && s.categoryIds == CategoryIds(s.db.categories, map[], lines)
    requires NounsFrom(lines, s.singulars) && name in s.categoryIds
    ensures name in s.singulars
  {
    CategoryIdsAreOfLines(s.db.categories, lines, name);
  }
}
