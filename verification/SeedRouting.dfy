/** The routing the seed leaves behind, and where each listing lands. */
module SeedRouting {
  import opened SlugRegistry
  import opened Wrappers
  import opened Seed
  import opened SeedIdempotence

  /** Slugs are unique per scope and every id in use is below nextId. */
  ghost predicate Tidy(db: Tables) {
    && UniqueSlugs(db.slugs)
    && (forall i | 0 <= i < |db.slugs| && db.slugs[i].entity.Some? :: db.slugs[i].entity.value < db.nextId)
    && (forall i | 0 <= i < |db.cities| :: db.cities[i].id < db.nextId)
    && (forall i | 0 <= i < |db.categories| :: db.categories[i].id < db.nextId)
  }

  lemma AllocatedIsFree(w: Words, rows: seq<SlugRow>, scope: Scope, desired: string, disambiguator: Option<string>)
    ensures var a := Allocate(w, rows, scope, desired, disambiguator);
            a.Allocated? ==> !Taken(rows, scope, a.slug)
  {
    FirstFreeIsFirst(rows, scope, Ladder(w, desired, disambiguator));
  }

  lemma AppendFreeKeepsUnique(rows: seq<SlugRow>, row: SlugRow)
    requires UniqueSlugs(rows) && !Taken(rows, row.scope, row.slug)
    ensures UniqueSlugs(rows + [row])
  {
  }

  lemma SeedVerticalTidy(cfg: Config, s: Progress)
    requires Tidy(s.db)
    ensures Tidy(SeedVertical(cfg, s).db)
  {
    AllocatedIsFree(cfg.words, s.db.slugs, Root, cfg.Plural, None);
    var s' := SeedVertical(cfg, s);
    if s'.db.slugs != s.db.slugs {
      AppendFreeKeepsUnique(s.db.slugs, s'.db.slugs[|s.db.slugs|]);
    }
  }

  /** What the loops before the listings keep: tidy tables, and no new row inside any city's scope. */
  ghost predicate RootOnly(a: Tables, b: Tables) {
    && a.slugs <= b.slugs && a.listings == b.listings
    && forall i | |a.slugs| <= i < |b.slugs| :: !b.slugs[i].scope.Of?
  }

  lemma SeedCityTidy(cfg: Config, s: Progress, line: CityLine)
    requires Tidy(s.db)
    ensures Tidy(SeedCity(cfg, s, line).db) && RootOnly(s.db, SeedCity(cfg, s, line).db)
  {
    AllocatedIsFree(cfg.words, s.db.slugs, Root, line.name, Cell(line.region));
    var s' := SeedCity(cfg, s, line);
    if s'.db.slugs != s.db.slugs {
      AppendFreeKeepsUnique(s.db.slugs, s'.db.slugs[|s.db.slugs|]);
    }
  }

  lemma SeedCategoryTidy(cfg: Config, s: Progress, line: CategoryLine)
    requires Tidy(s.db)
    ensures Tidy(SeedCategory(cfg, s, line).db) && RootOnly(s.db, SeedCategory(cfg, s, line).db)
  {
    AllocatedIsFree(cfg.words, s.db.slugs, Root, line.name, None);
    var s' := SeedCategory(cfg, s, line);
    if s'.db.slugs != s.db.slugs {
      AppendFreeKeepsUnique(s.db.slugs, s'.db.slugs[|s.db.slugs|]);
    }
  }

  lemma {:induction false} ReserveTidy(db: Tables, reserved: seq<string>)
    requires Tidy(db)
    ensures var db' := db.(slugs := ReserveAll(db.slugs, reserved)); Tidy(db') && RootOnly(db, db')
  {
    if reserved != [] {
      ReserveTidy(db, reserved[..|reserved| - 1]);
      ClaimKeepsUnique(ReserveAll(db.slugs, reserved[..|reserved| - 1]),
                       SlugRow(Root, reserved[|reserved| - 1], Static, None));
    }
  }

  lemma {:induction false} SeedCitiesTidy(cfg: Config, s: Progress, lines: seq<CityLine>)
    requires Tidy(s.db)
    ensures Tidy(SeedCities(cfg, s, lines).db) && RootOnly(s.db, SeedCities(cfg, s, lines).db)
  {
    if lines != [] {
      SeedCitiesTidy(cfg, s, lines[..|lines| - 1]);
      SeedCityTidy(cfg, SeedCities(cfg, s, lines[..|lines| - 1]), lines[|lines| - 1]);
    }
  }

  lemma {:induction false} RegisterRegionsTidy(cfg: Config, s: Progress, cities: seq<CityRow>)
    requires Tidy(s.db)
    ensures Tidy(RegisterRegions(cfg, s, cities).db) && RootOnly(s.db, RegisterRegions(cfg, s, cities).db)
  {
    if cities != [] {
      var mid, city := RegisterRegions(cfg, s, cities[..|cities| - 1]), cities[|cities| - 1];
      RegisterRegionsTidy(cfg, s, cities[..|cities| - 1]);
      if city.region.Some? {
        ClaimKeepsUnique(mid.db.slugs, SlugRow(Areas, cfg.words.slugify(city.region.value), Region, None));
      }
    }
  }

  lemma {:induction false} SeedCategoriesTidy(cfg: Config, s: Progress, lines: seq<CategoryLine>)
    requires Tidy(s.db)
    ensures Tidy(SeedCategories(cfg, s, lines).db) && RootOnly(s.db, SeedCategories(cfg, s, lines).db)
  {
    if lines != [] {
      SeedCategoriesTidy(cfg, s, lines[..|lines| - 1]);
      SeedCategoryTidy(cfg, SeedCategories(cfg, s, lines[..|lines| - 1]), lines[|lines| - 1]);
    }
  }

  // ---- The listings loop ---------------------------------------------------------------------------

  /** How many slug rows route a category inside a city. */
  function Routes(slugs: seq<SlugRow>, city: Id, category: Id): nat {
    if slugs == [] then 0
    else
      var last := slugs[|slugs| - 1];
      Routes(slugs[..|slugs| - 1], city, category)
      + if last.scope == Of(city) && last.entity == Some(category) then 1 else 0
  }

  lemma RoutesAppend(slugs: seq<SlugRow>, row: SlugRow, city: Id, category: Id)
    ensures Routes(slugs + [row], city, category) ==
            Routes(slugs, city, category) + if row.scope == Of(city) && row.entity == Some(category) then 1 else 0
  {
    assert (slugs + [row])[..|slugs|] == slugs;
  }

  lemma {:induction false} RoutesCount(slugs: seq<SlugRow>, city: Id, category: Id)
    ensures Routes(slugs, city, category) > 0 <==> HasRoute(slugs, city, category)
  {
    if slugs != [] {
      var front := slugs[..|slugs| - 1];
      RoutesCount(front, city, category);
      if HasRoute(front, city, category) {
        var i :| 0 <= i < |front| && front[i].scope == Of(city) && front[i].entity == Some(category);
        assert slugs[i] == front[i];
      }
      if HasRoute(slugs, city, category) {
        var i :| 0 <= i < |slugs| && slugs[i].scope == Of(city) && slugs[i].entity == Some(category);
        if i < |front| {
          assert front[i] == slugs[i];
        }
      }
    }
  }

  lemma {:induction false} RoutesOfRootOnly(a: seq<SlugRow>, b: seq<SlugRow>, city: Id, category: Id)
    requires a <= b && forall i | |a| <= i < |b| :: !b[i].scope.Of?
    ensures Routes(b, city, category) == Routes(a, city, category)
  {
    if |b| > |a| {
      RoutesOfRootOnly(a, b[..|b| - 1], city, category);
    } else {
      assert a == b;
    }
  }

  predicate OwnRow(l: ListingRow, row: SlugRow) {
    row == SlugRow(Of(l.city), l.slug, Listing, Some(l.id))
  }

  ghost predicate NewListingIn(db: Tables, from: nat, city: Id, category: Id) {
    exists i :: from <= i < |db.listings| && db.listings[i].city == city && db.listings[i].category == category
  }

  /**
   Between the start s0 of the listings loop and any later point s, for ids below `limit`, the first id the
   loop may hand out.
   */
  ghost predicate LoopInv(s0: Progress, s: Progress, limit: Id) {
    && Tidy(s.db) && Grows(s0.db, s.db) && s.categoryIds == s0.categoryIds && s.cityIds == s0.cityIds
    && limit <= s.db.nextId
    && (forall name | name in s.categoryIds :: s.categoryIds[name] < limit)
    && (forall pair | pair in s.routed :: Routes(s.db.slugs, pair.0, pair.1) > 0)
  }

  /** Each listing the loop inserted owns exactly one registry row, in its city's scope, under its own slug. */
  ghost predicate OwnedRows(s0: Progress, s: Progress, limit: Id) {
    forall i | |s0.db.listings| <= i < |s.db.listings| ::
      && limit <= s.db.listings[i].id < s.db.nextId
      && (exists r :: 0 <= r < |s.db.slugs| && OwnRow(s.db.listings[i], s.db.slugs[r]))
      && forall r | 0 <= r < |s.db.slugs| && s.db.slugs[r].entity == Some(s.db.listings[i].id) ::
           OwnRow(s.db.listings[i], s.db.slugs[r])
  }

  /** A pair that had a route keeps what it had; one that had none has one row exactly if a listing needed it. */
  ghost predicate RoutesNeeded(s0: Progress, s: Progress, limit: Id) {
    forall city: Id, category: Id | category < limit ::
      Routes(s.db.slugs, city, category) ==
        if Routes(s0.db.slugs, city, category) == 0 && NewListingIn(s.db, |s0.db.listings|, city, category) then 1
        else Routes(s0.db.slugs, city, category)
  }

  /** One more row inside a city's scope, for a category that had none there. */
  lemma AppendRoute(s0: Progress, s: Progress, s': Progress, limit: Id, city: Id, category: Id, slug: string)
    requires LoopInv(s0, s, limit) && category < limit && !Taken(s.db.slugs, Of(city), slug)
    requires s' == s.(routed := s.routed + {(city, category)},
                      db := s.db.(slugs := s.db.slugs + [SlugRow(Of(city), slug, Category, Some(category))]))
    ensures LoopInv(s0, s', limit)
    ensures forall c, k: Id :: Routes(s'.db.slugs, c, k) ==
              Routes(s.db.slugs, c, k) + if c == city && k == category then 1 else 0
  {
    var row := SlugRow(Of(city), slug, Category, Some(category));
    AppendFreeKeepsUnique(s.db.slugs, row);
    forall c, k: Id ensures Routes(s'.db.slugs, c, k) ==
        Routes(s.db.slugs, c, k) + if c == city && k == category then 1 else 0
    {
      RoutesAppend(s.db.slugs, row, c, k);
    }
  }

  lemma RouteStep(cfg: Config, s0: Progress, s: Progress, limit: Id, city: Id, category: Id, name: string)
    requires LoopInv(s0, s, limit) && OwnedRows(s0, s, limit) && category < limit && s.error.None?
    requires RouteCategory(cfg, s, city, category, name).error.None?
    ensures var s' := RouteCategory(cfg, s, city, category, name);
            && LoopInv(s0, s', limit) && OwnedRows(s0, s', limit) && s'.db == s.db.(slugs := s'.db.slugs)
            && s'.vertical == s.vertical && s'.singulars == s.singulars && s'.report == s.report
            && forall c, k: Id :: Routes(s'.db.slugs, c, k) ==
                 Routes(s.db.slugs, c, k) + if c == city && k == category && Routes(s.db.slugs, c, k) == 0 then 1 else 0
  {
    RoutesCount(s.db.slugs, city, category);
    if (city, category) in s.routed || HasRoute(s.db.slugs, city, category) {
      RoutedStaysRouted(s0, s, RouteCategory(cfg, s, city, category, name), limit);
    } else {
      NewRouteStep(cfg, s0, s, limit, city, category, name);
    }
  }

  lemma NewRouteStep(cfg: Config, s0: Progress, s: Progress, limit: Id, city: Id, category: Id, name: string)
    requires LoopInv(s0, s, limit) && OwnedRows(s0, s, limit) && category < limit
    requires (city, category) !in s.routed && !HasRoute(s.db.slugs, city, category)
    requires RouteCategory(cfg, s, city, category, name).error.None?
    ensures var s' := RouteCategory(cfg, s, city, category, name);
            && LoopInv(s0, s', limit) && OwnedRows(s0, s', limit) && s'.db == s.db.(slugs := s'.db.slugs)
            && forall c, k: Id :: Routes(s'.db.slugs, c, k) ==
                 Routes(s.db.slugs, c, k) + if c == city && k == category then 1 else 0
  {
    AllocatedIsFree(cfg.words, s.db.slugs, Of(city), name, None);
    var s' := RouteCategory(cfg, s, city, category, name);
    var row := s'.db.slugs[|s.db.slugs|];
    AppendRoute(s0, s, s', limit, city, category, row.slug);
    OwnedRowsAfterRoute(s0, s, s', limit, row);
  }

  lemma RoutedStaysRouted(s0: Progress, s: Progress, s': Progress, limit: Id)
    requires LoopInv(s0, s, limit) && OwnedRows(s0, s, limit)
    requires s'.db == s.db && s'.cityIds == s.cityIds && s'.categoryIds == s.categoryIds
    requires forall pair | pair in s'.routed :: pair in s.routed || HasRoute(s.db.slugs, pair.0, pair.1)
    ensures LoopInv(s0, s', limit) && OwnedRows(s0, s', limit)
  {
    forall pair | pair in s'.routed ensures Routes(s'.db.slugs, pair.0, pair.1) > 0 {
      RoutesCount(s.db.slugs, pair.0, pair.1);
    }
  }

  lemma OwnedRowsAfterRoute(s0: Progress, s: Progress, s': Progress, limit: Id, row: SlugRow)
    requires OwnedRows(s0, s, limit) && s'.db == s.db.(slugs := s.db.slugs + [row])
    requires row.entity.Some? && row.entity.value < limit
    ensures OwnedRows(s0, s', limit)
  {
    forall i | |s0.db.listings| <= i < |s'.db.listings|
      ensures exists r :: 0 <= r < |s'.db.slugs| && OwnRow(s'.db.listings[i], s'.db.slugs[r])
    {
      var r :| 0 <= r < |s.db.slugs| && OwnRow(s.db.listings[i], s.db.slugs[r]);
      assert s'.db.slugs[r] == s.db.slugs[r];
    }
  }

  lemma InsertStep(cfg: Config, s0: Progress, s: Progress, limit: Id, city: Id, category: Id, line: ListingLine)
    requires LoopInv(s0, s, limit) && OwnedRows(s0, s, limit) && s.error.None?
    requires InsertListing(cfg, s, city, category, line).error.None?
    ensures var s' := InsertListing(cfg, s, city, category, line);
            && LoopInv(s0, s', limit) && OwnedRows(s0, s', limit)
            && |s'.db.listings| == |s.db.listings| + 1 && s'.db.listings[..|s.db.listings|] == s.db.listings
            && (var l := s'.db.listings[|s.db.listings|];
                l.city == city && l.category == category && l.name == line.name)
            && (forall c, k: Id | k < limit :: Routes(s'.db.slugs, c, k) == Routes(s.db.slugs, c, k))
            && s'.report == s.report.(listings := s.report.listings + 1)
  {
    var s' := InsertListing(cfg, s, city, category, line);
    AllocatedIsFree(cfg.words, s.db.slugs, Of(city), line.name, None);
    var row := s'.db.slugs[|s.db.slugs|];
    AppendFreeKeepsUnique(s.db.slugs, row);
    forall c, k: Id ensures Routes(s'.db.slugs, c, k) >= Routes(s.db.slugs, c, k)
                    ensures k < limit ==> Routes(s'.db.slugs, c, k) == Routes(s.db.slugs, c, k) {
      RoutesAppend(s.db.slugs, row, c, k);
    }
    OwnedRowsAfterInsert(s0, s, s', limit, row);
  }

  lemma OwnedRowsAfterInsert(s0: Progress, s: Progress, s': Progress, limit: Id, row: SlugRow)
    requires OwnedRows(s0, s, limit) && Tidy(s.db) && s0.db.listings <= s.db.listings && limit <= s.db.nextId
    requires s'.db.slugs == s.db.slugs + [row] && s'.db.nextId == s.db.nextId + 1
    requires |s'.db.listings| == |s.db.listings| + 1 && s'.db.listings[..|s.db.listings|] == s.db.listings
    requires s'.db.listings[|s.db.listings|].id == s.db.nextId && OwnRow(s'.db.listings[|s.db.listings|], row)
    ensures OwnedRows(s0, s', limit)
  {
    forall i | |s0.db.listings| <= i < |s'.db.listings|
      ensures exists r :: 0 <= r < |s'.db.slugs| && OwnRow(s'.db.listings[i], s'.db.slugs[r])
      ensures limit <= s'.db.listings[i].id < s'.db.nextId
      ensures forall r | 0 <= r < |s'.db.slugs| && s'.db.slugs[r].entity == Some(s'.db.listings[i].id) ::
                OwnRow(s'.db.listings[i], s'.db.slugs[r])
    {
      if i < |s.db.listings| {
        assert s'.db.listings[..|s.db.listings|][i] == s.db.listings[i];
        var r :| 0 <= r < |s.db.slugs| && OwnRow(s.db.listings[i], s.db.slugs[r]);
        assert s'.db.slugs[r] == s.db.slugs[r];
      } else {
        assert s'.db.slugs[|s.db.slugs|] == row;
      }
    }
  }

  lemma SeedListingRoutes(cfg: Config, s0: Progress, s: Progress, limit: Id, line: ListingLine)
    requires LoopInv(s0, s, limit) && OwnedRows(s0, s, limit) && RoutesNeeded(s0, s, limit)
    requires SeedListing(cfg, s, line).error.None?
    ensures var s' := SeedListing(cfg, s, line);
            LoopInv(s0, s', limit) && OwnedRows(s0, s', limit) && RoutesNeeded(s0, s', limit)
  {
    var key := CityKey(line.city, Cell(line.region));
    if key in s.cityIds && line.category in s.categoryIds {
      var city, category := s.cityIds[key], s.categoryIds[line.category];
      if !HasListing(s.db.listings, city, line.name) {
        var mid := RouteCategory(cfg, s, city, category, line.category);
        RouteStep(cfg, s0, s, limit, city, category, line.category);
        InsertStep(cfg, s0, mid, limit, city, category, line);
        RoutesStayNeeded(s0, s, mid, InsertListing(cfg, mid, city, category, line), limit, city, category);
      }
    }
  }

  lemma RoutesStayNeeded(s0: Progress, s: Progress, mid: Progress, s': Progress, limit: Id, city: Id, category: Id)
    requires RoutesNeeded(s0, s, limit) && s0.db.listings <= s.db.listings && mid.db.listings == s.db.listings
    requires forall c, k: Id :: Routes(mid.db.slugs, c, k) ==
               Routes(s.db.slugs, c, k) + if c == city && k == category && Routes(s.db.slugs, c, k) == 0 then 1 else 0
    requires forall c, k: Id | k < limit :: Routes(s'.db.slugs, c, k) == Routes(mid.db.slugs, c, k)
    requires |s'.db.listings| == |s.db.listings| + 1 && s'.db.listings[..|s.db.listings|] == s.db.listings
    requires var l := s'.db.listings[|s.db.listings|]; l.city == city && l.category == category
    ensures RoutesNeeded(s0, s', limit)
  {
    forall c: Id, k: Id | k < limit
      ensures Routes(s'.db.slugs, c, k) ==
                if Routes(s0.db.slugs, c, k) == 0 && NewListingIn(s'.db, |s0.db.listings|, c, k) then 1
                else Routes(s0.db.slugs, c, k)
    {
      NewListingAfterInsert(s0, s.db, s'.db, c, k);
      assert Routes(s'.db.slugs, c, k) == Routes(mid.db.slugs, c, k);
    }
  }

  lemma NewListingAfterInsert(s0: Progress, a: Tables, b: Tables, city: Id, category: Id)
    requires s0.db.listings <= a.listings
    requires |b.listings| == |a.listings| + 1 && b.listings[..|a.listings|] == a.listings
    ensures var l := b.listings[|a.listings|];
            NewListingIn(b, |s0.db.listings|, city, category) <==>
              NewListingIn(a, |s0.db.listings|, city, category) || (l.city == city && l.category == category)
  {
    var from := |s0.db.listings|;
    if NewListingIn(a, from, city, category) {
      var i :| from <= i < |a.listings| && a.listings[i].city == city && a.listings[i].category == category;
      assert b.listings[..|a.listings|][i] == b.listings[i];
    }
    if NewListingIn(b, from, city, category) {
      var i :| from <= i < |b.listings| && b.listings[i].city == city && b.listings[i].category == category;
      assert i < |a.listings| ==> b.listings[..|a.listings|][i] == a.listings[i];
    }
  }

  lemma {:induction false} SeedListingsRoutes(cfg: Config, s0: Progress, limit: Id, lines: seq<ListingLine>)
    requires LoopInv(s0, s0, limit) && SeedListings(cfg, s0, lines).error.None?
    ensures var s := SeedListings(cfg, s0, lines);
            LoopInv(s0, s, limit) && OwnedRows(s0, s, limit) && RoutesNeeded(s0, s, limit)
  {
    if lines != [] {
      var mid := SeedListings(cfg, s0, lines[..|lines| - 1]);
      assert mid.error.None?;
      SeedListingsRoutes(cfg, s0, limit, lines[..|lines| - 1]);
      SeedListingRoutes(cfg, s0, mid, limit, lines[|lines| - 1]);
    }
  }

  // ---- A whole run ---------------------------------------------------------------------------------

  lemma {:induction false} FoundCategoryId(categories: seq<CategoryRow>, name: string)
    requires FindCategory(categories, name).Some?
    ensures exists i :: 0 <= i < |categories|
              && categories[i].id == FindCategory(categories, name).value && categories[i].name == name
  {
    if categories[0].name != name {
      FoundCategoryId(categories[1..], name);
      var i :| 0 <= i < |categories[1..]| && categories[1..][i].id == FindCategory(categories, name).value
               && categories[1..][i].name == name;
      assert categories[i + 1] == categories[1..][i];
    }
  }

  lemma {:induction false} CategoryIdsAreRight(categories: seq<CategoryRow>, lines: seq<CategoryLine>, name: string)
    requires CategoriesFound(categories, lines)
    requires name in CategoryIds(categories, map[], lines)
    ensures exists g :: 0 <= g < |categories|
              && categories[g].id == CategoryIds(categories, map[], lines)[name] && categories[g].name == name
  {
    var front, line := lines[..|lines| - 1], lines[|lines| - 1];
    assert forall i | 0 <= i < |front| :: front[i] == lines[i];
    if line.name == name {
      FoundCategoryId(categories, name);
    } else {
      CategoryIdsAreRight(categories, front, name);
    }
  }

  lemma CategoryIdsInTable(categories: seq<CategoryRow>, lines: seq<CategoryLine>, limit: Id, name: string)
    requires CategoriesFound(categories, lines)
    requires forall i | 0 <= i < |categories| :: categories[i].id < limit
    requires name in CategoryIds(categories, map[], lines)
    ensures CategoryIds(categories, map[], lines)[name] < limit
  {
    CategoryIdsAreRight(categories, lines, name);
  }

  lemma VerticalIsTidy(cfg: Config, db: Tables)
    requires Tidy(db)
    ensures var s := SeedVertical(cfg, Begin(cfg, db)); Tidy(s.db) && RootOnly(db, s.db)
  {
    ReserveTidy(db, cfg.words.reserved);
    SeedVerticalTidy(cfg, Begin(cfg, db));
    SeedVerticalStep(cfg, Begin(cfg, db));
  }

  lemma RootOnlyOn(a: Tables, b: Tables, c: Tables)
    requires RootOnly(a, b) && RootOnly(b, c)
    ensures RootOnly(a, c)
  {
  }

  lemma BeforeListingsTidy(cfg: Config, db: Tables, sheets: Sheets)
    requires Tidy(db) && BeforeListings(cfg, db, sheets).error.None?
    ensures var s := BeforeListings(cfg, db, sheets); Tidy(s.db) && RootOnly(db, s.db)
  {
    var s1 := SeedVertical(cfg, Begin(cfg, db));
    var s2 := SeedCities(cfg, s1, sheets.cities);
    var s3 := RegisterRegions(cfg, s2, s2.db.cities);
    VerticalIsTidy(cfg, db);
    SeedCitiesTidy(cfg, s1, sheets.cities);
    RegisterRegionsTidy(cfg, s2, s2.db.cities);
    SeedCategoriesTidy(cfg, s3, sheets.categories);
    RootOnlyOn(db, s1.db, s2.db);
    RootOnlyOn(db, s2.db, s3.db);
    RootOnlyOn(db, s3.db, BeforeListings(cfg, db, sheets).db);
  }

  lemma ListingsLoopStarts(cfg: Config, db: Tables, sheets: Sheets)
    requires Tidy(db) && BeforeListings(cfg, db, sheets).error.None?
    ensures var s := BeforeListings(cfg, db, sheets); LoopInv(s, s, s.db.nextId) && RootOnly(db, s.db)
  {
    var s := BeforeListings(cfg, db, sheets);
    BeforeListingsTidy(cfg, db, sheets);
    BeforeListingsLeaves(cfg, db, sheets);
    forall name | name in s.categoryIds ensures s.categoryIds[name] < s.db.nextId {
      CategoryIdsInTable(s.db.categories, sheets.categories, s.db.nextId, name);
    }
  }

  lemma RoutesFromTheStart(db: Tables, s0: Progress, s: Progress, r: Tables, city: Id, category: Id)
    requires RootOnly(db, s0.db) && RoutesNeeded(s0, s, s0.db.nextId) && category < s0.db.nextId
    requires r.slugs == s.db.slugs && r.listings == s.db.listings
    ensures Routes(r.slugs, city, category) ==
              if Routes(db.slugs, city, category) == 0 && NewListingIn(r, |db.listings|, city, category) then 1
              else Routes(db.slugs, city, category)
  {
    RoutesOfRootOnly(db.slugs, s0.db.slugs, city, category);
    assert NewListingIn(r, |db.listings|, city, category) == NewListingIn(s.db, |s0.db.listings|, city, category);
  }

  /**
   The routing invariant, for every completed run over tidy tables: slugs stay unique per scope; each new
   listing has exactly one registry row, in its own city's scope under its own slug; and a (city, category)
   pair gains a category row exactly when a new listing needs one and there was none.
   */
  lemma SeedKeepsRouting(cfg: Config, db: Tables, sheets: Sheets)
    requires Tidy(db) && Run(cfg, db, sheets).error.None?
    ensures var r := Run(cfg, db, sheets).db;
            && UniqueSlugs(r.slugs)
            && (forall i | |db.listings| <= i < |r.listings| ::
                  && (exists k :: 0 <= k < |r.slugs| && OwnRow(r.listings[i], r.slugs[k]))
                  && forall k | 0 <= k < |r.slugs| && r.slugs[k].entity == Some(r.listings[i].id) ::
                       OwnRow(r.listings[i], r.slugs[k]))
            && forall city: Id, c | 0 <= c < |r.categories| ::
                 var category := r.categories[c].id;
                 Routes(r.slugs, city, category) ==
                   if Routes(db.slugs, city, category) == 0 && NewListingIn(r, |db.listings|, city, category) then 1
                   else Routes(db.slugs, city, category)
  {
    var s0 := BeforeListings(cfg, db, sheets);
    var s := SeedListings(cfg, s0, sheets.listings);
    var r := Run(cfg, db, sheets).db;
    SeedListingsLeaves(cfg, s0, sheets.listings);
    ListingsLoopStarts(cfg, db, sheets);
    SeedListingsRoutes(cfg, s0, s0.db.nextId, sheets.listings);
    assert r.slugs == s.db.slugs && r.listings == s.db.listings && r.categories == s0.db.categories;
    forall city: Id, c | 0 <= c < |r.categories|
      ensures var category := r.categories[c].id;
              Routes(r.slugs, city, category) ==
                if Routes(db.slugs, city, category) == 0 && NewListingIn(r, |db.listings|, city, category) then 1
                else Routes(db.slugs, city, category)
    {
      RoutesFromTheStart(db, s0, s, r, city, r.categories[c].id);
    }
  }

  // ---- The report ----------------------------------------------------------------------------------

  function Total(r: Report): nat {
    r.cities + r.categories + r.listings + r.skipped
  }

  ghost predicate Tallied(s: Progress, s': Progress, rows: nat) {
    && Total(s'.report) == Total(s.report) + rows
    && s'.report.cities - s.report.cities == |s'.db.cities| - |s.db.cities|
    && s'.report.categories - s.report.categories == |s'.db.categories| - |s.db.categories|
    && s'.report.listings - s.report.listings == |s'.db.listings| - |s.db.listings|
  }

  lemma InsertCityTallied(cfg: Config, s: Progress, line: CityLine)
    requires InsertCity(cfg, s, line).error.None?
    ensures Tallied(s, InsertCity(cfg, s, line), 1)
  {
  }

  lemma CityTallied(cfg: Config, s: Progress, line: CityLine)
    requires SeedCity(cfg, s, line).error.None?
    ensures Tallied(s, SeedCity(cfg, s, line), 1)
  {
    if FindCity(s.db.cities, line.name, Cell(line.region)).None? {
      InsertCityTallied(cfg, s, line);
      assert SeedCity(cfg, s, line) == InsertCity(cfg, s, line);
    }
  }

  lemma {:induction false} CitiesTallied(cfg: Config, s: Progress, lines: seq<CityLine>)
    requires SeedCities(cfg, s, lines).error.None?
    ensures Tallied(s, SeedCities(cfg, s, lines), |lines|)
  {
    if lines != [] {
      var mid, last := SeedCities(cfg, s, lines[..|lines| - 1]), lines[|lines| - 1];
      SeedCityStep(cfg, mid, last);
      CitiesTallied(cfg, s, lines[..|lines| - 1]);
      CityTallied(cfg, mid, last);
      TalliedThen(s, mid, SeedCity(cfg, mid, last), |lines| - 1, 1);
    }
  }

  lemma CategoryTallied(cfg: Config, s: Progress, line: CategoryLine)
    requires SeedCategory(cfg, s, line).error.None?
    ensures Tallied(s, SeedCategory(cfg, s, line), 1)
  {
  }

  lemma {:induction false} CategoriesTallied(cfg: Config, s: Progress, lines: seq<CategoryLine>)
    requires SeedCategories(cfg, s, lines).error.None?
    ensures Tallied(s, SeedCategories(cfg, s, lines), |lines|)
  {
    if lines != [] {
      var mid, last := SeedCategories(cfg, s, lines[..|lines| - 1]), lines[|lines| - 1];
      SeedCategoryStep(cfg, mid, last);
      CategoriesTallied(cfg, s, lines[..|lines| - 1]);
      CategoryTallied(cfg, mid, last);
      TalliedThen(s, mid, SeedCategory(cfg, mid, last), |lines| - 1, 1);
    }
  }

  lemma RouteTallied(cfg: Config, s: Progress, city: Id, category: Id, name: string)
    ensures Tallied(s, RouteCategory(cfg, s, city, category, name), 0)
  {
  }

  lemma InsertTallied(cfg: Config, s: Progress, city: Id, category: Id, line: ListingLine)
    requires InsertListing(cfg, s, city, category, line).error.None?
    ensures Tallied(s, InsertListing(cfg, s, city, category, line), 1)
  {
  }

  lemma ListingTallied(cfg: Config, s: Progress, line: ListingLine)
    requires SeedListing(cfg, s, line).error.None?
    ensures Tallied(s, SeedListing(cfg, s, line), 1)
  {
    var key := CityKey(line.city, Cell(line.region));
    if key in s.cityIds && line.category in s.categoryIds {
      var city, category := s.cityIds[key], s.categoryIds[line.category];
      if !HasListing(s.db.listings, city, line.name) {
        var mid := RouteCategory(cfg, s, city, category, line.category);
        RouteTallied(cfg, s, city, category, line.category);
        InsertTallied(cfg, mid, city, category, line);
        TalliedThen(s, mid, InsertListing(cfg, mid, city, category, line), 0, 1);
      }
    }
  }

  lemma {:induction false} ListingsTallied(cfg: Config, s: Progress, lines: seq<ListingLine>)
    requires SeedListings(cfg, s, lines).error.None?
    ensures Tallied(s, SeedListings(cfg, s, lines), |lines|)
  {
    if lines != [] {
      var mid := SeedListings(cfg, s, lines[..|lines| - 1]);
      SeedListingStep(cfg, mid, lines[|lines| - 1]);
      ListingsTallied(cfg, s, lines[..|lines| - 1]);
      ListingTallied(cfg, mid, lines[|lines| - 1]);
    }
  }

  lemma TalliedThen(a: Progress, b: Progress, c: Progress, m: nat, n: nat)
    requires Tallied(a, b, m) && Tallied(b, c, n)
    ensures Tallied(a, c, m + n)
  {
  }

  lemma VerticalTallied(cfg: Config, db: Tables)
    requires SeedVertical(cfg, Begin(cfg, db)).error.None?
    ensures Tallied(Begin(cfg, db), SeedVertical(cfg, Begin(cfg, db)), 0)
  {
    SeedVerticalStep(cfg, Begin(cfg, db));
  }

  lemma RegionsTallied(cfg: Config, s: Progress, cities: seq<CityRow>)
    requires RegisterRegions(cfg, s, cities).error.None?
    ensures s.error.None? && Tallied(s, RegisterRegions(cfg, s, cities), 0)
  {
    RegisterRegionsLeaves(cfg, s, cities);
  }

  lemma NoErrorBefore(cfg: Config, s: Progress, cities: seq<CityLine>, categories: seq<CategoryLine>,
                      listings: seq<ListingLine>)
    ensures SeedCities(cfg, s, cities).error.None? ==> s.error.None?
    ensures SeedCategories(cfg, s, categories).error.None? ==> s.error.None?
    ensures SeedListings(cfg, s, listings).error.None? ==> s.error.None?
  {
    if SeedCities(cfg, s, cities).error.None? {
      SeedCitiesGrow(cfg, s, cities);
    }
    if SeedCategories(cfg, s, categories).error.None? {
      SeedCategoriesGrow(cfg, s, categories);
    }
    if SeedListings(cfg, s, listings).error.None? {
      SeedListingsLeaves(cfg, s, listings);
    }
  }

  lemma InsertionsTallied(cfg: Config, db: Tables, sheets: Sheets)
    requires Insertions(cfg, db, sheets).error.None?
    ensures Tallied(Begin(cfg, db), Insertions(cfg, db, sheets),
                    |sheets.cities| + |sheets.categories| + |sheets.listings|)
  {
    var s0 := Begin(cfg, db);
    var s1 := SeedVertical(cfg, s0);
    var s2 := SeedCities(cfg, s1, sheets.cities);
    var s3 := RegisterRegions(cfg, s2, s2.db.cities);
    var s4 := SeedCategories(cfg, s3, sheets.categories);
    var s5 := SeedListings(cfg, s4, sheets.listings);
    NoErrorBefore(cfg, s4, [], [], sheets.listings);
    NoErrorBefore(cfg, s3, [], sheets.categories, []);
    RegionsTallied(cfg, s2, s2.db.cities);
    NoErrorBefore(cfg, s1, sheets.cities, [], []);
    VerticalTallied(cfg, db);
    CitiesTallied(cfg, s1, sheets.cities);
    CategoriesTallied(cfg, s3, sheets.categories);
    ListingsTallied(cfg, s4, sheets.listings);
    TalliedThen(s0, s1, s2, 0, |sheets.cities|);
    TalliedThen(s0, s2, s3, |sheets.cities|, 0);
    TalliedThen(s0, s3, s4, |sheets.cities|, |sheets.categories|);
    TalliedThen(s0, s4, s5, |sheets.cities| + |sheets.categories|, |sheets.listings|);
  }

  lemma DerivedKeepCounts(cfg: Config, s: Progress)
    ensures var db := Recompute(cfg, WriteIntroCopy(cfg, s.db), s.cityIds.Values);
            |db.cities| == |s.db.cities| && db.categories == s.db.categories && db.listings == s.db.listings
  {
  }

  /** Every data row is either created or skipped, and the created counts are the rows the tables gained. */
  lemma ReportAddsUp(cfg: Config, db: Tables, sheets: Sheets)
    requires Run(cfg, db, sheets).error.None?
    ensures Tallied(Begin(cfg, db), Run(cfg, db, sheets), |sheets.cities| + |sheets.categories| + |sheets.listings|)
  {
    InsertionsTallied(cfg, db, sheets);
    DerivedKeepCounts(cfg, Insertions(cfg, db, sheets));
  }
}
