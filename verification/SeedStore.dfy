/** The seed script as it runs: loops over sheet rows that insert into tables and update the run's own maps. */
module SeedStore {
  import opened SlugRegistry
  import opened Wrappers
  import opened Seed

  // ---- A thrown SlugError ends the run ---------------------------------------------------------------

  lemma {:induction false} CitiesStop(cfg: Config, s: Progress, lines: seq<CityLine>, i: nat)
    requires i <= |lines| && SeedCities(cfg, s, lines[..i]).error.Some?
    ensures SeedCities(cfg, s, lines) == SeedCities(cfg, s, lines[..i])
  {
    if i < |lines| {
      assert lines[..|lines| - 1][..i] == lines[..i];
      CitiesStop(cfg, s, lines[..|lines| - 1], i);
    } else {
      assert lines[..i] == lines;
    }
  }

  lemma {:induction false} RegionsStop(cfg: Config, s: Progress, cities: seq<CityRow>, i: nat)
    requires i <= |cities| && RegisterRegions(cfg, s, cities[..i]).error.Some?
    ensures RegisterRegions(cfg, s, cities) == RegisterRegions(cfg, s, cities[..i])
  {
    if i < |cities| {
      assert cities[..|cities| - 1][..i] == cities[..i];
      RegionsStop(cfg, s, cities[..|cities| - 1], i);
    } else {
      assert cities[..i] == cities;
    }
  }

  lemma {:induction false} CategoriesStop(cfg: Config, s: Progress, lines: seq<CategoryLine>, i: nat)
    requires i <= |lines| && SeedCategories(cfg, s, lines[..i]).error.Some?
    ensures SeedCategories(cfg, s, lines) == SeedCategories(cfg, s, lines[..i])
  {
    if i < |lines| {
      assert lines[..|lines| - 1][..i] == lines[..i];
      CategoriesStop(cfg, s, lines[..|lines| - 1], i);
    } else {
      assert lines[..i] == lines;
    }
  }

  lemma {:induction false} ListingsStop(cfg: Config, s: Progress, lines: seq<ListingLine>, i: nat)
    requires i <= |lines| && SeedListings(cfg, s, lines[..i]).error.Some?
    ensures SeedListings(cfg, s, lines) == SeedListings(cfg, s, lines[..i])
  {
    if i < |lines| {
      assert lines[..|lines| - 1][..i] == lines[..i];
      ListingsStop(cfg, s, lines[..|lines| - 1], i);
    } else {
      assert lines[..i] == lines;
    }
  }

  // ---- Candidates that are taken can be passed over ----------------------------------------------------

  lemma {:induction false} TakenCandidatesAreSkipped(rows: seq<SlugRow>, scope: Scope, candidates: seq<string>, i: nat)
    requires i <= |candidates| && forall k | 0 <= k < i :: Taken(rows, scope, candidates[k])
    ensures FirstFree(rows, scope, candidates) == FirstFree(rows, scope, candidates[i..])
  {
    if i > 0 {
      assert candidates[1..][i - 1..] == candidates[i..];
      TakenCandidatesAreSkipped(rows, scope, candidates[1..], i - 1);
    }
  }

  lemma OneMoreNumber(stem: string, count: nat)
    ensures Numbers(stem, count + 1) == Numbers(stem, count) + [Numbered(stem, count + 2)]
  {
  }

  /** Judging one more city is the same as judging the larger set, in whatever order the ids come. */
  lemma JudgeOneMore(cfg: Config, listings: seq<ListingRow>, done: set<Id>, id: Id, cities: seq<CityRow>)
    ensures JudgeAll(cfg, listings, {id}, JudgeAll(cfg, listings, done, cities)) ==
            JudgeAll(cfg, listings, done + {id}, cities)
  {
  }

  lemma JudgeNone(cfg: Config, listings: seq<ListingRow>, cities: seq<CityRow>)
    ensures JudgeAll(cfg, listings, {}, cities) == cities
  {
  }

  /** The copy depends only on the categories and the listings. */
  lemma SameCopy(cfg: Config, a: Tables, b: Tables, city: CityRow)
    requires a.categories == b.categories && a.listings == b.listings
    ensures WithIntro(cfg, a, city) == WithIntro(cfg, b, city)
  {
    assert PresentNames(a, city.id) == PresentNames(b, city.id);
  }

  class Seeder {
    const cfg: Config
    var slugs: seq<SlugRow>
    var verticals: seq<VerticalRow>
    var cities: seq<CityRow>
    var categories: seq<CategoryRow>
    var listings: seq<ListingRow>
    var nextId: Id

    var vertical: Id
    var cityIds: map<string, Id>
    var categoryIds: map<string, Id>
    var singulars: map<string, string>
    var routed: set<(Id, Id)>
    var report: Report
    var error: Option<SlugError>

    function Db(): Tables
      reads this
    {
      Tables(slugs, verticals, cities, categories, listings, nextId)
    }

    function State(): Progress
      reads this
    {
      Progress(Db(), vertical, cityIds, categoryIds, singulars, routed, report, error)
    }

    constructor (cfg: Config, db: Tables)
      ensures this.cfg == cfg && Db() == db
    {
      this.cfg := cfg;
      slugs, verticals, cities, categories, listings, nextId :=
        db.slugs, db.verticals, db.cities, db.categories, db.listings, db.nextId;
      vertical, cityIds, categoryIds, singulars := 0, map[], map[], map[];
      routed, report, error := {}, Report(0, 0, 0, 0), None;
    }

    /** One INSERT ... ON CONFLICT DO NOTHING RETURNING. */
    method ClaimSlug(row: SlugRow) returns (claimed: bool)
      modifies this`slugs
      ensures slugs == Claim(old(slugs), row)
      ensures claimed <==> !Taken(old(slugs), row.scope, row.slug)
    {
      claimed := !Taken(slugs, row.scope, row.slug);
      if claimed {
        slugs := slugs + [row];
      }
    }

    /** The candidates in order, as the allocator builds them. */
    method Candidates(desired: string, disambiguator: Option<string>) returns (candidates: seq<string>)
      ensures candidates == Ladder(cfg.words, desired, disambiguator)
    {
      var bare := cfg.words.slugify(desired);
      candidates := [bare];
      var stem := bare;
      if disambiguator.Some? && disambiguator.value != "" {
        stem := cfg.words.slugify(desired + "-" + disambiguator.value);
        if stem != bare {
          candidates := candidates + [stem];
        }
      }
      ghost var first := candidates;
      assert first + Numbers(stem, 0) == first;
      for n := 2 to 51
        invariant candidates == first + Numbers(stem, n - 2)
      {
        OneMoreNumber(stem, n - 2);
        candidates := candidates + [Numbered(stem, n)];
      }
    }

    /** Claims the first candidate nobody holds. */
    method AllocateSlug(scope: Scope, desired: string, kind: Kind, entity: Id, disambiguator: Option<string>)
      returns (outcome: Allocation)
      modifies this`slugs
      ensures outcome == Allocate(cfg.words, old(slugs), scope, desired, disambiguator)
      ensures slugs == if outcome.Allocated? then old(slugs) + [SlugRow(scope, outcome.slug, kind, Some(entity))]
                       else old(slugs)
    {
      var bare := cfg.words.slugify(desired);
      if bare == "" {
        return Refused(NothingSluggable);
      }
      if scope.Root? && cfg.words.lower(bare) in cfg.words.reserved {
        return Refused(ReservedWord);
      }
      var candidates := Candidates(desired, disambiguator);
      for i := 0 to |candidates|
        invariant slugs == old(slugs)
        invariant forall k | 0 <= k < i :: Taken(slugs, scope, candidates[k])
      {
        TakenCandidatesAreSkipped(slugs, scope, candidates, i);
        var claimed := ClaimSlug(SlugRow(scope, candidates[i], kind, Some(entity)));
        if claimed {
          return Allocated(candidates[i]);
        }
      }
      TakenCandidatesAreSkipped(slugs, scope, candidates, |candidates|);
      outcome := Refused(Exhausted);
    }

    method SeedReservedSlugs()
      modifies this`slugs
      ensures slugs == ReserveAll(old(slugs), cfg.words.reserved)
    {
      for i := 0 to |cfg.words.reserved|
        invariant slugs == ReserveAll(old(slugs), cfg.words.reserved[..i])
      {
        var _ := ClaimSlug(SlugRow(Root, cfg.words.reserved[i], Static, None));
        assert cfg.words.reserved[..i + 1][..i] == cfg.words.reserved[..i];
      }
      assert cfg.words.reserved[..|cfg.words.reserved|] == cfg.words.reserved;
    }

    method EnsureVertical()
      requires error.None?
      modifies this
      ensures State() == SeedVertical(cfg, old(State()))
    {
      var existing := Resolve(slugs, Root, cfg.words.lower(cfg.plural));
      if existing.Some? && existing.value.entity.Some? {
        vertical := existing.value.entity.value;
        return;
      }
      var outcome := AllocateSlug(Root, cfg.Plural, Vertical, nextId, None);
      match outcome {
        case Refused(e) => error := Some(e);
        case Allocated(slug) =>
          verticals := verticals + [VerticalRow(nextId, cfg.Plural, slug, cfg.plural)];
          vertical, nextId := nextId, nextId + 1;
      }
    }

    /** The row, the key's id and the count, once the slug is claimed. */
    method AddCity(line: CityLine, slug: string)
      modifies this`cities, this`cityIds, this`report, this`nextId
      ensures cities == old(cities) + [NewCity(cfg, old(nextId), line, slug)] && nextId == old(nextId) + 1
      ensures cityIds == old(cityIds)[CityKey(line.name, Cell(line.region)) := old(nextId)]
      ensures report == old(report).(cities := old(report).cities + 1)
    {
      cities := cities + [NewCity(cfg, nextId, line, slug)];
      cityIds := cityIds[CityKey(line.name, Cell(line.region)) := nextId];
      report := report.(cities := report.cities + 1);
      nextId := nextId + 1;
    }

    method InsertCityRow(line: CityLine)
      modifies this`slugs, this`cities, this`cityIds, this`report, this`nextId, this`error
      ensures State() == InsertCity(cfg, old(State()), line)
    {
      var outcome := AllocateSlug(Root, line.name, City, nextId, Cell(line.region));
      match outcome {
        case Refused(e) => error := Some(e);
        case Allocated(slug) => AddCity(line, slug);
      }
    }

    method CityFromRow(line: CityLine)
      requires error.None?
      modifies this
      ensures State() == SeedCity(cfg, old(State()), line)
    {
      var region := Cell(line.region);
      var existing := FindCity(cities, line.name, region);
      if existing.None? {
        InsertCityRow(line);
        return;
      }
      cityIds := cityIds[CityKey(line.name, region) := existing.value];
      report := report.(skipped := report.skipped + 1);
    }

    method CitiesFromSheet(lines: seq<CityLine>)
      modifies this
      ensures State() == SeedCities(cfg, old(State()), lines)
    {
      if error.Some? {
        CitiesStop(cfg, State(), lines, 0);
        return;
      }
      for i := 0 to |lines|
        invariant error.None? && State() == SeedCities(cfg, old(State()), lines[..i])
      {
        CityFromRow(lines[i]);
        assert lines[..i + 1][..i] == lines[..i];
        if error.Some? {
          CitiesStop(cfg, old(State()), lines, i + 1);
          return;
        }
      }
      assert lines[..|lines|] == lines;
    }

    method RegionSlug(city: CityRow)
      requires error.None?
      modifies this`slugs, this`error
      ensures State() == RegisterRegion(cfg, old(State()), city)
    {
      if city.region.None? {
        return;
      }
      var slug := cfg.words.slugify(city.region.value);
      if slug == "" {
        error := Some(NothingSluggable);
      } else if cfg.words.lower(slug) in cfg.words.reserved {
        error := Some(ReservedWord);
      } else {
        var _ := ClaimSlug(SlugRow(Areas, slug, Region, None));
      }
    }

    /** Each region at most once in effect, because a claimed slug is left alone. */
    method RegionSlugs()
      modifies this`slugs, this`error
      ensures State() == RegisterRegions(cfg, old(State()), cities)
    {
      if error.Some? {
        RegionsStop(cfg, State(), cities, 0);
        return;
      }
      for i := 0 to |cities|
        invariant error.None? && State() == RegisterRegions(cfg, old(State()), cities[..i])
      {
        RegionSlug(cities[i]);
        assert cities[..i + 1][..i] == cities[..i];
        if error.Some? {
          RegionsStop(cfg, old(State()), cities, i + 1);
          return;
        }
      }
      assert cities[..|cities|] == cities;
    }

    method AddCategory(line: CategoryLine, slug: string, singular: string)
      modifies this`categories, this`categoryIds, this`report, this`nextId
      ensures categories == old(categories) + [NewCategory(cfg, old(nextId), vertical, line, slug, singular)]
      ensures nextId == old(nextId) + 1 && categoryIds == old(categoryIds)[line.name := old(nextId)]
      ensures report == old(report).(categories := old(report).categories + 1)
    {
      categories := categories + [NewCategory(cfg, nextId, vertical, line, slug, singular)];
      categoryIds := categoryIds[line.name := nextId];
      report := report.(categories := report.categories + 1);
      nextId := nextId + 1;
    }

    method InsertCategoryRow(line: CategoryLine, singular: string)
      modifies this`slugs, this`categories, this`categoryIds, this`report, this`nextId, this`error
      ensures State() == InsertCategory(cfg, old(State()), line, singular)
    {
      var outcome := AllocateSlug(Root, line.name, Category, nextId, None);
      match outcome {
        case Refused(e) => error := Some(e);
        case Allocated(slug) => AddCategory(line, slug, singular);
      }
    }

    method CategoryFromRow(line: CategoryLine)
      requires error.None?
      modifies this
      ensures State() == SeedCategory(cfg, old(State()), line)
    {
      var singular := OrElse(Cell(line.singular), line.name);
      singulars := singulars[line.name := singular];
      var existing := FindCategory(categories, line.name);
      if existing.None? {
        InsertCategoryRow(line, singular);
        return;
      }
      categoryIds := categoryIds[line.name := existing.value];
      report := report.(skipped := report.skipped + 1);
    }

    method CategoriesFromSheet(lines: seq<CategoryLine>)
      modifies this
      ensures State() == SeedCategories(cfg, old(State()), lines)
    {
      if error.Some? {
        CategoriesStop(cfg, State(), lines, 0);
        return;
      }
      for i := 0 to |lines|
        invariant error.None? && State() == SeedCategories(cfg, old(State()), lines[..i])
      {
        CategoryFromRow(lines[i]);
        assert lines[..i + 1][..i] == lines[..i];
        if error.Some? {
          CategoriesStop(cfg, old(State()), lines, i + 1);
          return;
        }
      }
      assert lines[..|lines|] == lines;
    }

    method RouteInCity(city: Id, category: Id, name: string)
      requires error.None?
      modifies this
      ensures State() == RouteCategory(cfg, old(State()), city, category, name)
    {
      if (city, category) in routed {
        return;
      }
      if !HasRoute(slugs, city, category) {
        var outcome := AllocateSlug(Of(city), name, Category, category, None);
        if outcome.Refused? {
          error := Some(outcome.error);
          return;
        }
      }
      routed := routed + {(city, category)};
    }

    method AddListing(city: Id, category: Id, line: ListingLine, slug: string)
      modifies this`listings, this`report, this`nextId
      ensures listings == old(listings) + [NewListing(singulars, old(nextId), city, vertical, category, line, slug)]
      ensures nextId == old(nextId) + 1 && report == old(report).(listings := old(report).listings + 1)
    {
      listings := listings + [NewListing(singulars, nextId, city, vertical, category, line, slug)];
      report := report.(listings := report.listings + 1);
      nextId := nextId + 1;
    }

    method InsertRow(city: Id, category: Id, line: ListingLine)
      requires error.None?
      modifies this`slugs, this`listings, this`report, this`nextId, this`error
      ensures State() == InsertListing(cfg, old(State()), city, category, line)
    {
      var outcome := AllocateSlug(Of(city), line.name, Listing, nextId, None);
      match outcome {
        case Refused(e) => error := Some(e);
        case Allocated(slug) => AddListing(city, category, line, slug);
      }
    }

    method ListingFromRow(line: ListingLine)
      requires error.None?
      modifies this
      ensures State() == SeedListing(cfg, old(State()), line)
    {
      var key := CityKey(line.city, Cell(line.region));
      if key !in cityIds || line.category !in categoryIds {
        report := report.(skipped := report.skipped + 1);
        return;
      }
      var city, category := cityIds[key], categoryIds[line.category];
      if HasListing(listings, city, line.name) {
        report := report.(skipped := report.skipped + 1);
        return;
      }
      RouteInCity(city, category, line.category);
      if error.None? {
        InsertRow(city, category, line);
      }
    }

    method ListingsFromSheet(lines: seq<ListingLine>)
      modifies this
      ensures State() == SeedListings(cfg, old(State()), lines)
    {
      if error.Some? {
        ListingsStop(cfg, State(), lines, 0);
        return;
      }
      for i := 0 to |lines|
        invariant error.None? && State() == SeedListings(cfg, old(State()), lines[..i])
      {
        ListingFromRow(lines[i]);
        assert lines[..i + 1][..i] == lines[..i];
        if error.Some? {
          ListingsStop(cfg, old(State()), lines, i + 1);
          return;
        }
      }
      assert lines[..|lines|] == lines;
    }

    /** Fills each NULL intro in place. */
    method FillIntroCopy()
      modifies this`cities
      ensures Db() == WriteIntroCopy(cfg, old(Db()))
    {
      for i := 0 to |cities|
        invariant |cities| == |old(cities)|
        invariant forall k | 0 <= k < i :: cities[k] == WithIntro(cfg, old(Db()), old(cities)[k])
        invariant forall k | i <= k < |cities| :: cities[k] == old(cities)[k]
      {
        SameCopy(cfg, Db(), old(Db()), cities[i]);
        if cities[i].intro.None? {
          cities := cities[i := WithIntro(cfg, Db(), cities[i])];
        }
      }
      assert cities == FillIntros(cfg, old(Db()), old(cities));
    }

    /** UPDATE cities SET listing_count, is_indexable WHERE id. */
    method RecomputeCity(id: Id)
      modifies this`cities
      ensures cities == JudgeAll(cfg, listings, {id}, old(cities))
    {
      for i := 0 to |cities|
        invariant |cities| == |old(cities)|
        invariant forall k | 0 <= k < i :: cities[k] == JudgeAmong(cfg, listings, {id}, old(cities)[k])
        invariant forall k | i <= k < |cities| :: cities[k] == old(cities)[k]
      {
        if cities[i].id == id {
          cities := cities[i := Judged(cfg, listings, cities[i])];
        }
      }
      assert cities == JudgeAll(cfg, listings, {id}, old(cities));
    }

    method RecomputeIndexability()
      modifies this`cities
      ensures Db() == Recompute(cfg, old(Db()), cityIds.Values)
    {
      var rest := cityIds.Values;
      JudgeNone(cfg, listings, cities);
      while rest != {}
        invariant rest <= cityIds.Values
        invariant cities == JudgeAll(cfg, listings, cityIds.Values - rest, old(cities))
      {
        var id :| id in rest;
        JudgeOneMore(cfg, listings, cityIds.Values - rest, id, old(cities));
        assert cityIds.Values - rest + {id} == cityIds.Values - (rest - {id});
        RecomputeCity(id);
        rest := rest - {id};
      }
      assert cityIds.Values - rest == cityIds.Values;
    }

    method StartRun()
      modifies this
      ensures State() == Progress(old(Db()), 0, map[], map[], map[], {}, Report(0, 0, 0, 0), None)
    {
      vertical, cityIds, categoryIds, singulars := 0, map[], map[], map[];
      routed, report, error := {}, Report(0, 0, 0, 0), None;
    }

    /** The maps and the report start empty; the reserved slugs come first, then the vertical. */
    method Prepare()
      modifies this
      ensures State() == SeedVertical(cfg, Begin(cfg, old(Db())))
    {
      StartRun();
      SeedReservedSlugs();
      assert State() == Begin(cfg, old(Db()));
      EnsureVertical();
    }

    method InsertRows(sheets: Sheets)
      modifies this
      ensures State() == Insertions(cfg, old(Db()), sheets)
    {
      Prepare();
      CitiesFromSheet(sheets.cities);
      RegionSlugs();
      CategoriesFromSheet(sheets.categories);
      ListingsFromSheet(sheets.listings);
    }

    /** The script itself: what it leaves behind, finished or stopped by a throw, is what Run says. */
    method RunSeed(sheets: Sheets)
      modifies this
      ensures State() == Run(cfg, old(Db()), sheets)
    {
      InsertRows(sheets);
      if error.None? {
        FillIntroCopy();
        RecomputeIndexability();
      }
    }
  }
}
