/** When the configured plural resolves to its vertical, which is what running the seed twice depends on. */
module SeedPlural {
  import opened SlugRegistry
  import opened Wrappers
  import opened Seed
  import opened SeedIdempotence
  import Decimals

  // ---- A plural of two words ---------------------------------------------------------------------------

  predicate NoSpace(s: string) {
    ' ' !in s
  }

  ghost predicate SpaceFree(slugs: seq<SlugRow>) {
    forall i | 0 <= i < |slugs| :: NoSpace(slugs[i].slug)
  }

  ghost predicate SlugsHaveNoSpace(w: Words) {
    (forall s :: NoSpace(w.slugify(s))) && forall i | 0 <= i < |w.reserved| :: NoSpace(w.reserved[i])
  }

  lemma NumberedHasNoSpace(stem: string, n: nat)
    requires NoSpace(stem)
    ensures NoSpace(Numbered(stem, n))
  {
    var s, digits := Numbered(stem, n), Decimals.Print(n);
    assert s == stem + "-" + digits;
    forall i | 0 <= i < |s| ensures s[i] != ' ' {
      assert i > |stem| ==> s[i] == digits[i - |stem| - 1];
    }
  }

  lemma RungHasNoSpace(w: Words, desired: string, disambiguator: Option<string>, k: nat)
    requires SlugsHaveNoSpace(w) && k < |Ladder(w, desired, disambiguator)|
    ensures NoSpace(Ladder(w, desired, disambiguator)[k])
  {
    var bare := w.slugify(desired);
    var stem := if OrElse(disambiguator, "") == "" then bare else w.slugify(desired + "-" + disambiguator.value);
    var rung := Ladder(w, desired, disambiguator)[k];
    assert NoSpace(bare) && NoSpace(stem);
    if rung != bare && rung != stem {
      var n: nat :| rung == Numbered(stem, n);
      NumberedHasNoSpace(stem, n);
    }
  }

  lemma AllocatesNoSpace(w: Words, rows: seq<SlugRow>, scope: Scope, desired: string, disambiguator: Option<string>)
    requires SlugsHaveNoSpace(w)
    ensures var a := Allocate(w, rows, scope, desired, disambiguator); a.Allocated? ==> NoSpace(a.slug)
  {
    FirstFreeIsFirst(rows, scope, Ladder(w, desired, disambiguator));
    var a := Allocate(w, rows, scope, desired, disambiguator);
    if a.Allocated? {
      var rungs := Ladder(w, desired, disambiguator);
      var k :| 0 <= k < |rungs| && rungs[k] == a.slug;
      RungHasNoSpace(w, desired, disambiguator, k);
    }
  }

  lemma {:induction false} ReservesNoSpace(slugs: seq<SlugRow>, reserved: seq<string>)
    requires SpaceFree(slugs) && forall i | 0 <= i < |reserved| :: NoSpace(reserved[i])
    ensures SpaceFree(ReserveAll(slugs, reserved))
  {
    if reserved != [] {
      ReservesNoSpace(slugs, reserved[..|reserved| - 1]);
    }
  }

  lemma {:induction false} CitiesHaveNoSpace(cfg: Config, s: Progress, lines: seq<CityLine>)
    requires SlugsHaveNoSpace(cfg.words) && SpaceFree(s.db.slugs)
    ensures SpaceFree(SeedCities(cfg, s, lines).db.slugs)
  {
    if lines != [] {
      var mid, line := SeedCities(cfg, s, lines[..|lines| - 1]), lines[|lines| - 1];
      CitiesHaveNoSpace(cfg, s, lines[..|lines| - 1]);
      AllocatesNoSpace(cfg.words, mid.db.slugs, Root, line.name, Cell(line.region));
    }
  }

  lemma {:induction false} RegionsHaveNoSpace(cfg: Config, s: Progress, cities: seq<CityRow>)
    requires SlugsHaveNoSpace(cfg.words) && SpaceFree(s.db.slugs)
    ensures SpaceFree(RegisterRegions(cfg, s, cities).db.slugs)
  {
    if cities != [] {
      RegionsHaveNoSpace(cfg, s, cities[..|cities| - 1]);
    }
  }

  lemma {:induction false} CategoriesHaveNoSpace(cfg: Config, s: Progress, lines: seq<CategoryLine>)
    requires SlugsHaveNoSpace(cfg.words) && SpaceFree(s.db.slugs)
    ensures SpaceFree(SeedCategories(cfg, s, lines).db.slugs)
  {
    if lines != [] {
      var mid, line := SeedCategories(cfg, s, lines[..|lines| - 1]), lines[|lines| - 1];
      CategoriesHaveNoSpace(cfg, s, lines[..|lines| - 1]);
      AllocatesNoSpace(cfg.words, mid.db.slugs, Root, line.name, None);
    }
  }

  lemma ListingHasNoSpace(cfg: Config, s: Progress, line: ListingLine)
    requires SlugsHaveNoSpace(cfg.words) && SpaceFree(s.db.slugs)
    ensures SpaceFree(SeedListing(cfg, s, line).db.slugs)
  {
    var key := CityKey(line.city, Cell(line.region));
    if key in s.cityIds && line.category in s.categoryIds {
      var city, category := s.cityIds[key], s.categoryIds[line.category];
      var mid := RouteCategory(cfg, s, city, category, line.category);
      AllocatesNoSpace(cfg.words, s.db.slugs, Of(city), line.category, None);
      AllocatesNoSpace(cfg.words, mid.db.slugs, Of(city), line.name, None);
    }
  }

  lemma {:induction false} ListingsHaveNoSpace(cfg: Config, s: Progress, lines: seq<ListingLine>)
    requires SlugsHaveNoSpace(cfg.words) && SpaceFree(s.db.slugs)
    ensures SpaceFree(SeedListings(cfg, s, lines).db.slugs)
  {
    if lines != [] {
      ListingsHaveNoSpace(cfg, s, lines[..|lines| - 1]);
      ListingHasNoSpace(cfg, SeedListings(cfg, s, lines[..|lines| - 1]), lines[|lines| - 1]);
    }
  }

  /**
   The lookup is by the plural itself, the allocation by the slug of the title-case plural. A plural of two
   words therefore never resolves, whatever the tables and sheets: by SecondRunChangesNothing, running such a
   site's seed twice always throws or creates a second vertical.
   */
  lemma TwoWordPluralNeverResolves(cfg: Config, db: Tables, sheets: Sheets)
    requires Run(cfg, db, sheets).error.None?
    requires SlugsHaveNoSpace(cfg.words) && SpaceFree(db.slugs) && !NoSpace(cfg.words.lower(cfg.plural))
    ensures var first := Run(cfg, db, sheets).db;
            var second := Run(cfg, first, sheets);
            KnownVertical(cfg, first).None? && !(second.error.None? && second.db == first)
  {
    var s0 := Begin(cfg, db);
    var s1 := SeedVertical(cfg, s0);
    var s2 := SeedCities(cfg, s1, sheets.cities);
    var s3 := RegisterRegions(cfg, s2, s2.db.cities);
    ReservesNoSpace(db.slugs, cfg.words.reserved);
    AllocatesNoSpace(cfg.words, s0.db.slugs, Root, cfg.Plural, None);
    CitiesHaveNoSpace(cfg, s1, sheets.cities);
    RegionsHaveNoSpace(cfg, s2, s2.db.cities);
    CategoriesHaveNoSpace(cfg, s3, sheets.categories);
    ListingsHaveNoSpace(cfg, SeedCategories(cfg, s3, sheets.categories), sheets.listings);
    var first := Run(cfg, db, sheets).db;
    assert SpaceFree(first.slugs);
    ResolveIsFirst(first.slugs, Root, cfg.words.lower(cfg.plural));
    SecondRunChangesNothing(cfg, db, sheets);
  }

  // ---- Two runs with such a plural ---------------------------------------------------------------------

  function Hyphenated(s: string): string {
    if s == [] then "" else [if s[0] == ' ' then '-' else s[0]] + Hyphenated(s[1..])
  }

  lemma {:induction false} HyphenatedHasNoSpace(s: string)
    ensures NoSpace(Hyphenated(s)) && |Hyphenated(s)| == |s|
  {
    if s != [] {
      HyphenatedHasNoSpace(s[1..]);
    }
  }

  function PlainSite(plural: string, title: string): Config {
    Config(Words((s: string) => Hyphenated(s), (s: string) => s, []), "Site", plural, title,
           "GB", 1, true, (names: set<string>) => [], (names: seq<string>) => "")
  }

  function NoTables(): Tables {
    Tables([], [], [], [], [], 0)
  }

  function NoSheets(): Sheets {
    Sheets([], [], [])
  }

  /** Without rows in the sheets or cities in the tables a run is its vertical. */
  lemma RunIsItsVertical(cfg: Config, db: Tables)
    requires cfg.words.reserved == [] && db.cities == []
    ensures Run(cfg, db, NoSheets()) == Derive(cfg, SeedVertical(cfg, Begin(cfg, db)))
    ensures Run(cfg, db, NoSheets()).db == SeedVertical(cfg, Begin(cfg, db)).db
    ensures Run(cfg, db, NoSheets()).error == SeedVertical(cfg, Begin(cfg, db)).error
    ensures Begin(cfg, db).db == db
  {
    var s := SeedVertical(cfg, Begin(cfg, db));
    assert s.db.cities == [];
    assert FillIntros(cfg, s.db, []) == [] && JudgeAll(cfg, s.db.listings, s.cityIds.Values, []) == [];
  }

  /** Each run over tables without that plural makes a vertical, under the first free slug. */
  lemma MakesAVertical(cfg: Config, db: Tables, slug: string)
    requires cfg.words.reserved == [] && db.cities == [] && KnownVertical(cfg, db).None?
    requires Allocate(cfg.words, db.slugs, Root, cfg.Plural, None) == Allocated(slug)
    ensures var r := Run(cfg, db, NoSheets());
            && r.error.None?
            && r.db.slugs == db.slugs + [SlugRow(Root, slug, Vertical, Some(db.nextId))]
            && r.db.verticals == db.verticals + [VerticalRow(db.nextId, cfg.Plural, slug, cfg.plural)]
            && r.db.cities == []
  {
    RunIsItsVertical(cfg, db);
  }

  /** On an empty database, with empty sheets: both runs complete, and the second makes a second vertical. */
  ghost predicate MakesTwoVerticals(cfg: Config) {
    var first := Run(cfg, NoTables(), NoSheets());
    var second := Run(cfg, first.db, NoSheets());
    first.error.None? && second.error.None? && |first.db.verticals| == 1 && |second.db.verticals| == 2
  }

  ghost predicate TwoWords(cfg: Config) {
    && cfg.words.reserved == [] && SlugsHaveNoSpace(cfg.words) && cfg.words.slugify(cfg.Plural) != ""
    && !NoSpace(cfg.words.lower(cfg.plural))
  }

  lemma TheSecondRunMakesASecondVertical(cfg: Config)
    requires TwoWords(cfg)
    ensures MakesTwoVerticals(cfg)
  {
    var bare := cfg.words.slugify(cfg.Plural);
    assert Ladder(cfg.words, cfg.Plural, None)[0] == bare;
    MakesAVertical(cfg, NoTables(), bare);
    var first := Run(cfg, NoTables(), NoSheets());
    TwoWordPluralNeverResolves(cfg, NoTables(), NoSheets());
    SecondRungIsFree(cfg.words, first.db.slugs, cfg.Plural);
    MakesAVertical(cfg, first.db, Numbered(bare, 2));
  }

  lemma SecondRungIsFree(w: Words, rows: seq<SlugRow>, desired: string)
    requires w.reserved == [] && w.slugify(desired) != ""
    requires |rows| == 1 && rows[0].scope == Root && rows[0].slug == w.slugify(desired)
    ensures Allocate(w, rows, Root, desired, None) == Allocated(Numbered(w.slugify(desired), 2))
  {
    var bare := w.slugify(desired);
    var rungs := Ladder(w, desired, None);
    assert rungs[0] == bare && rungs[1..] == Numbers(bare, 49) && rungs[1..][0] == Numbered(bare, 2);
    assert Taken(rows, Root, bare) by { assert rows[0].slug == bare; }
    assert |Numbered(bare, 2)| > |bare|;
    assert FirstFree(rows, Root, rungs[1..]) == Some(Numbered(bare, 2));
  }

  /** Such sites are those of any plural with a space, with spaces hyphenated in slugs. */
  lemma SpacedPluralMakesTwo(plural: string, title: string)
    requires !NoSpace(plural) && title != ""
    ensures MakesTwoVerticals(PlainSite(plural, title))
  {
    var cfg := PlainSite(plural, title);
    forall s ensures NoSpace(cfg.words.slugify(s)) {
      HyphenatedHasNoSpace(s);
    }
    HyphenatedHasNoSpace(title);
    TheSecondRunMakesASecondVertical(cfg);
  }

  lemma WeddingVenuesMakeTwo()
    ensures MakesTwoVerticals(PlainSite("wedding venues", "Wedding Venues"))
  {
    assert "wedding venues"[7] == ' ';
    SpacedPluralMakesTwo("wedding venues", "Wedding Venues");
  }

  // ---- A plural that is its own slug -------------------------------------------------------------------

  /** Root rows that point at no entity are the reserved words. */
  ghost predicate OnlyReservedAreStatic(w: Words, slugs: seq<SlugRow>) {
    forall i | 0 <= i < |slugs| && slugs[i].scope == Root && slugs[i].entity.None? :: slugs[i].slug in w.reserved
  }

  lemma {:induction false} ReservedAreStatic(w: Words, slugs: seq<SlugRow>, reserved: seq<string>)
    requires OnlyReservedAreStatic(w, slugs) && forall i | 0 <= i < |reserved| :: reserved[i] in w.reserved
    ensures OnlyReservedAreStatic(w, ReserveAll(slugs, reserved))
  {
    if reserved != [] {
      ReservedAreStatic(w, slugs, reserved[..|reserved| - 1]);
    }
  }

  lemma {:induction false} ResolveSurvives(a: seq<SlugRow>, b: seq<SlugRow>, scope: Scope, slug: string)
    requires a <= b && Resolve(a, scope, slug).Some?
    ensures Resolve(b, scope, slug) == Resolve(a, scope, slug)
  {
    if !(a[0].scope == scope && a[0].slug == slug) {
      ResolveSurvives(a[1..], b[1..], scope, slug);
    }
  }

  lemma {:induction false} ResolveAppended(rows: seq<SlugRow>, row: SlugRow)
    requires Resolve(rows, row.scope, row.slug).None?
    ensures Resolve(rows + [row], row.scope, row.slug) == Some(row)
  {
    if rows != [] {
      ResolveAppended(rows[1..], row);
      assert (rows + [row])[1..] == rows[1..] + [row];
    }
  }

  /** The plural as looked up is the slug the vertical is given, and lower-casing leaves it alone. */
  ghost predicate IsItsOwnSlug(cfg: Config) {
    var p := cfg.words.lower(cfg.plural);
    p == cfg.words.slugify(cfg.Plural) && cfg.words.lower(p) == p
  }

  lemma FreeSlugIsAllocated(w: Words, rows: seq<SlugRow>, desired: string)
    requires !Taken(rows, Root, w.slugify(desired))
    ensures var a := Allocate(w, rows, Root, desired, None); a.Allocated? ==> a.slug == w.slugify(desired)
  {
    assert Ladder(w, desired, None)[0] == w.slugify(desired);
  }

  lemma VerticalResolves(cfg: Config, db: Tables)
    requires IsItsOwnSlug(cfg) && OnlyReservedAreStatic(cfg.words, db.slugs)
    requires SeedVertical(cfg, Begin(cfg, db)).error.None?
    ensures KnownVertical(cfg, SeedVertical(cfg, Begin(cfg, db)).db).Some?
  {
    var s0 := Begin(cfg, db);
    var p, rows := cfg.words.lower(cfg.plural), s0.db.slugs;
    assert forall i | 0 <= i < |cfg.words.reserved| :: cfg.words.reserved[i] in cfg.words.reserved;
    ReservedAreStatic(cfg.words, db.slugs, cfg.words.reserved);
    ResolveIsFirst(rows, Root, p);
    if Resolve(rows, Root, p).None? {
      FreeSlugIsAllocated(cfg.words, rows, cfg.Plural);
      ResolveAppended(rows, SlugRow(Root, p, Vertical, Some(s0.db.nextId)));
    }
  }

  /**
   A plural that is its own slug always resolves after a completed run, so for such a site -- over a registry
   whose entity-less root rows are the reserved words -- running the seed twice is running it once.
   */
  lemma OneWordPluralIsIdempotent(cfg: Config, db: Tables, sheets: Sheets)
    requires Run(cfg, db, sheets).error.None?
    requires IsItsOwnSlug(cfg) && OnlyReservedAreStatic(cfg.words, db.slugs)
    ensures var first := Run(cfg, db, sheets).db;
            var second := Run(cfg, first, sheets);
            second.error.None? && second.db == first
            && second.report == Report(0, 0, 0, |sheets.cities| + |sheets.categories| + |sheets.listings|)
  {
    InsertionsLeave(cfg, db, sheets);
    BeforeListingsLeaves(cfg, db, sheets);
    VerticalResolves(cfg, db);
    var first := Run(cfg, db, sheets).db;
    ResolveSurvives(SeedVertical(cfg, Begin(cfg, db)).db.slugs, first.slugs, Root, cfg.words.lower(cfg.plural));
    SecondRunChangesNothing(cfg, db, sheets);
  }
}
