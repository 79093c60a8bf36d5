/** What one run of the seed does to the tables: three loops over sheet rows, then the two derived phases. */
module Seed {
  import opened SlugRegistry
  import opened Wrappers
  import Text = SeedText

  datatype CityRow = CityRow(id: Id, name: string, slug: string, region: Option<string>, country: string,
                             intro: Option<string>, listingCount: nat, isIndexable: bool)
  datatype CategoryRow = CategoryRow(id: Id, vertical: Id, name: string, slug: string, singular: string, plural: string)
  datatype ListingRow = ListingRow(id: Id, name: string, slug: string, city: Id, vertical: Id, category: Id,
                                   published: bool, description: string)
  datatype VerticalRow = VerticalRow(id: Id, name: string, slug: string, plural: string)

  /** Tables in insertion order; `nextId` stands for randomUUID, so no id at or above it is in use. */
  datatype Tables = Tables(slugs: seq<SlugRow>, verticals: seq<VerticalRow>, cities: seq<CityRow>,
                           categories: seq<CategoryRow>, listings: seq<ListingRow>, nextId: Id)

  datatype CityLine = CityLine(name: string, region: string, country: string)
  datatype CategoryLine = CategoryLine(name: string, singular: string, plural: string)
  datatype ListingLine = ListingLine(name: string, city: string, region: string, category: string)
  datatype Sheets = Sheets(cities: seq<CityLine>, categories: seq<CategoryLine>, listings: seq<ListingLine>)

  /** siteConfig, and the locale-dependent helpers the copy is written with. */
  datatype Config = Config(words: Words, siteName: string, plural: string, Plural: string, country: string,
                           minListings: nat, requireIntro: bool,
                           sorted: set<string> -> seq<string>, listFormat: seq<string> -> string)

  datatype Report = Report(cities: nat, categories: nat, listings: nat, skipped: nat)

  /** Where a run has got to; a SlugError stops it where it is. */
  datatype Progress = Progress(db: Tables, vertical: Id, cityIds: map<string, Id>, categoryIds: map<string, Id>,
                               singulars: map<string, string>, routed: set<(Id, Id)>, report: Report,
                               error: Option<SlugError>)

  /** An absent cell is NULL, not "". */
  function Cell(value: string): Option<string> {
    if value == "" then None else Some(value)
  }

  function OrElse(value: Option<string>, default: string): string {
    if value.Some? then value.value else default
  }

  function CityKey(name: string, region: Option<string>): string {
    name + "|" + OrElse(region, "")
  }

  // ---- Lookups, each LIMIT 1 in table order ------------------------------------------------------

  function FindCity(cities: seq<CityRow>, name: string, region: Option<string>): Option<Id> {
    if cities == [] then None
    else if cities[0].name == name && cities[0].region == region then Some(cities[0].id)
    else FindCity(cities[1..], name, region)
  }

  function FindCategory(categories: seq<CategoryRow>, name: string): Option<Id> {
    if categories == [] then None
    else if categories[0].name == name then Some(categories[0].id)
    else FindCategory(categories[1..], name)
  }

  predicate HasListing(listings: seq<ListingRow>, city: Id, name: string) {
    exists i :: 0 <= i < |listings| && listings[i].city == city && listings[i].name == name
  }

  predicate HasRoute(slugs: seq<SlugRow>, city: Id, category: Id) {
    exists i :: 0 <= i < |slugs| && slugs[i].scope == Of(city) && slugs[i].entity == Some(category)
  }

  // ---- The steps of a run ------------------------------------------------------------------------

  function ReserveAll(slugs: seq<SlugRow>, reserved: seq<string>): seq<SlugRow> {
    if reserved == [] then slugs
    else
      Claim(ReserveAll(slugs, reserved[..|reserved| - 1]),
            SlugRow(Root, reserved[|reserved| - 1], Static, None))
  }

  /** The lookup is by the lower-cased plural itself, while the allocation slugifies the title-case one. */
  function KnownVertical(cfg: Config, db: Tables): Option<Id> {
    match Resolve(db.slugs, Root, cfg.words.lower(cfg.plural))
    case Some(row) => row.entity
    case None => None
  }

  function Begin(cfg: Config, db: Tables): Progress {
    var reserved := db.(slugs := ReserveAll(db.slugs, cfg.words.reserved));
    Progress(reserved, 0, map[], map[], map[], {}, Report(0, 0, 0, 0), None)
  }

  function SeedVertical(cfg: Config, s: Progress): Progress {
    var db := s.db;
    match KnownVertical(cfg, db)
    case Some(id) => s.(vertical := id)
    case None =>
      match Allocate(cfg.words, db.slugs, Root, cfg.Plural, None)
      case Refused(error) => s.(error := Some(error))
      case Allocated(slug) =>
        s.(vertical := db.nextId,
           db := db.(slugs := db.slugs + [SlugRow(Root, slug, Vertical, Some(db.nextId))],
                     verticals := db.verticals + [VerticalRow(db.nextId, cfg.Plural, slug, cfg.plural)],
                     nextId := db.nextId + 1))
  }

  function NewCity(cfg: Config, id: Id, line: CityLine, slug: string): CityRow {
    CityRow(id, line.name, slug, Cell(line.region), OrElse(Cell(line.country), cfg.country), None, 0, false)
  }

  function InsertCity(cfg: Config, s: Progress, line: CityLine): Progress {
    var db, region := s.db, Cell(line.region);
    match Allocate(cfg.words, db.slugs, Root, line.name, region)
    case Refused(error) => s.(error := Some(error))
    case Allocated(slug) =>
      s.(cityIds := s.cityIds[CityKey(line.name, region) := db.nextId],
         report := s.report.(cities := s.report.cities + 1),
         db := db.(slugs := db.slugs + [SlugRow(Root, slug, City, Some(db.nextId))],
                   cities := db.cities + [NewCity(cfg, db.nextId, line, slug)], nextId := db.nextId + 1))
  }

  function SeedCity(cfg: Config, s: Progress, line: CityLine): Progress {
    var region := Cell(line.region);
    if s.error.Some? then s
    else
      match FindCity(s.db.cities, line.name, region)
      case Some(id) =>
        s.(cityIds := s.cityIds[CityKey(line.name, region) := id], report := s.report.(skipped := s.report.skipped + 1))
      case None => InsertCity(cfg, s, line)
  }

  function SeedCities(cfg: Config, s: Progress, lines: seq<CityLine>): Progress {
    if lines == [] then s
    else SeedCity(cfg, SeedCities(cfg, s, lines[..|lines| - 1]), lines[|lines| - 1])
  }

  /** One city's region; a region's registry row points at no entity. */
  function RegisterRegion(cfg: Config, s: Progress, city: CityRow): Progress {
    if s.error.Some? || city.region.None? then s
    else
      var slug := cfg.words.slugify(city.region.value);
      if slug == "" then s.(error := Some(NothingSluggable))
      else if cfg.words.lower(slug) in cfg.words.reserved then s.(error := Some(ReservedWord))
      else s.(db := s.db.(slugs := Claim(s.db.slugs, SlugRow(Areas, slug, Region, None))))
  }

  function RegisterRegions(cfg: Config, s: Progress, cities: seq<CityRow>): Progress {
    if cities == [] then s
    else RegisterRegion(cfg, RegisterRegions(cfg, s, cities[..|cities| - 1]), cities[|cities| - 1])
  }

  function NewCategory(cfg: Config, id: Id, vertical: Id, line: CategoryLine, slug: string, singular: string)
    : CategoryRow
  {
    CategoryRow(id, vertical, line.name, slug, singular, OrElse(Cell(line.plural), cfg.words.lower(line.name)))
  }

  function InsertCategory(cfg: Config, s: Progress, line: CategoryLine, singular: string): Progress {
    var db := s.db;
    match Allocate(cfg.words, db.slugs, Root, line.name, None)
    case Refused(error) => s.(error := Some(error))
    case Allocated(slug) =>
      var row := NewCategory(cfg, db.nextId, s.vertical, line, slug, singular);
      s.(categoryIds := s.categoryIds[line.name := db.nextId],
         report := s.report.(categories := s.report.categories + 1),
         db := db.(slugs := db.slugs + [SlugRow(Root, slug, Category, Some(db.nextId))],
                   categories := db.categories + [row], nextId := db.nextId + 1))
  }

  function SeedCategory(cfg: Config, s: Progress, line: CategoryLine): Progress {
    var singular := OrElse(Cell(line.singular), line.name);
    if s.error.Some? then s
    else
      var s1 := s.(singulars := s.singulars[line.name := singular]);
      match FindCategory(s.db.categories, line.name)
      case Some(id) =>
        s1.(categoryIds := s.categoryIds[line.name := id], report := s.report.(skipped := s.report.skipped + 1))
      case None => InsertCategory(cfg, s1, line, singular)
  }

  function SeedCategories(cfg: Config, s: Progress, lines: seq<CategoryLine>): Progress {
    if lines == [] then s
    else SeedCategory(cfg, SeedCategories(cfg, s, lines[..|lines| - 1]), lines[|lines| - 1])
  }

  /** /[city]/[category] gets a slug row the first time a listing needs it. */
  function RouteCategory(cfg: Config, s: Progress, city: Id, category: Id, name: string): Progress {
    if (city, category) in s.routed then s
    else if HasRoute(s.db.slugs, city, category) then s.(routed := s.routed + {(city, category)})
    else
      match Allocate(cfg.words, s.db.slugs, Of(city), name, None)
      case Refused(error) => s.(error := Some(error))
      case Allocated(slug) =>
        s.(routed := s.routed + {(city, category)},
           db := s.db.(slugs := s.db.slugs + [SlugRow(Of(city), slug, Category, Some(category))]))
  }

  function NewListing(singulars: map<string, string>, id: Id, city: Id, vertical: Id, category: Id, line: ListingLine,
                      slug: string): ListingRow
  {
    var singular := if line.category in singulars then singulars[line.category] else line.category;
    ListingRow(id, line.name, slug, city, vertical, category, true,
               line.name + " is a " + singular + " in " + line.city + ".")
  }

  function InsertListing(cfg: Config, s: Progress, city: Id, category: Id, line: ListingLine): Progress {
    var db := s.db;
    if s.error.Some? then s
    else
      match Allocate(cfg.words, db.slugs, Of(city), line.name, None)
      case Refused(error) => s.(error := Some(error))
      case Allocated(slug) =>
        var row := NewListing(s.singulars, db.nextId, city, s.vertical, category, line, slug);
        s.(report := s.report.(listings := s.report.listings + 1),
           db := db.(slugs := db.slugs + [SlugRow(Of(city), slug, Listing, Some(db.nextId))],
                     listings := db.listings + [row], nextId := db.nextId + 1))
  }

  function SeedListing(cfg: Config, s: Progress, line: ListingLine): Progress {
    var key := CityKey(line.city, Cell(line.region));
    if s.error.Some? then s
    else if key !in s.cityIds || line.category !in s.categoryIds then
      s.(report := s.report.(skipped := s.report.skipped + 1))
    else
      var city, category := s.cityIds[key], s.categoryIds[line.category];
      if HasListing(s.db.listings, city, line.name) then s.(report := s.report.(skipped := s.report.skipped + 1))
      else InsertListing(cfg, RouteCategory(cfg, s, city, category, line.category), city, category, line)
  }

  function SeedListings(cfg: Config, s: Progress, lines: seq<ListingLine>): Progress {
    if lines == [] then s
    else SeedListing(cfg, SeedListings(cfg, s, lines[..|lines| - 1]), lines[|lines| - 1])
  }

  // ---- Derived columns -----------------------------------------------------------------------------

  predicate InTown(l: ListingRow, city: Id) {
    l.city == city && l.published
  }

  /** Names of the categories with a published listing in the city. */
  function PresentNames(db: Tables, city: Id): set<string> {
    set c, l | c in db.categories && l in db.listings && InTown(l, city) && l.category == c.id :: c.name
  }

  function TakeThree(names: seq<string>): seq<string> {
    if |names| > 3 then names[..3] else names
  }

  function MapEscapedLower(words: Words, names: seq<string>): seq<string> {
    seq(|names|, i requires 0 <= i < |names| => Text.EscapeHtml(words.lower(names[i])))
  }

  const SOME_OF := " Categories include "
  const ALL_OF := " They include "
  const THEN_EVERY_ENTRY :=
    "</p><p>Every entry has its own page with an address, contact details and an enquiry form, so you can compare "
  const SIDE_BY_SIDE := " side by side before you get in touch.</p>"

  function Place(city: string, region: Option<string>): string {
    Text.EscapeHtml(if OrElse(region, "") == "" then city else city + ", " + region.value)
  }

  /** The sentence about categories, if there are any. */
  function Coverage(cfg: Config, names: seq<string>): string {
    var named := TakeThree(names);
    if named == [] then ""
    else
      (if |names| > |named| then SOME_OF else ALL_OF) + cfg.listFormat(MapEscapedLower(cfg.words, named)) + "."
  }

  function Opening(site: string, noun: string, place: string): string {
    "<p>" + site + " lists " + noun + " in " + place + "."
  }

  function Closing(noun: string, place: string): string {
    THEN_EVERY_ENTRY + noun + " in " + place + SIDE_BY_SIDE
  }

  function BuildIntro(cfg: Config, city: string, region: Option<string>, names: seq<string>): string {
    var noun, place := Text.EscapeHtml(cfg.plural), Place(city, region);
    Opening(Text.EscapeHtml(cfg.siteName), noun, place) + Coverage(cfg, names) + Closing(noun, place)
  }

  /** Only where intro_html IS NULL: an editor's copy is never overwritten. */
  function WithIntro(cfg: Config, db: Tables, city: CityRow): CityRow {
    if city.intro.Some? then city
    else city.(intro := Some(BuildIntro(cfg, city.name, city.region, cfg.sorted(PresentNames(db, city.id)))))
  }

  function FillIntros(cfg: Config, db: Tables, cities: seq<CityRow>): (filled: seq<CityRow>)
    ensures |filled| == |cities|
    ensures forall i | 0 <= i < |cities| :: filled[i] == WithIntro(cfg, db, cities[i])
  {
    if cities == [] then []
    else FillIntros(cfg, db, cities[..|cities| - 1]) + [WithIntro(cfg, db, cities[|cities| - 1])]
  }

  function WriteIntroCopy(cfg: Config, db: Tables): Tables {
    db.(cities := FillIntros(cfg, db, db.cities))
  }

  function PublishedCount(listings: seq<ListingRow>, city: Id): nat {
    if listings == [] then 0
    else
      PublishedCount(listings[..|listings| - 1], city) + if InTown(listings[|listings| - 1], city) then 1 else 0
  }

  predicate HasIntro(intro: Option<string>) {
    intro.Some? && Text.Trim(intro.value) != ""
  }

  /** decideIndexability */
  predicate Decide(cfg: Config, count: nat, intro: Option<string>) {
    count >= cfg.minListings && (HasIntro(intro) || !cfg.requireIntro)
  }

  function Judged(cfg: Config, listings: seq<ListingRow>, city: CityRow): CityRow {
    var count := PublishedCount(listings, city.id);
    city.(listingCount := count, isIndexable := Decide(cfg, count, city.intro))
  }

  function JudgeAmong(cfg: Config, listings: seq<ListingRow>, ids: set<Id>, city: CityRow): CityRow {
    if city.id in ids then Judged(cfg, listings, city) else city
  }

  function JudgeAll(cfg: Config, listings: seq<ListingRow>, ids: set<Id>, cities: seq<CityRow>): (judged: seq<CityRow>)
    ensures |judged| == |cities|
    ensures forall i | 0 <= i < |cities| :: judged[i] == JudgeAmong(cfg, listings, ids, cities[i])
  {
    if cities == [] then []
    else JudgeAll(cfg, listings, ids, cities[..|cities| - 1]) + [JudgeAmong(cfg, listings, ids, cities[|cities| - 1])]
  }

  function Recompute(cfg: Config, db: Tables, ids: set<Id>): Tables {
    db.(cities := JudgeAll(cfg, db.listings, ids, db.cities))
  }

  // ---- A whole run ---------------------------------------------------------------------------------

  /** Everything up to the derived columns. */
  function Insertions(cfg: Config, db: Tables, sheets: Sheets): Progress {
    var s := SeedCities(cfg, SeedVertical(cfg, Begin(cfg, db)), sheets.cities);
    SeedListings(cfg, SeedCategories(cfg, RegisterRegions(cfg, s, s.db.cities), sheets.categories), sheets.listings)
  }

  /** Intro copy first, then the gate. */
  function Derive(cfg: Config, s: Progress): Progress {
    if s.error.Some? then s
    else s.(db := Recompute(cfg, WriteIntroCopy(cfg, s.db), s.cityIds.Values))
  }

  /** The two derived phases the other way round, as they used to be. */
  function DeriveSwapped(cfg: Config, s: Progress): Progress {
    if s.error.Some? then s
    else s.(db := WriteIntroCopy(cfg, Recompute(cfg, s.db, s.cityIds.Values)))
  }

  function Run(cfg: Config, db: Tables, sheets: Sheets): Progress {
    Derive(cfg, Insertions(cfg, db, sheets))
  }

  function RunSwapped(cfg: Config, db: Tables, sheets: Sheets): Progress {
    DeriveSwapped(cfg, Insertions(cfg, db, sheets))
  }
}
