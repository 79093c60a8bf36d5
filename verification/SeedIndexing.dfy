/** One run reaches the indexing fixpoint, because the copy is written before the gate is recomputed. */
module SeedIndexing {
  import opened SlugRegistry
  import opened Wrappers
  import opened Seed
  import opened SeedIdempotence
  import opened SeedRouting
  import Text = SeedText

  /** Nothing the two derived phases would still change. */
  ghost predicate Fixpoint(cfg: Config, db: Tables, ids: set<Id>) {
    WriteIntroCopy(cfg, db) == db && Recompute(cfg, db, ids) == db
  }

  // ---- Generated copy is copy ----------------------------------------------------------------------

  lemma {:induction false} TrimEndKeepsAStart(s: string)
    requires s != [] && !Text.IsSpace(s[0])
    ensures Text.TrimEnd(s) != []
  {
    if Text.IsSpace(s[|s| - 1]) {
      TrimEndKeepsAStart(s[..|s| - 1]);
    }
  }

  lemma GeneratedCopyCounts(cfg: Config, city: string, region: Option<string>, names: seq<string>)
    ensures HasIntro(Some(BuildIntro(cfg, city, region, names)))
  {
    var html := BuildIntro(cfg, city, region, names);
    assert html[0] == '<';
    TrimEndKeepsAStart(html);
  }

  // ---- Copy without text in it ---------------------------------------------------------------------

  predicate AllSpace(s: string) {
    forall i | 0 <= i < |s| :: Text.IsSpace(s[i])
  }

  predicate HasTag(html: string) {
    exists i, j :: 0 <= i < j < |html| && html[i] == '<' && html[j] == '>'
  }

  predicate HasText(html: string) {
    Text.StripTags(html) != ""
  }

  lemma {:induction false} TrimEndIsEmptyIff(s: string)
    ensures Text.TrimEnd(s) == "" <==> AllSpace(s)
  {
    if s != [] && Text.IsSpace(s[|s| - 1]) {
      TrimEndIsEmptyIff(s[..|s| - 1]);
    }
  }

  lemma {:induction false} TrimStartIsAllSpaceIff(s: string)
    ensures AllSpace(Text.TrimStart(s)) <==> AllSpace(s)
  {
    if s != [] && Text.IsSpace(s[0]) {
      TrimStartIsAllSpaceIff(s[1..]);
      assert s == [s[0]] + s[1..];
    }
  }

  lemma TrimIsEmptyIff(s: string)
    ensures Text.Trim(s) == "" <==> AllSpace(s)
  {
    TrimStartIsAllSpaceIff(s);
    TrimEndIsEmptyIff(Text.TrimStart(s));
  }

  lemma {:induction false} CollapseIsAllSpaceIff(s: string)
    ensures AllSpace(Text.Collapse(s)) <==> AllSpace(s)
    decreases |s|
  {
    if s != [] {
      var rest := if Text.IsSpace(s[0]) then Text.TrimStart(s[1..]) else s[1..];
      Text.TrimStartIsShorter(s[1..]);
      CollapseIsAllSpaceIff(rest);
      TrimStartIsAllSpaceIff(s[1..]);
      AllSpaceOfCons(s[0], s[1..]);
      AllSpaceOfCons(Text.Collapse(s)[0], Text.Collapse(rest));
      assert s == [s[0]] + s[1..];
    }
  }

  lemma AllSpaceOfCons(c: char, s: string)
    ensures AllSpace([c] + s) <==> Text.IsSpace(c) && AllSpace(s)
  {
    if AllSpace([c] + s) {
      assert ([c] + s)[0] == c;
      forall i | 0 <= i < |s| ensures Text.IsSpace(s[i]) {
        assert ([c] + s)[i + 1] == s[i];
      }
    }
  }

  lemma OpensATag(html: string)
    requires html != [] && html[0] == '<' && Text.Contains(html[1..], '>')
    ensures HasTag(html)
  {
    var j :| 0 <= j < |html[1..]| && html[1..][j] == '>';
    assert html[0] == '<' && html[j + 1] == '>';
  }

  /** Without a complete tag there is nothing to take out. */
  lemma {:induction false} NoTagStays(html: string)
    requires !HasTag(html)
    ensures Text.WithoutTags(html) == html
    decreases |html|
  {
    if html != [] {
      if html[0] == '<' && Text.Contains(html[1..], '>') {
        OpensATag(html);
      } else {
        assert forall i | 0 <= i < |html[1..]| :: html[1..][i] == html[i + 1];
        NoTagStays(html[1..]);
      }
    }
  }

  /** A tag becomes a space, and what follows it is read on. */
  lemma OneTag(body: string, rest: string)
    requires !Text.Contains(body, '>')
    ensures Text.WithoutTags("<" + body + ">" + rest) == " " + Text.WithoutTags(rest)
  {
    var html := "<" + body + ">" + rest;
    assert html[1..] == body + ">" + rest;
    assert html[1..][|body|] == '>';
    var n := Text.TagEnd(html[1..]);
    assert n == |body| by {
      assert forall i | 0 <= i < |body| :: html[1..][i] == body[i];
    }
    assert html[1..][n + 1..] == rest;
  }

  lemma TextlessIff(html: string)
    ensures !HasText(html) <==> AllSpace(Text.WithoutTags(html))
  {
    TrimIsEmptyIff(Text.Collapse(Text.WithoutTags(html)));
    CollapseIsAllSpaceIff(Text.WithoutTags(html));
  }

  lemma TagIsNotSpace(html: string)
    requires HasTag(html)
    ensures !AllSpace(html)
  {
    var i, j :| 0 <= i < j < |html| && html[i] == '<' && html[j] == '>';
    assert !Text.IsSpace(html[i]);
  }

  /**
   The gate trims white space and looks no further. With copy required and enough listings, copy with no text
   in it is refused if and only if it is all white space, that is if and only if it holds no tag.
   */
  lemma TextlessCopyIsRefusedIff(cfg: Config, count: nat, html: string)
    requires cfg.requireIntro && count >= cfg.minListings && !HasText(html)
    ensures !Decide(cfg, count, Some(html)) <==> AllSpace(html)
    ensures AllSpace(html) <==> !HasTag(html)
  {
    TrimIsEmptyIff(html);
    TextlessIff(html);
    if HasTag(html) {
      TagIsNotSpace(html);
    } else {
      NoTagStays(html);
    }
  }

  /** It lets copy through exactly when there is text in it -- its purpose -- unless the copy is tags and no text. */
  lemma GateWantsTextIff(cfg: Config, count: nat, html: string)
    requires cfg.requireIntro && count >= cfg.minListings
    ensures (Decide(cfg, count, Some(html)) <==> HasText(html)) <==> !(HasTag(html) && !HasText(html))
  {
    TrimIsEmptyIff(html);
    TextlessIff(html);
    if HasTag(html) {
      TagIsNotSpace(html);
    } else {
      NoTagStays(html);
    }
  }

  /** Two tags with nothing between them hold no text. */
  lemma EmptyElementHasNoText(open: string, close: string)
    requires !Text.Contains(open, '>') && !Text.Contains(close, '>')
    ensures !HasText("<" + open + ">" + ("<" + close + ">" + ""))
  {
    OneTag(open, "<" + close + ">" + "");
    OneTag(close, "");
    TextlessIff("<" + open + ">" + ("<" + close + ">" + ""));
  }

  lemma MarkupPassesForCopy(cfg: Config, count: nat, html: string)
    requires html != [] && html[0] == '<'
    ensures Decide(cfg, count, Some(html)) <==> count >= cfg.minListings
  {
    TrimEndKeepsAStart(html);
  }

  lemma EmptyParagraphPassesForCopy(cfg: Config, count: nat)
    ensures !HasText("<p></p>")
    ensures Decide(cfg, count, Some("<p></p>")) <==> count >= cfg.minListings
  {
    EmptyElementHasNoText("p", "/p");
    assert "<" + "p" + ">" + ("<" + "/p" + ">" + "") == "<p></p>";
    MarkupPassesForCopy(cfg, count, "<p></p>");
  }

  // ---- The cities loop leaves existing copy alone and writes none ------------------------------------

  ghost predicate IntrosFrom(a: seq<CityRow>, b: seq<CityRow>) {
    && a <= b
    && forall i | |a| <= i < |b| :: b[i].intro.None?
  }

  lemma {:induction false} SeedCitiesWritesNoCopy(cfg: Config, s: Progress, lines: seq<CityLine>)
    ensures IntrosFrom(s.db.cities, SeedCities(cfg, s, lines).db.cities)
  {
    if lines != [] {
      SeedCitiesWritesNoCopy(cfg, s, lines[..|lines| - 1]);
    }
  }

  lemma InsertionsWriteNoCopy(cfg: Config, db: Tables, sheets: Sheets)
    requires Insertions(cfg, db, sheets).error.None?
    ensures IntrosFrom(db.cities, Insertions(cfg, db, sheets).db.cities)
  {
    var s1 := SeedVertical(cfg, Begin(cfg, db));
    var s2 := SeedCities(cfg, s1, sheets.cities);
    var s3 := RegisterRegions(cfg, s2, s2.db.cities);
    var s4 := SeedCategories(cfg, s3, sheets.categories);
    SeedListingsLeaves(cfg, s4, sheets.listings);
    SeedCategoriesGrow(cfg, s3, sheets.categories);
    RegisterRegionsLeaves(cfg, s2, s2.db.cities);
    SeedCitiesWritesNoCopy(cfg, s1, sheets.cities);
  }

  // ---- What is counted and named -----------------------------------------------------------------------

  /** The published listings of a city, by their places in the table. */
  function PublishedIn(listings: seq<ListingRow>, city: Id): set<int> {
    set i | 0 <= i < |listings| && listings[i].city == city && listings[i].published
  }

  lemma {:induction false} CountIsTheNumberPublished(listings: seq<ListingRow>, city: Id)
    ensures PublishedCount(listings, city) == |PublishedIn(listings, city)|
  {
    if listings != [] {
      var n := |listings| - 1;
      var front := listings[..n];
      CountIsTheNumberPublished(front, city);
      if listings[n].city == city && listings[n].published {
        assert PublishedIn(listings, city) == PublishedIn(front, city) + {n};
      } else {
        assert PublishedIn(listings, city) == PublishedIn(front, city);
      }
    }
  }

  /** Some published listing of the city is in a category of that name. */
  ghost predicate HasPublished(db: Tables, city: Id, name: string) {
    exists c, l :: 0 <= c < |db.categories| && 0 <= l < |db.listings|
      && db.categories[c].name == name && db.listings[l].category == db.categories[c].id
      && db.listings[l].city == city && db.listings[l].published
  }

  lemma NamesAreThePublishedCategories(db: Tables, city: Id, name: string)
    ensures name in PresentNames(db, city) <==> HasPublished(db, city, name)
  {
    if name in PresentNames(db, city) {
      var c, l :| c in db.categories && l in db.listings && InTown(l, city) && l.category == c.id && c.name == name;
      var i :| 0 <= i < |db.categories| && db.categories[i] == c;
      var j :| 0 <= j < |db.listings| && db.listings[j] == l;
    }
    if HasPublished(db, city, name) {
      var c, l :| 0 <= c < |db.categories| && 0 <= l < |db.listings|
        && db.categories[c].name == name && db.listings[l].category == db.categories[c].id
        && db.listings[l].city == city && db.listings[l].published;
      assert db.categories[c] in db.categories && db.listings[l] in db.listings;
    }
  }

  /** The copy of a city and the set of category names it is written from. */
  ghost predicate WrittenFrom(cfg: Config, db: Tables, city: CityRow, names: set<string>) {
    && (forall name :: name in names <==> HasPublished(db, city.id, name))
    && city.intro == Some(BuildIntro(cfg, city.name, city.region, cfg.sorted(names)))
  }

  /** What the derived phases make of one row's copy. */
  lemma DerivedCopy(cfg: Config, s: Progress, c: nat)
    requires s.error.None? && c < |s.db.cities|
    ensures var d := Derive(cfg, s).db;
            && |d.cities| == |s.db.cities| && d.categories == s.db.categories && d.listings == s.db.listings
            && var city, written := s.db.cities[c], d.cities[c];
               && written.id == city.id && written.name == city.name && written.region == city.region
               && written.intro == WithIntro(cfg, s.db, city).intro
  {
    RowByRow(cfg, s.db, s.cityIds.Values, c);
  }

  lemma CopyIsWritten(cfg: Config, db: Tables, r: Tables, city: CityRow, written: CityRow)
    requires r.categories == db.categories && r.listings == db.listings && city.intro.None?
    requires written.id == city.id && written.name == city.name && written.region == city.region
    requires written.intro == WithIntro(cfg, db, city).intro
    ensures WrittenFrom(cfg, r, written, PresentNames(db, city.id))
  {
    forall name ensures name in PresentNames(db, city.id) <==> HasPublished(r, written.id, name) {
      NamesAreThePublishedCategories(db, city.id, name);
    }
  }

  /** A city that had no copy gets one that names exactly the categories it has a published listing in. */
  lemma CopyNamesItsOwnCategories(cfg: Config, db: Tables, sheets: Sheets, c: nat)
    requires Run(cfg, db, sheets).error.None? && c < |Run(cfg, db, sheets).db.cities|
    ensures var r := Run(cfg, db, sheets).db;
            if c < |db.cities| && db.cities[c].intro.Some? then r.cities[c].intro == db.cities[c].intro
            else exists names :: WrittenFrom(cfg, r, r.cities[c], names)
  {
    var s, r := Insertions(cfg, db, sheets), Run(cfg, db, sheets).db;
    InsertionsWriteNoCopy(cfg, db, sheets);
    DerivedKeepCounts(cfg, s);
    DerivedCopy(cfg, s, c);
    var city := s.db.cities[c];
    assert c < |db.cities| ==> city == db.cities[c];
    if city.intro.None? {
      CopyIsWritten(cfg, s.db, r, city, r.cities[c]);
    }
  }

  // ---- After a run -----------------------------------------------------------------------------------

  /** A city that already had copy, and that copy is only white space. */
  ghost predicate BlankCopyBefore(db: Tables, c: nat) {
    c < |db.cities| && db.cities[c].intro.Some? && !HasIntro(db.cities[c].intro)
  }

  /** From any point the insertions can end at -- so after any Run -- the derived phases leave nothing to do. */
  lemma OneRunIsEnough(cfg: Config, s: Progress)
    requires s.error.None?
    ensures Fixpoint(cfg, Derive(cfg, s).db, s.cityIds.Values)
  {
    var filled := WriteIntroCopy(cfg, s.db);
    WriteIntroFills(cfg, s.db);
    RecomputeKeepsCopy(cfg, filled, s.cityIds.Values);
    WriteIntroAgain(cfg, Derive(cfg, s).db);
    RecomputeAgain(cfg, filled, s.cityIds.Values);
  }

  lemma RecomputeKeepsCopy(cfg: Config, db: Tables, ids: set<Id>)
    requires forall i | 0 <= i < |db.cities| :: db.cities[i].intro.Some?
    ensures forall i | 0 <= i < |db.cities| :: Recompute(cfg, db, ids).cities[i].intro.Some?
  {
  }

  /** What each order leaves in one city row. */
  lemma RowByRow(cfg: Config, db: Tables, ids: set<Id>, c: nat)
    requires c < |db.cities|
    ensures WriteIntroCopy(cfg, Recompute(cfg, db, ids)).cities[c] ==
            WithIntro(cfg, db, JudgeAmong(cfg, db.listings, ids, db.cities[c]))
    ensures Recompute(cfg, WriteIntroCopy(cfg, db), ids).cities[c] ==
            JudgeAmong(cfg, db.listings, ids, WithIntro(cfg, db, db.cities[c]))
  {
    var recomputed := Recompute(cfg, db, ids);
    assert PresentNames(recomputed, db.cities[c].id) == PresentNames(db, db.cities[c].id);
  }

  lemma GateOfRow(cfg: Config, db: Tables, ids: set<Id>, c: nat)
    requires c < |db.cities| && db.cities[c].id in ids
    ensures var row := Recompute(cfg, WriteIntroCopy(cfg, db), ids).cities[c];
            var count := PublishedCount(db.listings, row.id);
            && row.listingCount == count
            && (row.isIndexable <==>
                count >= cfg.minListings
                && (!cfg.requireIntro || db.cities[c].intro.None? || HasIntro(db.cities[c].intro)))
  {
    var city := db.cities[c];
    GeneratedCopyCounts(cfg, city.name, city.region, cfg.sorted(PresentNames(db, city.id)));
    RowByRow(cfg, db, ids, c);
  }

  /**
   The gate after one run: a judged city carries its published count, and is indexable exactly when that
   count meets the threshold -- unless copy is required and the city came in with copy that is blank, which
   the script neither counts nor overwrites.
   */
  lemma IndexableExactlyWhenCounted(cfg: Config, db: Tables, sheets: Sheets, c: nat)
    requires Run(cfg, db, sheets).error.None?
    requires var r := Run(cfg, db, sheets); c < |r.db.cities| && r.db.cities[c].id in r.cityIds.Values
    ensures var r := Run(cfg, db, sheets).db;
            var count := |PublishedIn(r.listings, r.cities[c].id)|;
            && r.cities[c].listingCount == count
            && ((r.cities[c].isIndexable <==> count >= cfg.minListings) <==>
                !(cfg.requireIntro && count >= cfg.minListings && BlankCopyBefore(db, c)))
  {
    var s := Insertions(cfg, db, sheets);
    InsertionsWriteNoCopy(cfg, db, sheets);
    DerivedKeepCounts(cfg, s);
    RowByRow(cfg, s.db, s.cityIds.Values, c);
    GateOfRow(cfg, s.db, s.cityIds.Values, c);
    CountIsTheNumberPublished(s.db.listings, s.db.cities[c].id);
    assert c < |db.cities| ==> s.db.cities[c] == db.cities[c];
  }

  // ---- The phases the other way round ----------------------------------------------------------------

  /** A judged city that reaches the threshold and is waiting for the copy it is about to be given. */
  ghost predicate WaitingForCopy(cfg: Config, s: Progress, c: nat) {
    && c < |s.db.cities| && s.db.cities[c].id in s.cityIds.Values && s.db.cities[c].intro.None?
    && PublishedCount(s.db.listings, s.db.cities[c].id) >= cfg.minListings
  }

  lemma SwappedRow(cfg: Config, s: Progress, c: nat)
    requires c < |s.db.cities|
    ensures var ids := s.cityIds.Values;
            WriteIntroCopy(cfg, Recompute(cfg, s.db, ids)).cities[c] ==
            Recompute(cfg, WriteIntroCopy(cfg, s.db), ids).cities[c]
            <==> !(cfg.requireIntro && WaitingForCopy(cfg, s, c))
  {
    var city := s.db.cities[c];
    RowByRow(cfg, s.db, s.cityIds.Values, c);
    GeneratedCopyCounts(cfg, city.name, city.region, cfg.sorted(PresentNames(s.db, city.id)));
  }

  lemma JudgingLastDecides(cfg: Config, db: Tables, ids: set<Id>, city: CityRow)
    ensures JudgeAmong(cfg, db.listings, ids, WithIntro(cfg, db, JudgeAmong(cfg, db.listings, ids, city))) ==
            JudgeAmong(cfg, db.listings, ids, WithIntro(cfg, db, city))
  {
  }

  /** Recomputing after the swapped order gives the proper one. */
  lemma RecomputeOfSwapped(cfg: Config, db: Tables, ids: set<Id>)
    ensures Recompute(cfg, WriteIntroCopy(cfg, Recompute(cfg, db, ids)), ids) ==
            Recompute(cfg, WriteIntroCopy(cfg, db), ids)
  {
    var swapped := WriteIntroCopy(cfg, Recompute(cfg, db, ids));
    var again := JudgeAll(cfg, db.listings, ids, swapped.cities);
    var proper := Recompute(cfg, WriteIntroCopy(cfg, db), ids).cities;
    forall c | 0 <= c < |db.cities| ensures again[c] == proper[c] {
      RowByRow(cfg, db, ids, c);
      JudgingLastDecides(cfg, db, ids, db.cities[c]);
    }
    assert again == proper;
  }

  ghost predicate NoneIsWaiting(cfg: Config, s: Progress) {
    cfg.requireIntro ==> forall c: nat :: !WaitingForCopy(cfg, s, c)
  }

  lemma SwappedIsProperIff(cfg: Config, s: Progress)
    ensures DeriveSwapped(cfg, s).db.cities == Derive(cfg, s).db.cities <==> s.error.Some? || NoneIsWaiting(cfg, s)
  {
    if s.error.None? {
      var swapped, proper := DeriveSwapped(cfg, s).db.cities, Derive(cfg, s).db.cities;
      forall c: nat | c < |s.db.cities|
        ensures swapped[c] == proper[c] <==> !(cfg.requireIntro && WaitingForCopy(cfg, s, c))
      {
        SwappedRow(cfg, s, c);
      }
      if !NoneIsWaiting(cfg, s) {
        var c: nat :| WaitingForCopy(cfg, s, c);
        assert swapped[c] != proper[c];
      }
    }
  }

  /**
   With the two phases swapped, a run still gives what the real order gives -- and so is a fixpoint -- if
   and only if copy is not required or no judged city without copy reaches the threshold. True of every
   point s a run's insertions can end at; RunSwapped is DeriveSwapped there.
   */
  lemma SwappedIsFixpointIff(cfg: Config, s: Progress)
    requires s.error.None?
    ensures var swapped := DeriveSwapped(cfg, s);
            && (Fixpoint(cfg, swapped.db, swapped.cityIds.Values) <==> NoneIsWaiting(cfg, s))
            && (swapped == Derive(cfg, s) <==> NoneIsWaiting(cfg, s))
  {
    var ids := s.cityIds.Values;
    SwappedIsProperIff(cfg, s);
    RecomputeOfSwapped(cfg, s.db, ids);
    WriteIntroFills(cfg, Recompute(cfg, s.db, ids));
    WriteIntroAgain(cfg, DeriveSwapped(cfg, s).db);
  }

  // ---- A city with one published listing and no copy yet ----------------------------------------------

  function Plain(): Words {
    Words((s: string) => s, (s: string) => s, [])
  }

  function SmallSite(): Config {
    Config(Plain(), "Site", "venues", "Venues", "GB", 1, true, (names: set<string>) => [], (names: seq<string>) => "")
  }

  function BeforeCopy(): Tables {
    Tables([SlugRow(Root, "venues", Vertical, Some(0)), SlugRow(Root, "leeds", City, Some(1))],
           [VerticalRow(0, "Venues", "venues", "venues")],
           [CityRow(1, "Leeds", "leeds", None, "GB", None, 0, false)],
           [],
           [ListingRow(2, "Hall", "hall", 1, 0, 3, true, "")], 4)
  }

  function OneCitySheet(): Sheets {
    Sheets([CityLine("Leeds", "", "")], [], [])
  }

  /** The swapped order leaves Leeds shut although it has its listing and, by the end, its copy. */
  lemma SwappedLeavesLeedsShut()
    ensures var r := Run(SmallSite(), BeforeCopy(), OneCitySheet());
            r.error.None? && |r.db.cities| == 1 && r.db.cities[0].isIndexable
    ensures var swapped := RunSwapped(SmallSite(), BeforeCopy(), OneCitySheet());
            && swapped.error.None? && |swapped.db.cities| == 1
            && !swapped.db.cities[0].isIndexable && HasIntro(swapped.db.cities[0].intro)
            && !Fixpoint(SmallSite(), swapped.db, swapped.cityIds.Values)
  {
    var cfg, db, sheets := SmallSite(), BeforeCopy(), OneCitySheet();
    var s := Insertions(cfg, db, sheets);
    LeedsIsSkipped();
    LeedsByOrder(s);
    assert !NoneIsWaiting(cfg, s);
    SwappedIsFixpointIff(cfg, s);
  }

  lemma LeedsByOrder(s: Progress)
    requires s.db == BeforeCopy() && 1 in s.cityIds.Values
    ensures WaitingForCopy(SmallSite(), s, 0)
    ensures var ids := s.cityIds.Values;
            && Recompute(SmallSite(), WriteIntroCopy(SmallSite(), s.db), ids).cities[0].isIndexable
            && (var late := WriteIntroCopy(SmallSite(), Recompute(SmallSite(), s.db, ids)).cities[0];
                !late.isIndexable && HasIntro(late.intro))
  {
    var cfg := SmallSite();
    assert s.db.listings[..0] == [];
    assert WaitingForCopy(cfg, s, 0);
    RowByRow(cfg, s.db, s.cityIds.Values, 0);
    GateOfRow(cfg, s.db, s.cityIds.Values, 0);
    SwappedIntro(cfg, s.db.cities[0], s.db);
  }

  lemma SwappedIntro(cfg: Config, city: CityRow, db: Tables)
    requires city.intro.None?
    ensures HasIntro(WithIntro(cfg, db, Judged(cfg, db.listings, city)).intro)
  {
    GeneratedCopyCounts(cfg, city.name, city.region, cfg.sorted(PresentNames(db, city.id)));
  }

  lemma LeedsIsSkipped()
    ensures var s := Insertions(SmallSite(), BeforeCopy(), OneCitySheet());
            s.error.None? && s.db == BeforeCopy() && 1 in s.cityIds.Values
  {
    var cfg, db := SmallSite(), BeforeCopy();
    assert KnownVertical(cfg, db) == Some(0);
    var s1 := SeedVertical(cfg, Begin(cfg, db));
    var s2 := SeedCities(cfg, s1, OneCitySheet().cities);
    assert OneCitySheet().cities[..0] == [];
    assert s2 == s1.(cityIds := map[CityKey("Leeds", None) := 1], report := Report(0, 0, 0, 1));
    assert db.cities[..0] == [];
    assert RegisterRegions(cfg, s2, s2.db.cities) == s2;
    assert s2.cityIds[CityKey("Leeds", None)] in s2.cityIds.Values;
  }
}
