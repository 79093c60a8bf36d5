/** What the generated copy of a city says. */
module SeedCopy {
  import opened SlugRegistry
  import opened Wrappers
  import opened Seed
  import Text = SeedText

  ghost predicate Says(s: string, part: string) {
    exists before, after :: s == before + part + after
  }

  lemma SaysIn(before: string, part: string, after: string)
    ensures Says(before + part + after, part)
  {
  }

  lemma SaysFirst(first: string, second: string, third: string, part: string)
    requires Says(first, part)
    ensures Says(first + second + third, part)
  {
    var before, after :| first == before + part + after;
    assert first + second + third == before + part + (after + second + third);
  }

  lemma OpeningSays(site: string, noun: string, place: string)
    ensures Says(Opening(site, noun, place), site)
    ensures Says(Opening(site, noun, place), noun)
    ensures Says(Opening(site, noun, place), place)
  {
    SaysIn("<p>", site, " lists " + noun + " in " + place + ".");
    SaysIn("<p>" + site + " lists ", noun, " in " + place + ".");
    SaysIn("<p>" + site + " lists " + noun + " in ", place, ".");
    assert Opening(site, noun, place) == "<p>" + site + (" lists " + noun + " in " + place + ".");
    assert Opening(site, noun, place) == "<p>" + site + " lists " + noun + (" in " + place + ".");
  }

  /** The site, the noun and the place are named, escaped; the place leaves out a region that is absent or empty. */
  lemma CopyStatesItsFacts(cfg: Config, city: string, region: Option<string>, names: seq<string>, place: string)
    requires place == if region == None || region == Some("") then city else city + ", " + region.value
    ensures Says(BuildIntro(cfg, city, region, names), Text.EscapeHtml(cfg.siteName))
    ensures Says(BuildIntro(cfg, city, region, names), Text.EscapeHtml(cfg.plural))
    ensures Says(BuildIntro(cfg, city, region, names), Text.EscapeHtml(place))
  {
    var site, noun, escaped := Text.EscapeHtml(cfg.siteName), Text.EscapeHtml(cfg.plural), Text.EscapeHtml(place);
    var first, second, third := Opening(site, noun, escaped), Coverage(cfg, names), Closing(noun, escaped);
    OpeningSays(site, noun, escaped);
    SaysFirst(first, second, third, site);
    SaysFirst(first, second, third, noun);
    SaysFirst(first, second, third, escaped);
  }

  /** The first three names, lower-cased and escaped, are listed, and the wording says whether there are more. */
  lemma CopyListsThreeCategories(cfg: Config, city: string, region: Option<string>, names: seq<string>,
                                 shown: seq<string>)
    requires names != [] && |shown| == (if |names| <= 3 then |names| else 3)
    requires forall i | 0 <= i < |shown| :: shown[i] == Text.EscapeHtml(cfg.words.lower(names[i]))
    ensures Says(BuildIntro(cfg, city, region, names),
                 (if |names| <= 3 then " They include " else " Categories include ") + cfg.listFormat(shown) + ".")
  {
    var noun, place := Text.EscapeHtml(cfg.plural), Place(city, region);
    assert shown == MapEscapedLower(cfg.words, TakeThree(names));
    SaysIn(Opening(Text.EscapeHtml(cfg.siteName), noun, place), Coverage(cfg, names), Closing(noun, place));
  }

  /** Without categories there is no such sentence: the opening runs straight into the closing. */
  lemma NoCategoriesNoSentence(cfg: Config, city: string, region: Option<string>)
    ensures var noun, place := Text.EscapeHtml(cfg.plural), Place(city, region);
            BuildIntro(cfg, city, region, []) ==
              Opening(Text.EscapeHtml(cfg.siteName), noun, place) + Closing(noun, place)
  {
    var noun, place := Text.EscapeHtml(cfg.plural), Place(city, region);
    var first := Opening(Text.EscapeHtml(cfg.siteName), noun, place);
    assert TakeThree([]) == [] && first + "" == first;
  }

  // ---- Names that need no escaping -----------------------------------------------------------------------

  predicate Plain(s: string) {
    forall i | 0 <= i < |s| :: s[i] !in "&<>\"'"
  }

  lemma {:induction false} EscapePlain(s: string)
    requires Plain(s)
    ensures Text.EscapeHtml(s) == s
  {
    if s != "" {
      EscapePlain(s[1..]);
    }
  }

  /** With such names the copy opens and closes with them as they are, each in its place. */
  lemma PlainCopyReads(cfg: Config, city: string, region: string, names: seq<string>, place: string)
    requires Plain(cfg.siteName) && Plain(cfg.plural) && Plain(place)
    requires region != "" && place == city + ", " + region
    ensures "<p>" + cfg.siteName + " lists " + cfg.plural + " in " + place + "."
            <= BuildIntro(cfg, city, Some(region), names)
    ensures exists before ::
        BuildIntro(cfg, city, Some(region), names) ==
          before + (THEN_EVERY_ENTRY + cfg.plural + " in " + place + SIDE_BY_SIDE)
  {
    EscapePlain(cfg.siteName);
    EscapePlain(cfg.plural);
    EscapePlain(place);
    var first, second := Opening(cfg.siteName, cfg.plural, place), Coverage(cfg, names);
    assert BuildIntro(cfg, city, Some(region), names) == (first + second) + Closing(cfg.plural, place);
  }
}
