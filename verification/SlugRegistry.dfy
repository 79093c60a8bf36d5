/** The slug registry: one namespace per scope, and the ladder a new name climbs on a collision. */
module SlugRegistry {
  import opened Decimals
  import opened Wrappers

  /** 'root', 'areas' or the uuid of the owning city. */
  datatype Scope = Root | Areas | Of(owner: Id)
  datatype Kind = Static | City | Vertical | Category | Listing | Region
  datatype SlugRow = SlugRow(scope: Scope, slug: string, kind: Kind, entity: Option<Id>)

  /** String helpers whose Unicode tables are not modelled, and the reserved words. */
  datatype Words = Words(slugify: string -> string, lower: string -> string, reserved: seq<string>)

  datatype SlugError = NothingSluggable | ReservedWord | Exhausted

  predicate Taken(rows: seq<SlugRow>, scope: Scope, slug: string) {
    exists i :: 0 <= i < |rows| && rows[i].scope == scope && rows[i].slug == slug
  }

  /** INSERT ... ON CONFLICT DO NOTHING over the unique index on (parent_scope, slug). */
  function Claim(rows: seq<SlugRow>, row: SlugRow): seq<SlugRow> {
    if Taken(rows, row.scope, row.slug) then rows else rows + [row]
  }

  predicate UniqueSlugs(rows: seq<SlugRow>) {
    forall i, j | 0 <= i < j < |rows| :: rows[i].scope != rows[j].scope || rows[i].slug != rows[j].slug
  }

  function Resolve(rows: seq<SlugRow>, scope: Scope, slug: string): Option<SlugRow> {
    if rows == [] then None
    else if rows[0].scope == scope && rows[0].slug == slug then Some(rows[0])
    else Resolve(rows[1..], scope, slug)
  }

  function Numbered(stem: string, n: nat): string {
    stem + "-" + Print(n)
  }

  /** stem-2, stem-3, ... */
  function Numbers(stem: string, count: nat): seq<string> {
    seq(count, i requires 0 <= i => Numbered(stem, i + 2))
  }

  /** desired, then desired-disambiguator, then -2 to -50 on the longer of the two. */
  function Ladder(w: Words, desired: string, disambiguator: Option<string>): seq<string> {
    var bare := w.slugify(desired);
    if disambiguator.None? || disambiguator.value == "" then
      [bare] + Numbers(bare, 49)
    else
      var longer := w.slugify(desired + "-" + disambiguator.value);
      (if longer == bare then [bare] else [bare, longer]) + Numbers(longer, 49)
  }

  function FirstFree(rows: seq<SlugRow>, scope: Scope, candidates: seq<string>): Option<string> {
    if candidates == [] then None
    else if !Taken(rows, scope, candidates[0]) then Some(candidates[0])
    else FirstFree(rows, scope, candidates[1..])
  }

  datatype Allocation = Allocated(slug: string) | Refused(error: SlugError)

  function Allocate(w: Words, rows: seq<SlugRow>, scope: Scope, desired: string, disambiguator: Option<string>)
    : Allocation
  {
    var bare := w.slugify(desired);
    if bare == "" then Refused(NothingSluggable)
    else if scope.Root? && w.lower(bare) in w.reserved then Refused(ReservedWord)
    else
      match FirstFree(rows, scope, Ladder(w, desired, disambiguator))
      case Some(slug) => Allocated(slug)
      case None => Refused(Exhausted)
  }

  // ---- What the registry promises --------------------------------------------------------------

  lemma ClaimKeepsUnique(rows: seq<SlugRow>, row: SlugRow)
    requires UniqueSlugs(rows)
    ensures UniqueSlugs(Claim(rows, row))
    ensures Taken(Claim(rows, row), row.scope, row.slug)
    ensures rows <= Claim(rows, row)
  {
    if !Taken(rows, row.scope, row.slug) {
      assert Claim(rows, row)[|rows|] == row;
    }
  }

  /** The allocated slug is free, is on the ladder, and every rung before it was taken. */
  lemma {:induction false} FirstFreeIsFirst(rows: seq<SlugRow>, scope: Scope, candidates: seq<string>)
    ensures match FirstFree(rows, scope, candidates)
            case None => forall i | 0 <= i < |candidates| :: Taken(rows, scope, candidates[i])
            case Some(slug) =>
              !Taken(rows, scope, slug) &&
              exists k :: 0 <= k < |candidates| && candidates[k] == slug &&
                          forall i | 0 <= i < k :: Taken(rows, scope, candidates[i])
  {
    if candidates != [] && Taken(rows, scope, candidates[0]) {
      FirstFreeIsFirst(rows, scope, candidates[1..]);
      if FirstFree(rows, scope, candidates).Some? {
        var slug := FirstFree(rows, scope, candidates).value;
        var k :| 0 <= k < |candidates[1..]| && candidates[1..][k] == slug
                 && forall i | 0 <= i < k :: Taken(rows, scope, candidates[1..][i]);
        forall i | 0 <= i < k + 1 ensures Taken(rows, scope, candidates[i]) {
          assert i > 0 ==> candidates[i] == candidates[1..][i - 1];
        }
        assert candidates[k + 1] == slug;
      } else {
        forall i | 0 <= i < |candidates| ensures Taken(rows, scope, candidates[i]) {
          assert i > 0 ==> candidates[i] == candidates[1..][i - 1];
        }
      }
    }
  }

  lemma {:induction false} ResolveIsFirst(rows: seq<SlugRow>, scope: Scope, slug: string)
    ensures match Resolve(rows, scope, slug)
            case None => !Taken(rows, scope, slug)
            case Some(row) => row in rows && row.scope == scope && row.slug == slug
  {
    if rows != [] {
      ResolveIsFirst(rows[1..], scope, slug);
      if Taken(rows, scope, slug) && !(rows[0].scope == scope && rows[0].slug == slug) {
        var i :| 0 <= i < |rows| && rows[i].scope == scope && rows[i].slug == slug;
        assert rows[1..][i - 1] == rows[i];
      }
    }
  }

  /**
   What a name may be given, in this order: the bare slug; the slug with the disambiguator, where there is one and
   it makes a difference; and that, or the bare one, numbered from 2 to 50.
   */
  lemma RungsOfTheLadder(w: Words, desired: string, disambiguator: Option<string>, n: nat)
    requires 2 <= n <= 50
    ensures var bare, rungs := w.slugify(desired), Ladder(w, desired, disambiguator);
            var longer := if disambiguator == None || disambiguator == Some("") then bare
                          else w.slugify(desired + "-" + disambiguator.value);
            var unnumbered := if longer == bare then 1 else 2;
            && |rungs| == unnumbered + 49 && rungs[0] == bare && rungs[unnumbered - 1] == longer
            && rungs[unnumbered + n - 2] == longer + "-" + Print(n)
  {
  }
}
