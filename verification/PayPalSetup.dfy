/** The billing setup script: find-or-create by name over remote lists read a page at a time. */
module PayPalSetup {
  import opened Wrappers

  const PAGE_SIZE := 20
  const LAST_PAGE := 10
  const WINDOW := 200

  /** A listed product or plan; "" stands for an id that is absent or empty. */
  datatype Thing = Thing(id: string, name: string)

  /** What a create does: the list gains the item at some position, or not, and the reply may carry no id. */
  datatype Post = Made(id: string, at: nat) | Lost(id: string, at: nat) | Rejected

  /** How the n-th list request and the n-th create turn out. */
  datatype Net = Net(answers: nat -> bool, creates: nat -> Post)

  datatype Remote = Remote(products: seq<Thing>, plans: map<string, seq<Thing>>, gets: nat, posts: nat)

  datatype Wanted = Wanted(envVar: string, name: string)

  /** PAID_PLANS in order, then the featured and the sponsor plan. */
  datatype Site = Site(product: string, paidPlans: seq<Wanted>, featured: string, sponsor: string)

  function Min(a: nat, b: nat): nat {
    if a < b then a else b
  }

  function InsertAt(list: seq<Thing>, at: nat, thing: Thing): seq<Thing> {
    var k := Min(at, |list|);
    list[..k] + [thing] + list[k..]
  }

  function PlansOf(r: Remote, product: string): seq<Thing> {
    if product in r.plans then r.plans[product] else []
  }

  function Page(list: seq<Thing>, page: nat): seq<Thing>
    requires page >= 1
  {
    list[Min(PAGE_SIZE * (page - 1), |list|)..Min(PAGE_SIZE * page, |list|)]
  }

  function FirstNamed(list: seq<Thing>, name: string): Option<Thing> {
    if list == [] then None
    else if list[0].name == name then Some(list[0])
    else FirstNamed(list[1..], name)
  }

  /** What a lookup found and how many list requests have been made by then. */
  datatype Lookup = Lookup(found: Option<Thing>, gets: nat)

  function FindPlanFrom(net: Net, list: seq<Thing>, name: string, page: nat, gets: nat): (l: Lookup)
    requires 1 <= page <= LAST_PAGE + 1
    ensures l.gets >= gets
    decreases LAST_PAGE + 1 - page
  {
    if page > LAST_PAGE then Lookup(None, gets)
    else if !net.answers(gets) then Lookup(None, gets + 1)
    else
      var things := Page(list, page);
      var hit := FirstNamed(things, name);
      if hit.Some? || |things| < PAGE_SIZE then Lookup(hit, gets + 1)
      else FindPlanFrom(net, list, name, page + 1, gets + 1)
  }

  /** Unlike a plan, a named product without an id sends the search on to the next page. */
  function FindProductFrom(net: Net, list: seq<Thing>, name: string, page: nat, gets: nat): (l: Lookup)
    requires 1 <= page <= LAST_PAGE + 1
    ensures l.gets >= gets && (l.found.Some? ==> l.found.value.id != "")
    decreases LAST_PAGE + 1 - page
  {
    if page > LAST_PAGE then Lookup(None, gets)
    else if !net.answers(gets) then Lookup(None, gets + 1)
    else
      var things := Page(list, page);
      var hit := FirstNamed(things, name);
      if hit.Some? && hit.value.id != "" then Lookup(hit, gets + 1)
      else if |things| < PAGE_SIZE then Lookup(None, gets + 1)
      else FindProductFrom(net, list, name, page + 1, gets + 1)
  }

  /** The id a find-or-create ends with; None when the script throws. */
  datatype Ensured = Ensured(remote: Remote, id: Option<string>)

  function CreateProduct(net: Net, r: Remote, name: string): Ensured {
    var post := net.creates(r.posts);
    var r1 := r.(posts := r.posts + 1);
    match post
    case Rejected => Ensured(r1, None)
    case Lost(id, at) => Ensured(r1.(products := InsertAt(r.products, at, Thing(id, name))), None)
    case Made(id, at) => Ensured(r1.(products := InsertAt(r.products, at, Thing(id, name))), Some(id))
  }

  function EnsureProduct(net: Net, r: Remote, name: string): (e: Ensured)
    ensures e.remote.gets >= r.gets
  {
    var look := FindProductFrom(net, r.products, name, 1, r.gets);
    var r1 := r.(gets := look.gets);
    if look.found.Some? then Ensured(r1, Some(look.found.value.id)) else CreateProduct(net, r1, name)
  }

  function AddPlan(r: Remote, product: string, at: nat, thing: Thing): Remote {
    r.(plans := r.plans[product := InsertAt(PlansOf(r, product), at, thing)], posts := r.posts + 1)
  }

  function CreatePlan(net: Net, r: Remote, product: string, name: string): Ensured {
    match net.creates(r.posts)
    case Rejected => Ensured(r.(posts := r.posts + 1), None)
    case Lost(id, at) => Ensured(AddPlan(r, product, at, Thing(id, name)), None)
    case Made(id, at) => Ensured(AddPlan(r, product, at, Thing(id, name)), Some(id))
  }

  function EnsurePlan(net: Net, r: Remote, product: string, name: string): (e: Ensured)
    ensures e.remote.gets >= r.gets
  {
    var look := FindPlanFrom(net, PlansOf(r, product), name, 1, r.gets);
    var r1 := r.(gets := look.gets);
    if look.found.Some? && look.found.value.id != "" then Ensured(r1, Some(look.found.value.id))
    else CreatePlan(net, r1, product, name)
  }

  datatype Run = Run(remote: Remote, lines: seq<string>, threw: bool)

  function Line(w: Wanted, id: string): string {
    w.envVar + "=" + id
  }

  function EnsureNext(net: Net, run: Run, product: string, w: Wanted): Run {
    if run.threw then run
    else
      var e := EnsurePlan(net, run.remote, product, w.name);
      if e.id.None? then run.(remote := e.remote, threw := true)
      else run.(remote := e.remote, lines := run.lines + [Line(w, e.id.value)])
  }

  function EnsurePlans(net: Net, run: Run, product: string, wanted: seq<Wanted>): (r: Run)
    ensures r.remote.gets >= run.remote.gets
  {
    if wanted == [] then run
    else EnsureNext(net, EnsurePlans(net, run, product, wanted[..|wanted| - 1]), product, wanted[|wanted| - 1])
  }

  function AllWanted(site: Site): seq<Wanted> {
    site.paidPlans
    + [Wanted("PAYPAL_PLAN_FEATURED", site.featured), Wanted("PAYPAL_PLAN_SPONSOR_MONTHLY", site.sponsor)]
  }

  function Setup(net: Net, r: Remote, site: Site): Run {
    var e := EnsureProduct(net, r, site.product);
    if e.id.None? then Run(e.remote, [], true)
    else EnsurePlans(net, Run(e.remote, [], false), e.id.value, AllWanted(site))
  }

  // ---- The script ------------------------------------------------------------------------------------------

  class Script {
    const net: Net
    var products: seq<Thing>
    var plans: map<string, seq<Thing>>
    var gets: nat
    var posts: nat

    function State(): Remote
      reads this
    {
      Remote(products, plans, gets, posts)
    }

    constructor (net: Net, r: Remote)
      ensures this.net == net && State() == r
    {
      this.net := net;
      products, plans, gets, posts := r.products, r.plans, r.gets, r.posts;
    }

    method FindProduct(name: string) returns (id: Option<string>)
      modifies this`gets
      ensures var look := FindProductFrom(net, products, name, 1, old(gets));
              gets == look.gets && id == if look.found.Some? then Some(look.found.value.id) else None
    {
      for page := 1 to LAST_PAGE + 1
        invariant FindProductFrom(net, products, name, 1, old(gets)) == FindProductFrom(net, products, name, page, gets)
      {
        var ok, things := net.answers(gets), Page(products, page);
        gets := gets + 1;
        if !ok {
          return None;
        }
        var hit := FirstNamed(things, name);
        if hit.Some? && hit.value.id != "" {
          return Some(hit.value.id);
        }
        if |things| < PAGE_SIZE {
          return None;
        }
      }
      id := None;
    }

    method FindPlan(product: string, name: string) returns (found: Option<Thing>)
      modifies this`gets
      ensures Lookup(found, gets) == FindPlanFrom(net, PlansOf(State(), product), name, 1, old(gets))
    {
      var list := PlansOf(State(), product);
      for page := 1 to LAST_PAGE + 1
        invariant FindPlanFrom(net, list, name, 1, old(gets)) == FindPlanFrom(net, list, name, page, gets)
      {
        var ok, things := net.answers(gets), Page(list, page);
        gets := gets + 1;
        if !ok {
          return None;
        }
        var hit := FirstNamed(things, name);
        if hit.Some? {
          return hit;
        }
        if |things| < PAGE_SIZE {
          return None;
        }
      }
      found := None;
    }

    /** None stands for the thrown error. */
    method ProductId(name: string) returns (id: Option<string>)
      modifies this
      ensures Ensured(State(), id) == EnsureProduct(net, old(State()), name)
    {
      id := FindProduct(name);
      if id.Some? {
        return;
      }
      var post := net.creates(posts);
      posts := posts + 1;
      match post {
        case Rejected => id := None;
        case Lost(made, at) => products, id := InsertAt(products, at, Thing(made, name)), None;
        case Made(made, at) => products, id := InsertAt(products, at, Thing(made, name)), Some(made);
      }
    }

    method PlanId(product: string, name: string) returns (id: Option<string>)
      modifies this
      ensures Ensured(State(), id) == EnsurePlan(net, old(State()), product, name)
    {
      var existing := FindPlan(product, name);
      if existing.Some? && existing.value.id != "" {
        return Some(existing.value.id);
      }
      var post, list := net.creates(posts), PlansOf(State(), product);
      posts := posts + 1;
      match post {
        case Rejected => id := None;
        case Lost(made, at) => plans, id := plans[product := InsertAt(list, at, Thing(made, name))], None;
        case Made(made, at) => plans, id := plans[product := InsertAt(list, at, Thing(made, name))], Some(made);
      }
    }

    /** One plan's line, or a throw that leaves the lines as they are. */
    method PushLine(product: string, w: Wanted, lines: seq<string>) returns (lines': seq<string>, threw: bool)
      modifies this
      ensures Run(State(), lines', threw) == EnsureNext(net, Run(old(State()), lines, false), product, w)
    {
      var id := PlanId(product, w.name);
      threw := id.None?;
      lines' := if threw then lines else lines + [Line(w, id.value)];
    }

    method PaidPlanLines(product: string, wanted: seq<Wanted>) returns (lines: seq<string>, threw: bool)
      modifies this
      ensures Run(State(), lines, threw) == EnsurePlans(net, Run(old(State()), [], false), product, wanted)
    {
      ghost var start := Run(State(), [], false);
      lines := [];
      for i := 0 to |wanted|
        invariant Run(State(), lines, false) == EnsurePlans(net, start, product, wanted[..i])
      {
        assert wanted[..i + 1][..i] == wanted[..i];
        lines, threw := PushLine(product, wanted[i], lines);
        if threw {
          ThrowEndsTheRun(net, start, product, wanted, i + 1);
          return;
        }
      }
      assert wanted[..|wanted|] == wanted;
      threw := false;
    }

    method Execute(site: Site) returns (lines: seq<string>, threw: bool)
      modifies this
      ensures Run(State(), lines, threw) == Setup(net, old(State()), site)
    {
      var product := ProductId(site.product);
      if product.None? {
        return [], true;
      }
      TwoMore(net, Run(State(), [], false), product.value, site);
      lines, threw := PaidPlanLines(product.value, site.paidPlans);
      if !threw {
        lines, threw := PushLine(product.value, Wanted("PAYPAL_PLAN_FEATURED", site.featured), lines);
      }
      if !threw {
        lines, threw := PushLine(product.value, Wanted("PAYPAL_PLAN_SPONSOR_MONTHLY", site.sponsor), lines);
      }
    }
  }

  lemma TwoMore(net: Net, run: Run, product: string, site: Site)
    ensures var featured := EnsureNext(net, EnsurePlans(net, run, product, site.paidPlans), product,
                                       Wanted("PAYPAL_PLAN_FEATURED", site.featured));
            EnsurePlans(net, run, product, AllWanted(site)) ==
              EnsureNext(net, featured, product, Wanted("PAYPAL_PLAN_SPONSOR_MONTHLY", site.sponsor))
  {
    var all := AllWanted(site);
    assert all[..|all| - 1] == site.paidPlans + [Wanted("PAYPAL_PLAN_FEATURED", site.featured)];
    assert all[..|all| - 1][..|all| - 2] == site.paidPlans;
  }

  lemma {:induction false} ThrowEndsTheRun(net: Net, run: Run, product: string, wanted: seq<Wanted>, i: nat)
    requires i <= |wanted| && EnsurePlans(net, run, product, wanted[..i]).threw
    ensures EnsurePlans(net, run, product, wanted) == EnsurePlans(net, run, product, wanted[..i])
  {
    if i < |wanted| {
      assert wanted[..|wanted| - 1][..i] == wanted[..i];
      ThrowEndsTheRun(net, run, product, wanted[..|wanted| - 1], i);
    } else {
      assert wanted[..i] == wanted;
    }
  }

  // ---- A paged search is a linear search ---------------------------------------------------------------------

  lemma {:induction false} FirstNamedSplit(a: seq<Thing>, b: seq<Thing>, name: string)
    ensures FirstNamed(a + b, name) == if FirstNamed(a, name).Some? then FirstNamed(a, name) else FirstNamed(b, name)
  {
    if a == [] {
      assert a + b == b;
    } else {
      FirstNamedSplit(a[1..], b, name);
      assert (a + b)[1..] == a[1..] + b;
    }
  }

  predicate Answered(net: Net, from: nat, to: nat) {
    forall n | from <= n < to :: net.answers(n)
  }

  /** What is left to look at from a page on, of the first two hundred. */
  function Rest(list: seq<Thing>, page: nat): seq<Thing>
    requires 1 <= page <= LAST_PAGE + 1
  {
    list[Min(PAGE_SIZE * (page - 1), |list|)..Min(WINDOW, |list|)]
  }

  lemma PageThenRest(list: seq<Thing>, page: nat)
    requires 1 <= page <= LAST_PAGE
    ensures Rest(list, page) == Page(list, page) + Rest(list, page + 1)
    ensures |Page(list, page)| < PAGE_SIZE ==> Rest(list, page + 1) == []
  {
  }

  lemma {:induction false} PlanPagesAreLinear(net: Net, list: seq<Thing>, name: string, page: nat, gets: nat)
    requires 1 <= page <= LAST_PAGE + 1 && Answered(net, gets, FindPlanFrom(net, list, name, page, gets).gets)
    ensures FindPlanFrom(net, list, name, page, gets).found == FirstNamed(Rest(list, page), name)
    decreases LAST_PAGE + 1 - page
  {
    if page <= LAST_PAGE {
      PageThenRest(list, page);
      FirstNamedSplit(Page(list, page), Rest(list, page + 1), name);
      var hit := FirstNamed(Page(list, page), name);
      if net.answers(gets) && hit.None? && |Page(list, page)| == PAGE_SIZE {
        PlanPagesAreLinear(net, list, name, page + 1, gets + 1);
      }
    }
  }

  /** There is no item of that name, or the first one has an id. */
  predicate FirstHasId(list: seq<Thing>, name: string) {
    var first := FirstNamed(list, name);
    first.Some? ==> first.value.id != ""
  }

  lemma {:induction false} ProductPagesAreLinear(net: Net, list: seq<Thing>, name: string, page: nat, gets: nat)
    requires 1 <= page <= LAST_PAGE + 1 && FirstHasId(Rest(list, page), name)
    requires Answered(net, gets, FindProductFrom(net, list, name, page, gets).gets)
    ensures FindProductFrom(net, list, name, page, gets).found == FirstNamed(Rest(list, page), name)
    decreases LAST_PAGE + 1 - page
  {
    if page <= LAST_PAGE {
      PageThenRest(list, page);
      FirstNamedSplit(Page(list, page), Rest(list, page + 1), name);
      var hit := FirstNamed(Page(list, page), name);
      if hit.None? && net.answers(gets) && |Page(list, page)| == PAGE_SIZE {
        ProductPagesAreLinear(net, list, name, page + 1, gets + 1);
      }
    }
  }

  function FirstTwoHundred(list: seq<Thing>): seq<Thing> {
    list[..Min(WINDOW, |list|)]
  }

  /** The search that stops early equals a linear search of the first two hundred plans, whatever their ids. */
  lemma FindPlanIsLinear(net: Net, list: seq<Thing>, name: string, gets: nat)
    requires Answered(net, gets, FindPlanFrom(net, list, name, 1, gets).gets)
    ensures FindPlanFrom(net, list, name, 1, gets).found == FirstNamed(FirstTwoHundred(list), name)
  {
    PlanPagesAreLinear(net, list, name, 1, gets);
    assert Rest(list, 1) == FirstTwoHundred(list);
  }

  /** For products the same holds if and only if the first of that name, if there is one, has an id. */
  lemma FindProductIsLinearIff(net: Net, list: seq<Thing>, name: string, gets: nat)
    requires Answered(net, gets, FindProductFrom(net, list, name, 1, gets).gets)
    ensures FindProductFrom(net, list, name, 1, gets).found == FirstNamed(FirstTwoHundred(list), name) <==>
            FirstHasId(FirstTwoHundred(list), name)
  {
    assert Rest(list, 1) == FirstTwoHundred(list);
    if FirstHasId(FirstTwoHundred(list), name) {
      ProductPagesAreLinear(net, list, name, 1, gets);
    }
  }

  /** The first of the name has no id and the second has one; the products search finds neither, and one is made. */
  lemma AProductWithoutAnIdHidesTheNext(net: Net, r: Remote)
    requires net.answers(r.gets) && r.products == [Thing("", "Site"), Thing("PROD-1", "Site")]
    ensures FirstNamed(FirstTwoHundred(r.products), "Site") == Some(Thing("", "Site"))
    ensures FindProductFrom(net, r.products, "Site", 1, r.gets) == Lookup(None, r.gets + 1)
    ensures EnsureProduct(net, r, "Site").remote.posts == r.posts + 1
  {
    assert FirstTwoHundred(r.products) == r.products && Page(r.products, 1) == r.products;
  }

  /**
   A lookup whose requests are all answered creates exactly when no usable plan of that name is among the first
   two hundred.
   */
  lemma CreatesExactlyWhenMissing(net: Net, r: Remote, product: string, name: string)
    requires Answered(net, r.gets, EnsurePlan(net, r, product, name).remote.gets)
    ensures var first := FirstNamed(FirstTwoHundred(PlansOf(r, product)), name);
            EnsurePlan(net, r, product, name).remote.posts ==
              r.posts + if first.Some? && first.value.id != "" then 0 else 1
  {
    FindPlanIsLinear(net, PlansOf(r, product), name, r.gets);
  }

  // ---- The second run ----------------------------------------------------------------------------------------

  ghost predicate HaveIds(list: seq<Thing>) {
    forall i | 0 <= i < |list| :: list[i].id != ""
  }

  ghost predicate Usable(net: Net, r: Remote) {
    && HaveIds(r.products)
    && (forall p | p in r.plans :: HaveIds(r.plans[p]))
    && (forall n :: var post := net.creates(n); post.Made? || post.Lost? ==> post.id != "")
  }

  ghost predicate Small(r: Remote) {
    |r.products| <= WINDOW && forall p | p in r.plans :: |r.plans[p]| <= WINDOW
  }

  lemma {:induction false} FirstNamedHasId(list: seq<Thing>, name: string)
    requires HaveIds(list)
    ensures FirstHasId(list, name)
  {
    if list != [] && list[0].name != name {
      assert forall i | 0 <= i < |list[1..]| :: list[1..][i] == list[i + 1];
      FirstNamedHasId(list[1..], name);
    }
  }

  lemma FirstNamedAfterInsert(list: seq<Thing>, at: nat, thing: Thing, name: string)
    ensures thing.name != name ==> FirstNamed(InsertAt(list, at, thing), name) == FirstNamed(list, name)
    ensures thing.name == name && FirstNamed(list, name).None? ==>
              FirstNamed(InsertAt(list, at, thing), name) == Some(thing)
  {
    var k := Min(at, |list|);
    FirstNamedSplit(list[..k], list[k..], name);
    FirstNamedSplit(list[..k] + [thing], list[k..], name);
    FirstNamedSplit(list[..k], [thing], name);
    assert list == list[..k] + list[k..];
  }

  lemma InsertedHaveIds(list: seq<Thing>, at: nat, thing: Thing)
    requires HaveIds(list) && thing.id != ""
    ensures HaveIds(InsertAt(list, at, thing))
  {
  }

  /** The id a lookup of the name comes back with; "" when there is nothing usable. */
  function IdNow(r: Remote, product: string, name: string): string {
    var first := FirstNamed(PlansOf(r, product), name);
    if first.Some? then first.value.id else ""
  }

  lemma SmallBefore(net: Net, r: Remote, product: string, name: string)
    requires Small(EnsurePlan(net, r, product, name).remote)
    ensures Small(r) && |PlansOf(r, product)| <= WINDOW
  {
    var r' := EnsurePlan(net, r, product, name).remote;
    forall p | p in r.plans ensures |r.plans[p]| <= WINDOW {
      assert p in r'.plans;
    }
  }

  /** Every plan that was found before is found under the same id. */
  ghost predicate KeepsIds(r: Remote, r': Remote, product: string) {
    forall other | IdNow(r, product, other) != "" :: IdNow(r', product, other) == IdNow(r, product, other)
  }

  /** A completed find-or-create leaves its id to be found, and every id that was found before. */
  lemma EnsurePlanSettles(net: Net, r: Remote, product: string, name: string)
    requires Usable(net, r)
    requires var e := EnsurePlan(net, r, product, name);
             Small(e.remote) && e.id.Some? && Answered(net, r.gets, e.remote.gets)
    ensures var e := EnsurePlan(net, r, product, name);
            && Usable(net, e.remote) && Small(r) && e.remote.products == r.products
            && e.id.value != "" && IdNow(e.remote, product, name) == e.id.value
            && KeepsIds(r, e.remote, product)
  {
    var e, list := EnsurePlan(net, r, product, name), PlansOf(r, product);
    SmallBefore(net, r, product, name);
    assert FirstTwoHundred(list) == list;
    FindPlanIsLinear(net, list, name, r.gets);
    FirstNamedHasId(list, name);
    if FirstNamed(list, name).None? {
      var post := net.creates(r.posts);
      var thing := Thing(post.id, name);
      InsertedHaveIds(list, post.at, thing);
      FirstNamedAfterInsert(list, post.at, thing, name);
      forall other | IdNow(r, product, other) != ""
        ensures IdNow(e.remote, product, other) == IdNow(r, product, other)
      {
        FirstNamedAfterInsert(list, post.at, thing, other);
      }
    }
  }

  ghost predicate AllSettled(r: Remote, product: string, wanted: seq<Wanted>) {
    forall k | 0 <= k < |wanted| :: IdNow(r, product, wanted[k].name) != ""
  }

  /** The lines that name what each lookup now comes back with. */
  function LinesNow(r: Remote, product: string, wanted: seq<Wanted>): seq<string> {
    if wanted == [] then []
    else
      var last := wanted[|wanted| - 1];
      LinesNow(r, product, wanted[..|wanted| - 1]) + [Line(last, IdNow(r, product, last.name))]
  }

  lemma {:induction false} LinesStand(r: Remote, r': Remote, product: string, wanted: seq<Wanted>)
    requires AllSettled(r, product, wanted)
    requires KeepsIds(r, r', product)
    ensures AllSettled(r', product, wanted) && LinesNow(r', product, wanted) == LinesNow(r, product, wanted)
  {
    if wanted != [] {
      LinesStand(r, r', product, wanted[..|wanted| - 1]);
    }
  }

  ghost predicate Stands(net: Net, run: Run, product: string, wanted: seq<Wanted>) {
    && !run.threw && Usable(net, run.remote)
    && AllSettled(run.remote, product, wanted) && run.lines == LinesNow(run.remote, product, wanted)
  }

  lemma AppendStands(net: Net, r: Remote, lines: seq<string>, product: string, wanted: seq<Wanted>)
    requires wanted != [] && Usable(net, r) && AllSettled(r, product, wanted[..|wanted| - 1])
    requires lines == LinesNow(r, product, wanted[..|wanted| - 1])
    requires IdNow(r, product, wanted[|wanted| - 1].name) != ""
    ensures var last := wanted[|wanted| - 1];
            Stands(net, Run(r, lines + [Line(last, IdNow(r, product, last.name))], false), product, wanted)
  {
    var front := wanted[..|wanted| - 1];
    forall k | 0 <= k < |wanted| ensures IdNow(r, product, wanted[k].name) != "" {
      assert k < |front| ==> front[k] == wanted[k];
    }
  }

  lemma OneMoreStands(net: Net, run: Run, product: string, wanted: seq<Wanted>)
    requires wanted != [] && Stands(net, run, product, wanted[..|wanted| - 1])
    requires var next := EnsureNext(net, run, product, wanted[|wanted| - 1]);
             !next.threw && Small(next.remote) && Answered(net, run.remote.gets, next.remote.gets)
    ensures var next := EnsureNext(net, run, product, wanted[|wanted| - 1]);
            Stands(net, next, product, wanted) && Small(run.remote) && next.remote.products == run.remote.products
  {
    var front, last := wanted[..|wanted| - 1], wanted[|wanted| - 1];
    var next := EnsurePlan(net, run.remote, product, last.name);
    EnsurePlanSettles(net, run.remote, product, last.name);
    LinesStand(run.remote, next.remote, product, front);
    AppendStands(net, next.remote, run.lines, product, wanted);
  }

  lemma {:induction false} FirstRunSettles(net: Net, r: Remote, product: string, wanted: seq<Wanted>)
    requires Usable(net, r)
    requires var run := EnsurePlans(net, Run(r, [], false), product, wanted);
             !run.threw && Small(run.remote) && Answered(net, r.gets, run.remote.gets)
    ensures var run := EnsurePlans(net, Run(r, [], false), product, wanted);
            Small(r) && Stands(net, run, product, wanted) && run.remote.products == r.products
  {
    if wanted != [] {
      var front, last := wanted[..|wanted| - 1], wanted[|wanted| - 1];
      var mid := EnsurePlans(net, Run(r, [], false), product, front);
      SmallBefore(net, mid.remote, product, last.name);
      FirstRunSettles(net, r, product, front);
      OneMoreStands(net, mid, product, wanted);
    }
  }

  lemma SettledPlanIsReused(net: Net, r: Remote, product: string, name: string)
    requires |PlansOf(r, product)| <= WINDOW && IdNow(r, product, name) != ""
    requires Answered(net, r.gets, EnsurePlan(net, r, product, name).remote.gets)
    ensures var e := EnsurePlan(net, r, product, name);
            e == Ensured(r.(gets := e.remote.gets), Some(IdNow(r, product, name)))
  {
    assert FirstTwoHundred(PlansOf(r, product)) == PlansOf(r, product);
    FindPlanIsLinear(net, PlansOf(r, product), name, r.gets);
  }

  lemma NextPlanIsReused(net: Net, run: Run, product: string, w: Wanted)
    requires !run.threw && |PlansOf(run.remote, product)| <= WINDOW && IdNow(run.remote, product, w.name) != ""
    requires Answered(net, run.remote.gets, EnsureNext(net, run, product, w).remote.gets)
    ensures var next := EnsureNext(net, run, product, w);
            next == Run(run.remote.(gets := next.remote.gets),
                        run.lines + [Line(w, IdNow(run.remote, product, w.name))], false)
  {
    SettledPlanIsReused(net, run.remote, product, w.name);
  }

  lemma {:induction false} SettledPlansAreReused(net: Net, r: Remote, product: string, wanted: seq<Wanted>)
    requires |PlansOf(r, product)| <= WINDOW && AllSettled(r, product, wanted)
    requires Answered(net, r.gets, EnsurePlans(net, Run(r, [], false), product, wanted).remote.gets)
    ensures var run := EnsurePlans(net, Run(r, [], false), product, wanted);
            run == Run(r.(gets := run.remote.gets), LinesNow(r, product, wanted), false)
  {
    if wanted != [] {
      var front, last := wanted[..|wanted| - 1], wanted[|wanted| - 1];
      var mid := EnsurePlans(net, Run(r, [], false), product, front);
      SettledPlansAreReused(net, r, product, front);
      NextPlanIsReused(net, mid, product, last);
    }
  }

  /** The plans half of two runs, the product's own list requests having come in between. */
  lemma PlansTwice(net: Net, r: Remote, product: string, wanted: seq<Wanted>, gets: nat)
    requires Usable(net, r)
    requires var first := EnsurePlans(net, Run(r, [], false), product, wanted);
             !first.threw && Small(first.remote) && gets >= first.remote.gets
    requires var first := EnsurePlans(net, Run(r, [], false), product, wanted);
             var again := Run(first.remote.(gets := gets), [], false);
             Answered(net, r.gets, EnsurePlans(net, again, product, wanted).remote.gets)
    ensures var first := EnsurePlans(net, Run(r, [], false), product, wanted);
            var second := EnsurePlans(net, Run(first.remote.(gets := gets), [], false), product, wanted);
            && second == Run(first.remote.(gets := second.remote.gets), first.lines, false)
            && first.remote.products == r.products
  {
    var first := EnsurePlans(net, Run(r, [], false), product, wanted);
    FirstRunSettles(net, r, product, wanted);
    var again := first.remote.(gets := gets);
    LinesStand(first.remote, again, product, wanted);
    SettledPlansAreReused(net, again, product, wanted);
  }

  lemma EnsureProductKeepsIds(net: Net, r: Remote, name: string)
    requires Usable(net, r)
    ensures Usable(net, EnsureProduct(net, r, name).remote)
  {
    var post := net.creates(r.posts);
    if !post.Rejected? {
      InsertedHaveIds(r.products, post.at, Thing(post.id, name));
    }
  }

  lemma EnsureProductSettles(net: Net, r: Remote, name: string)
    requires Usable(net, r)
    requires var e := EnsureProduct(net, r, name);
             |e.remote.products| <= WINDOW && e.id.Some? && Answered(net, r.gets, e.remote.gets)
    ensures var e := EnsureProduct(net, r, name);
            FirstNamed(e.remote.products, name).Some? && FirstNamed(e.remote.products, name).value.id == e.id.value
  {
    assert FirstTwoHundred(r.products) == r.products;
    FirstNamedHasId(r.products, name);
    FindProductIsLinearIff(net, r.products, name, r.gets);
    if FirstNamed(r.products, name).None? {
      var post := net.creates(r.posts);
      FirstNamedAfterInsert(r.products, post.at, Thing(post.id, name), name);
    }
  }

  lemma SettledProductIsReused(net: Net, r: Remote, name: string, id: string)
    requires HaveIds(r.products) && |r.products| <= WINDOW
    requires FirstNamed(r.products, name).Some? && FirstNamed(r.products, name).value.id == id
    requires Answered(net, r.gets, EnsureProduct(net, r, name).remote.gets)
    ensures var e := EnsureProduct(net, r, name); e == Ensured(r.(gets := e.remote.gets), Some(id))
  {
    assert FirstTwoHundred(r.products) == r.products;
    FirstNamedHasId(r.products, name);
    FindProductIsLinearIff(net, r.products, name, r.gets);
  }

  /** A completed run and the next are both fully answered, items carry ids, and no list ends up too long. */
  ghost predicate Repeatable(net: Net, r: Remote, site: Site) {
    var first := Setup(net, r, site);
    && Usable(net, r) && !first.threw && Small(first.remote)
    && Answered(net, r.gets, Setup(net, first.remote, site).remote.gets)
  }

  /**
   A completed run followed by another: when every list request is answered, no list outgrows the two
   hundred items the search looks at, and items carry ids, the second run creates nothing and prints the
   same lines -- whatever order the remote lists its items in, and wherever it puts new ones.
   */
  lemma SecondRunPrintsTheSame(net: Net, r: Remote, site: Site)
    requires Repeatable(net, r, site)
    ensures var first := Setup(net, r, site);
            var second := Setup(net, first.remote, site);
            second == Run(first.remote.(gets := second.remote.gets), first.lines, false)
  {
    var e, wanted := EnsureProduct(net, r, site.product), AllWanted(site);
    var first := Setup(net, r, site);
    var e2 := EnsureProduct(net, first.remote, site.product);
    EnsureProductKeepsIds(net, r, site.product);
    FirstRunSettles(net, e.remote, e.id.value, wanted);
    EnsureProductSettles(net, r, site.product);
    SettledProductIsReused(net, first.remote, site.product, e.id.value);
    PlansTwice(net, e.remote, e.id.value, wanted, e2.remote.gets);
  }

  // ---- What is printed -----------------------------------------------------------------------------------------

  /** Line k of a run is for entry k: the paid plans in order, then the featured and the sponsor plan. */
  ghost predicate EntryAt(site: Site, k: nat, envVar: string, name: string) {
    var paid := |site.paidPlans|;
    || (k < paid && site.paidPlans[k] == Wanted(envVar, name))
    || (k == paid && envVar == "PAYPAL_PLAN_FEATURED" && name == site.featured)
    || (k == paid + 1 && envVar == "PAYPAL_PLAN_SPONSOR_MONTHLY" && name == site.sponsor)
  }

  /** Item i is the first of its name and has that id. */
  ghost predicate FirstAt(plans: seq<Thing>, i: nat, name: string, id: string) {
    && i < |plans| && plans[i] == Thing(id, name)
    && forall j | 0 <= j < i :: plans[j].name != name
  }

  lemma {:induction false} FirstNamedIsFirst(list: seq<Thing>, name: string)
    requires FirstNamed(list, name).Some?
    ensures exists i: nat :: FirstAt(list, i, name, FirstNamed(list, name).value.id)
  {
    var id := FirstNamed(list, name).value.id;
    if list[0].name == name {
      assert FirstAt(list, 0, name, id);
    } else {
      FirstNamedIsFirst(list[1..], name);
      var i: nat :| FirstAt(list[1..], i, name, id);
      assert forall j | 0 < j < i + 1 :: list[1..][j - 1] == list[j];
      assert FirstAt(list, i + 1, name, id);
    }
  }

  lemma {:induction false} LineNowAt(r: Remote, product: string, wanted: seq<Wanted>, k: nat)
    requires k < |wanted| && IdNow(r, product, wanted[k].name) != ""
    ensures |LinesNow(r, product, wanted)| == |wanted|
    ensures LinesNow(r, product, wanted)[k] == wanted[k].envVar + "=" + IdNow(r, product, wanted[k].name)
  {
    if k == |wanted| - 1 {
      LinesNowLength(r, product, wanted);
    } else {
      LineNowAt(r, product, wanted[..|wanted| - 1], k);
    }
  }

  lemma {:induction false} LinesNowLength(r: Remote, product: string, wanted: seq<Wanted>)
    ensures |LinesNow(r, product, wanted)| == |wanted|
  {
    if wanted != [] {
      LinesNowLength(r, product, wanted[..|wanted| - 1]);
    }
  }

  lemma EntryOfAll(site: Site, k: nat, envVar: string, name: string)
    requires EntryAt(site, k, envVar, name)
    ensures k < |AllWanted(site)| && AllWanted(site)[k] == Wanted(envVar, name)
  {
  }

  /**
   What a completed run prints, under the same conditions: a line for each entry, in order, and it sets that
   entry's variable to the id of the first plan of its name now listed under the product -- the first product of
   the site's name.
   */
  lemma PrintsTheIdsThatAreListed(net: Net, r: Remote, site: Site, k: nat, envVar: string, name: string)
    requires Usable(net, r) && EntryAt(site, k, envVar, name)
    requires var run := Setup(net, r, site);
             !run.threw && Small(run.remote) && Answered(net, r.gets, run.remote.gets)
    ensures var run := Setup(net, r, site);
            && |run.lines| == |site.paidPlans| + 2
            && exists p: nat, product: string, i: nat, id: string ::
                 && FirstAt(run.remote.products, p, site.product, product)
                 && FirstAt(PlansOf(run.remote, product), i, name, id) && id != ""
                 && run.lines[k] == envVar + "=" + id
  {
    var e, wanted, run := EnsureProduct(net, r, site.product), AllWanted(site), Setup(net, r, site);
    var product := e.id.value;
    EnsureProductKeepsIds(net, r, site.product);
    FirstRunSettles(net, e.remote, product, wanted);
    EnsureProductSettles(net, r, site.product);
    EntryOfAll(site, k, envVar, name);
    LineNowAt(run.remote, product, wanted, k);
    FirstNamedIsFirst(run.remote.products, site.product);
    FirstNamedIsFirst(PlansOf(run.remote, product), name);
    var p: nat :| FirstAt(run.remote.products, p, site.product, product);
    var i: nat :| FirstAt(PlansOf(run.remote, product), i, name, IdNow(run.remote, product, name));
    assert run.lines[k] == envVar + "=" + IdNow(run.remote, product, name);
  }

  lemma {:induction false} OneLineEach(net: Net, r: Remote, product: string, wanted: seq<Wanted>, k: nat)
    requires k < |wanted| && !EnsurePlans(net, Run(r, [], false), product, wanted).threw
    ensures var lines := EnsurePlans(net, Run(r, [], false), product, wanted).lines;
            |lines| == |wanted| && wanted[k].envVar + "=" <= lines[k]
  {
    var front := wanted[..|wanted| - 1];
    if k < |front| {
      OneLineEach(net, r, product, front, k);
    } else if front != [] {
      OneLineEach(net, r, product, front, 0);
    }
  }

  /** Whatever the network does, a completed run prints one line an entry, in order, for its variable. */
  lemma PrintsOneLineAnEntry(net: Net, r: Remote, site: Site, k: nat, envVar: string, name: string)
    requires !Setup(net, r, site).threw && EntryAt(site, k, envVar, name)
    ensures var lines := Setup(net, r, site).lines;
            |lines| == |site.paidPlans| + 2 && envVar + "=" <= lines[k]
  {
    var e := EnsureProduct(net, r, site.product);
    EntryOfAll(site, k, envVar, name);
    OneLineEach(net, e.remote, e.id.value, AllWanted(site), k);
  }

  // ---- What is known before the run --------------------------------------------------------------------------

  /** Every request is answered and every create comes back with an id. */
  ghost predicate Calm(net: Net) {
    forall n :: net.answers(n) && net.creates(n).Made? && net.creates(n).id != ""
  }

  ghost predicate RoomFor(r: Remote, more: nat) {
    forall p :: |PlansOf(r, p)| + more <= WINDOW
  }

  lemma PlanTakesOnePlace(net: Net, r: Remote, product: string, name: string, more: nat)
    requires Calm(net) && more > 0 && RoomFor(r, more)
    ensures var e := EnsurePlan(net, r, product, name);
            e.id.Some? && RoomFor(e.remote, more - 1) && e.remote.products == r.products
  {
    var e := EnsurePlan(net, r, product, name);
    forall p ensures |PlansOf(e.remote, p)| + more - 1 <= WINDOW {
      assert |PlansOf(r, p)| + more <= WINDOW && |PlansOf(r, product)| + more <= WINDOW;
    }
  }

  lemma {:induction false} CalmPlansComplete(net: Net, r: Remote, product: string, wanted: seq<Wanted>, more: nat)
    requires Calm(net) && RoomFor(r, |wanted| + more)
    ensures var run := EnsurePlans(net, Run(r, [], false), product, wanted);
            !run.threw && RoomFor(run.remote, more) && run.remote.products == r.products
  {
    if wanted != [] {
      var front, last := wanted[..|wanted| - 1], wanted[|wanted| - 1];
      CalmPlansComplete(net, r, product, front, more + 1);
      PlanTakesOnePlace(net, EnsurePlans(net, Run(r, [], false), product, front).remote, product, last.name, more + 1);
    }
  }

  /** So with room left for everything the script may create, a calm network makes the run repeatable. */
  lemma RoomMakesItRepeatable(net: Net, r: Remote, site: Site)
    requires Calm(net) && Usable(net, r)
    requires |r.products| < WINDOW && RoomFor(r, |AllWanted(site)|)
    ensures Repeatable(net, r, site)
  {
    var e := EnsureProduct(net, r, site.product);
    assert e.id.Some? && RoomFor(e.remote, |AllWanted(site)|) by {
      forall p ensures |PlansOf(e.remote, p)| + |AllWanted(site)| <= WINDOW {
        assert PlansOf(e.remote, p) == PlansOf(r, p);
      }
    }
    CalmPlansComplete(net, e.remote, e.id.value, AllWanted(site), 0);
    var first := Setup(net, r, site).remote;
    forall p | p in first.plans ensures |first.plans[p]| <= WINDOW {
      assert |PlansOf(first, p)| + 0 <= WINDOW;
    }
  }
}
