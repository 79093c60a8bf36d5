/** What the billing setup script reuses, and that running it again, interrupted or not, makes no second plan. */
module PayPalRetries {
  import opened PayPalSetup
  import opened Wrappers

  // ---- Exactly what a lookup finds -----------------------------------------------------------------------------

  ghost predicate NoneNamed(list: seq<Thing>, name: string) {
    forall i | 0 <= i < |list| :: list[i].name != name
  }

  lemma {:induction false} FirstNamedOfFirst(list: seq<Thing>, name: string, i: nat, id: string)
    requires FirstAt(list, i, name, id)
    ensures FirstNamed(list, name) == Some(Thing(id, name))
  {
    if i > 0 {
      assert list[0].name != name;
      assert forall j | 0 <= j < i - 1 :: list[1..][j] == list[j + 1];
      FirstNamedOfFirst(list[1..], name, i - 1, id);
    }
  }

  lemma {:induction false} FirstNamedOfNone(list: seq<Thing>, name: string)
    requires NoneNamed(list, name)
    ensures FirstNamed(list, name) == None
  {
    if list != [] {
      assert forall j | 0 <= j < |list| - 1 :: list[1..][j] == list[j + 1];
      FirstNamedOfNone(list[1..], name);
    }
  }

  lemma PageHoldsIt(list: seq<Thing>, page: nat, name: string, i: nat, id: string)
    requires page >= 1 && FirstAt(list, i, name, id) && PAGE_SIZE * (page - 1) <= i
    ensures i < PAGE_SIZE * page ==> FirstNamed(Page(list, page), name) == Some(Thing(id, name))
    ensures i >= PAGE_SIZE * page ==> FirstNamed(Page(list, page), name) == None && |Page(list, page)| == PAGE_SIZE
  {
    var things, start := Page(list, page), PAGE_SIZE * (page - 1);
    assert forall j | 0 <= j < |things| :: things[j] == list[start + j];
    if i < PAGE_SIZE * page {
      assert FirstAt(things, i - start, name, id);
      FirstNamedOfFirst(things, name, i - start, id);
    } else {
      FirstNamedOfNone(things, name);
    }
  }

  lemma AnsweredOneMore(net: Net, from: nat, n: nat)
    requires n > 0
    ensures Answered(net, from, from + n) <==> net.answers(from) && Answered(net, from + 1, from + n)
  {
  }

  /** The first plan of the name is found if and only if one of ten pages has it and each up to there is answered. */
  lemma {:induction false} PlanFoundIff(net: Net, list: seq<Thing>, name: string, page: nat, gets: nat, i: nat,
                                        id: string)
    requires 1 <= page <= 11 && FirstAt(list, i, name, id) && 20 * (page - 1) <= i
    ensures var l, n := FindPlanFrom(net, list, name, page, gets), i / 20 + 2 - page;
            && n >= 1
            && (i < 200 && Answered(net, gets, gets + n) ==> l == Lookup(Some(Thing(id, name)), gets + n))
            && (!(i < 200 && Answered(net, gets, gets + n)) ==> l.found == None)
    decreases 11 - page
  {
    if page <= 10 {
      var n := i / 20 + 2 - page;
      PageHoldsIt(list, page, name, i, id);
      AnsweredOneMore(net, gets, n);
      if net.answers(gets) && i >= 20 * page {
        PlanFoundIff(net, list, name, page + 1, gets + 1, i, id);
      }
    }
  }

  lemma {:induction false} NoPlanFound(net: Net, list: seq<Thing>, name: string, page: nat, gets: nat)
    requires 1 <= page <= 11 && NoneNamed(list, name)
    ensures FindPlanFrom(net, list, name, page, gets).found == None
    decreases 11 - page
  {
    if page <= 10 {
      FirstNamedOfNone(Page(list, page), name);
      NoPlanFound(net, list, name, page + 1, gets + 1);
    }
  }

  lemma {:induction false} FirstOrNone(list: seq<Thing>, name: string)
    ensures NoneNamed(list, name) || exists i: nat, id :: FirstAt(list, i, name, id)
  {
    if list != [] {
      var n := |list| - 1;
      var front := list[..n];
      FirstOrNone(front, name);
      if NoneNamed(front, name) {
        if list[n].name == name {
          assert forall j | 0 <= j < n :: front[j] == list[j];
          assert FirstAt(list, n, name, list[n].id);
        }
      } else {
        var i: nat, id :| FirstAt(front, i, name, id);
        assert FirstAt(list, i, name, id);
      }
    }
  }

  /** A plan to reuse: the first of its name, with an id, among the first two hundred, its pages all answered. */
  ghost predicate ReusableAt(net: Net, r: Remote, product: string, name: string, i: nat, id: string) {
    && FirstAt(PlansOf(r, product), i, name, id) && id != "" && i < 200
    && Answered(net, r.gets, r.gets + i / 20 + 1)
  }

  /** A reused plan costs one list request a page and nothing else; without one, there is one create. */
  lemma ReusesIff(net: Net, r: Remote, product: string, name: string)
    ensures var e := EnsurePlan(net, r, product, name);
            if exists i: nat, id :: ReusableAt(net, r, product, name, i, id) then
              exists i: nat, id :: ReusableAt(net, r, product, name, i, id)
                && e == Ensured(r.(gets := r.gets + i / 20 + 1), Some(id))
            else e.remote.posts == r.posts + 1
  {
    var list := PlansOf(r, product);
    FirstOrNone(list, name);
    if NoneNamed(list, name) {
      NoPlanFound(net, list, name, 1, r.gets);
    } else {
      var i: nat, id :| FirstAt(list, i, name, id);
      PlanFoundIff(net, list, name, 1, r.gets, i, id);
      if ReusableAt(net, r, product, name, i, id) {
        assert EnsurePlan(net, r, product, name) == Ensured(r.(gets := r.gets + i / 20 + 1), Some(id));
      } else {
        forall j: nat, other | FirstAt(list, j, name, other) ensures j == i && other == id {
          OneFirst(list, name, i, id, j, other);
        }
      }
    }
  }

  lemma OneFirst(list: seq<Thing>, name: string, i: nat, id: string, j: nat, other: string)
    requires FirstAt(list, i, name, id) && FirstAt(list, j, name, other)
    ensures j == i && other == id
  {
  }

  // ---- Never a second ------------------------------------------------------------------------------------------

  function Named(list: seq<Thing>, name: string): nat {
    if list == [] then 0 else Named(list[..|list| - 1], name) + if list[|list| - 1].name == name then 1 else 0
  }

  function AtLeastOne(n: nat): nat {
    if n == 0 then 1 else n
  }

  /** No name has more items than it had, or than one. */
  ghost predicate NoSecond(before: seq<Thing>, after: seq<Thing>) {
    forall name :: Named(after, name) <= AtLeastOne(Named(before, name))
  }

  ghost predicate NoSecondAnywhere(before: Remote, after: Remote) {
    && NoSecond(before.products, after.products)
    && forall product :: NoSecond(PlansOf(before, product), PlansOf(after, product))
  }

  lemma {:induction false} NamedSplit(a: seq<Thing>, b: seq<Thing>, name: string)
    ensures Named(a + b, name) == Named(a, name) + Named(b, name)
  {
    if b == [] {
      assert a + b == a;
    } else {
      NamedSplit(a, b[..|b| - 1], name);
      assert (a + b)[..|a + b| - 1] == a + b[..|b| - 1];
    }
  }

  lemma NamedAfterInsert(list: seq<Thing>, at: nat, thing: Thing, name: string)
    ensures Named(InsertAt(list, at, thing), name) == Named(list, name) + if thing.name == name then 1 else 0
  {
    var k := Min(at, |list|);
    NamedSplit(list[..k], list[k..], name);
    NamedSplit(list[..k] + [thing], list[k..], name);
    NamedSplit(list[..k], [thing], name);
    assert list == list[..k] + list[k..];
  }

  lemma {:induction false} NoneIsNamed(list: seq<Thing>, name: string)
    requires FirstNamed(list, name) == None
    ensures Named(list, name) == 0
  {
    if list != [] {
      NoneIsNamed(list[1..], name);
      NamedSplit([list[0]], list[1..], name);
      assert list == [list[0]] + list[1..];
    }
  }

  lemma InsertingTheFirst(list: seq<Thing>, at: nat, thing: Thing)
    requires FirstNamed(list, thing.name) == None
    ensures NoSecond(list, InsertAt(list, at, thing))
  {
    NoneIsNamed(list, thing.name);
    forall name ensures Named(InsertAt(list, at, thing), name) <= AtLeastOne(Named(list, name)) {
      NamedAfterInsert(list, at, thing, name);
    }
  }

  ghost predicate AlwaysAnswers(net: Net) {
    forall n :: net.answers(n)
  }

  lemma OnePlanMakesNoSecond(net: Net, r: Remote, product: string, name: string)
    requires AlwaysAnswers(net) && Usable(net, r) && Small(EnsurePlan(net, r, product, name).remote)
    ensures var r' := EnsurePlan(net, r, product, name).remote;
            Usable(net, r') && Small(r) && NoSecondAnywhere(r, r')
  {
    var list, post := PlansOf(r, product), net.creates(r.posts);
    SmallBefore(net, r, product, name);
    assert FirstTwoHundred(list) == list;
    FindPlanIsLinear(net, list, name, r.gets);
    FirstNamedHasId(list, name);
    if FirstNamed(list, name).None? && !post.Rejected? {
      InsertedHaveIds(list, post.at, Thing(post.id, name));
      InsertingTheFirst(list, post.at, Thing(post.id, name));
    }
  }

  lemma TheProductMakesNoSecond(net: Net, r: Remote, name: string)
    requires AlwaysAnswers(net) && Usable(net, r) && Small(EnsureProduct(net, r, name).remote)
    ensures var r' := EnsureProduct(net, r, name).remote;
            Usable(net, r') && Small(r) && NoSecondAnywhere(r, r')
  {
    var post := net.creates(r.posts);
    EnsureProductKeepsIds(net, r, name);
    assert |r.products| <= |EnsureProduct(net, r, name).remote.products|;
    assert FirstTwoHundred(r.products) == r.products;
    FirstNamedHasId(r.products, name);
    FindProductIsLinearIff(net, r.products, name, r.gets);
    if FirstNamed(r.products, name).None? && !post.Rejected? {
      InsertingTheFirst(r.products, post.at, Thing(post.id, name));
    }
  }

  lemma NoSecondCompose(a: Remote, b: Remote, c: Remote)
    requires NoSecondAnywhere(a, b) && NoSecondAnywhere(b, c)
    ensures NoSecondAnywhere(a, c)
  {
    forall product ensures NoSecond(PlansOf(a, product), PlansOf(c, product)) {
      assert NoSecond(PlansOf(a, product), PlansOf(b, product)) && NoSecond(PlansOf(b, product), PlansOf(c, product));
    }
  }

  lemma {:induction false} PlansMakeNoSecond(net: Net, run: Run, product: string, wanted: seq<Wanted>)
    requires AlwaysAnswers(net) && Usable(net, run.remote)
    requires Small(EnsurePlans(net, run, product, wanted).remote)
    ensures var r' := EnsurePlans(net, run, product, wanted).remote;
            Usable(net, r') && Small(run.remote) && NoSecondAnywhere(run.remote, r')
  {
    if wanted != [] {
      var front, last := wanted[..|wanted| - 1], wanted[|wanted| - 1];
      var mid := EnsurePlans(net, run, product, front);
      if mid.threw {
        PlansMakeNoSecond(net, run, product, front);
      } else {
        SmallBefore(net, mid.remote, product, last.name);
        PlansMakeNoSecond(net, run, product, front);
        OnePlanMakesNoSecond(net, mid.remote, product, last.name);
        NoSecondCompose(run.remote, mid.remote, EnsurePlans(net, run, product, wanted).remote);
      }
    }
  }

  lemma OneRunMakesNoSecond(net: Net, r: Remote, site: Site)
    requires AlwaysAnswers(net) && Usable(net, r) && Small(Setup(net, r, site).remote)
    ensures var r' := Setup(net, r, site).remote;
            Usable(net, r') && Small(r) && NoSecondAnywhere(r, r')
  {
    var e := EnsureProduct(net, r, site.product);
    EnsureProductKeepsIds(net, r, site.product);
    if e.id.Some? {
      PlansMakeNoSecond(net, Run(e.remote, [], false), e.id.value, AllWanted(site));
      TheProductMakesNoSecond(net, r, site.product);
      NoSecondCompose(r, e.remote, Setup(net, r, site).remote);
    } else {
      TheProductMakesNoSecond(net, r, site.product);
    }
  }

  ghost predicate Kept(net: Net, before: Remote, after: Remote) {
    Usable(net, after) && NoSecondAnywhere(before, after)
  }

  /** Runs one after another, each stopping where it throws; remote i is what i of them leave. */
  ghost predicate Runs(net: Net, site: Site, remotes: seq<Remote>) {
    forall i | 0 < i < |remotes| :: OneRun(net, site, remotes[i - 1], remotes[i])
  }

  ghost predicate OneRun(net: Net, site: Site, before: Remote, after: Remote) {
    after == Setup(net, before, site).remote
  }

  lemma OneMoreRunKeeps(net: Net, site: Site, r: Remote, before: Remote, after: Remote)
    requires AlwaysAnswers(net) && Kept(net, r, before) && OneRun(net, site, before, after) && Small(after)
    ensures Kept(net, r, after)
  {
    OneRunMakesNoSecond(net, before, site);
    NoSecondCompose(r, before, after);
  }

  lemma {:induction false} RunsKeep(net: Net, site: Site, remotes: seq<Remote>, i: nat)
    requires AlwaysAnswers(net) && i < |remotes| && Usable(net, remotes[0]) && Runs(net, site, remotes)
    requires forall k | 0 <= k < |remotes| :: Small(remotes[k])
    ensures Kept(net, remotes[0], remotes[i])
  {
    if i > 0 {
      RunsKeep(net, site, remotes, i - 1);
      OneMoreRunKeeps(net, site, remotes[0], remotes[i - 1], remotes[i]);
    }
  }

  /**
   However often the script is run, and wherever its runs are cut short by a create that is rejected or whose
   answer is lost: while list requests are answered, items carry ids and no list outgrows two hundred, no name
   gets a second product, or a second plan under any product.
   */
  lemma NoRunMakesASecond(net: Net, site: Site, remotes: seq<Remote>, i: nat)
    requires AlwaysAnswers(net) && i < |remotes| && Usable(net, remotes[0]) && Runs(net, site, remotes)
    requires forall k | 0 <= k < |remotes| :: Small(remotes[k])
    ensures NoSecondAnywhere(remotes[0], remotes[i])
  {
    RunsKeep(net, site, remotes, i);
  }

  // ---- A create whose answer is lost -----------------------------------------------------------------------------

  /** The script throws, and the plan is there all the same: the next lookup comes back with it. */
  lemma ALostPlanIsFoundNext(net: Net, r: Remote, product: string, name: string, id: string, at: nat)
    requires Usable(net, r) && |PlansOf(r, product)| < WINDOW && NoneNamed(PlansOf(r, product), name)
    requires net.creates(r.posts) == Lost(id, at) && AlwaysAnswers(net)
    ensures var e := EnsurePlan(net, r, product, name);
            var again := EnsurePlan(net, e.remote, product, name);
            && e.id == None && again.id == Some(id)
            && again.remote == e.remote.(gets := again.remote.gets) && again.remote.posts == r.posts + 1
  {
    var e := EnsurePlan(net, r, product, name);
    NoPlanFound(net, PlansOf(r, product), name, 1, r.gets);
    FirstNamedOfNone(PlansOf(r, product), name);
    FirstNamedAfterInsert(PlansOf(r, product), at, Thing(id, name), name);
    SettledPlanIsReused(net, e.remote, product, name);
  }

  lemma ALostProductIsFoundNext(net: Net, r: Remote, name: string, id: string, at: nat)
    requires Usable(net, r) && |r.products| < WINDOW && NoneNamed(r.products, name)
    requires net.creates(r.posts) == Lost(id, at) && AlwaysAnswers(net)
    ensures var e := EnsureProduct(net, r, name);
            var again := EnsureProduct(net, e.remote, name);
            && e.id == None && again.id == Some(id)
            && again.remote == e.remote.(gets := again.remote.gets) && again.remote.posts == r.posts + 1
  {
    var e := EnsureProduct(net, r, name);
    assert FirstTwoHundred(r.products) == r.products;
    FirstNamedOfNone(r.products, name);
    FindProductIsLinearIff(net, r.products, name, r.gets);
    FirstNamedAfterInsert(r.products, at, Thing(id, name), name);
    InsertedHaveIds(r.products, at, Thing(id, name));
    SettledProductIsReused(net, e.remote, name, id);
  }

  /** An unanswered list request hides the plan that is there, and a second of its name is made. */
  lemma AnUnansweredListMakesASecond(net: Net, r: Remote, product: string, name: string, id: string, at: nat)
    requires !net.answers(r.gets) && net.creates(r.posts) == Made(id, at) && Named(PlansOf(r, product), name) == 1
    ensures Named(PlansOf(EnsurePlan(net, r, product, name).remote, product), name) == 2
  {
    NamedAfterInsert(PlansOf(r, product), at, Thing(id, name), name);
  }
}
