/** Widgets that may mount before the script they need: the waiting queue and each mount's life. */
module Turnstile {
  import opened Wrappers

  /** `widget` is the number of the render call that made it. */
  datatype Mount = Mount(live: bool, widget: Option<nat>)

  /** The n-th render call gives a widget, nothing, or an exception. */
  datatype Rendered = Widget | Nothing | Throws
  type Renderer = nat -> Rendered

  /** `mounted` and `renders` list mounts in the order they mounted and were passed to render. */
  datatype Page = Page(ready: bool, hooked: bool, scripts: nat, waiting: seq<Id>, mounts: map<Id, Mount>,
                       mounted: seq<Id>, renders: seq<Id>, onPage: set<nat>)

  /** ApiReady is the script defining window.turnstile; OnLoad is it calling the hook afterwards. */
  datatype Event = Mounts(m: Id) | Unmounts(m: Id) | ApiReady | OnLoad

  function Start(): Page {
    Page(false, false, 0, [], map[], [], [], {})
  }

  datatype Asked = Asked(page: Page, threw: bool)

  /** The callback a mount hands to whenTurnstileReady. */
  function Ask(renderer: Renderer, s: Page, m: Id): Asked
    requires m in s.mounts
  {
    if !s.mounts[m].live || s.mounts[m].widget.Some? || !s.ready then Asked(s, false)
    else
      var n := |s.renders|;
      var s1 := s.(renders := s.renders + [m]);
      match renderer(n)
      case Widget => Asked(s1.(mounts := s.mounts[m := Mount(true, Some(n))], onPage := s.onPage + {n}), false)
      case Nothing => Asked(s1, false)
      case Throws => Asked(s1, true)
  }

  predicate Known(s: Page, pending: seq<Id>) {
    forall i | 0 <= i < |pending| :: pending[i] in s.mounts
  }

  /** The hook's loop: an exception leaves the rest of the batch unasked, and already out of the queue. */
  function AskAll(renderer: Renderer, s: Page, pending: seq<Id>): Page
    requires Known(s, pending)
    decreases |pending|
  {
    if pending == [] then s
    else
      var asked := Ask(renderer, s, pending[0]);
      if asked.threw then asked.page else AskAll(renderer, asked.page, pending[1..])
  }

  function Without(queue: seq<Id>, m: Id): seq<Id> {
    if queue == [] then []
    else if queue[0] == m then queue[1..]
    else [queue[0]] + Without(queue[1..], m)
  }

  predicate Enabled(s: Page, e: Event) {
    match e
    case Mounts(m) => m !in s.mounts
    case Unmounts(m) => m in s.mounts && s.mounts[m].live
    case ApiReady => !s.ready
    case OnLoad => s.ready && s.hooked && Known(s, s.waiting)
  }

  function Enqueue(s: Page, m: Id): Page {
    s.(waiting := s.waiting + [m], hooked := true, scripts := if s.scripts == 0 then 1 else s.scripts)
  }

  function Mounted(s: Page, m: Id): Page {
    s.(mounts := s.mounts[m := Mount(true, None)], mounted := s.mounted + [m])
  }

  function Unmounted(s: Page, m: Id): Page
    requires m in s.mounts
  {
    var widget := s.mounts[m].widget;
    s.(mounts := s.mounts[m := Mount(false, None)], waiting := Without(s.waiting, m),
       onPage := if widget.Some? then s.onPage - {widget.value} else s.onPage)
  }

  function Step(renderer: Renderer, s: Page, e: Event): Page {
    if !Enabled(s, e) then s
    else
      match e
      case Mounts(m) =>
        var s1 := Mounted(s, m);
        if s.ready then Ask(renderer, s1, m).page else Enqueue(s1, m)
      case Unmounts(m) => Unmounted(s, m)
      case ApiReady => s.(ready := true)
      case OnLoad => AskAll(renderer, s.(waiting := []), s.waiting)
  }

  function Exec(renderer: Renderer, s: Page, events: seq<Event>): Page {
    if events == [] then s
    else Step(renderer, Exec(renderer, s, events[..|events| - 1]), events[|events| - 1])
  }

  // ---- The module's own state, updated in place --------------------------------------------------------------

  class Document {
    const renderer: Renderer
    var ready: bool
    var hooked: bool
    var scripts: nat
    var waiting: seq<Id>
    var mounts: map<Id, Mount>
    ghost var mounted: seq<Id>
    var renders: seq<Id>
    var onPage: set<nat>

    ghost function State(): Page
      reads this
    {
      Page(ready, hooked, scripts, waiting, mounts, mounted, renders, onPage)
    }

    constructor (renderer: Renderer)
      ensures this.renderer == renderer && State() == Start()
    {
      this.renderer := renderer;
      ready, hooked, scripts, waiting, mounts, mounted, renders, onPage := false, false, 0, [], map[], [], [], {};
    }

    method Callback(m: Id) returns (threw: bool)
      requires m in mounts
      modifies this`mounts, this`renders, this`onPage
      ensures Asked(State(), threw) == Ask(renderer, old(State()), m)
    {
      threw := false;
      if !mounts[m].live || mounts[m].widget.Some? || !ready {
        return;
      }
      var n := |renders|;
      renders := renders + [m];
      match renderer(n) {
        case Widget =>
          mounts := mounts[m := Mount(true, Some(n))];
          onPage := onPage + {n};
        case Nothing =>
        case Throws => threw := true;
      }
    }

    method WhenTurnstileReady(m: Id)
      requires m in mounts
      modifies this
      ensures State() == if old(ready) then Ask(renderer, old(State()), m).page else Enqueue(old(State()), m)
    {
      if ready {
        var _ := Callback(m);
        return;
      }
      waiting := waiting + [m];
      hooked := true;
      if scripts == 0 {
        scripts := 1;
      }
    }

    method MountWidget(m: Id)
      requires m !in mounts
      modifies this
      ensures State() == Step(renderer, old(State()), Mounts(m))
    {
      mounts := mounts[m := Mount(true, None)];
      mounted := mounted + [m];
      WhenTurnstileReady(m);
    }

    /** indexOf, then splice when it is there. */
    method Dequeue(m: Id)
      modifies this`waiting
      ensures waiting == Without(old(waiting), m)
    {
      var at := 0;
      while at < |waiting| && waiting[at] != m
        invariant 0 <= at <= |waiting|
        invariant Without(waiting, m) == waiting[..at] + Without(waiting[at..], m)
      {
        assert waiting[at..][1..] == waiting[at + 1..];
        at := at + 1;
      }
      if at < |waiting| {
        assert waiting[at..][1..] == waiting[at + 1..];
        waiting := waiting[..at] + waiting[at + 1..];
      }
    }

    method UnmountWidget(m: Id)
      requires m in mounts && mounts[m].live
      modifies this
      ensures State() == Step(renderer, old(State()), Unmounts(m))
    {
      var widget := mounts[m].widget;
      Dequeue(m);
      if widget.Some? {
        onPage := onPage - {widget.value};
      }
      mounts := mounts[m := Mount(false, None)];
    }

    method OnloadCallback()
      requires ready && hooked && Known(State(), waiting)
      modifies this
      ensures State() == Step(renderer, old(State()), OnLoad)
    {
      var pending := waiting;
      waiting := [];
      for i := 0 to |pending|
        invariant Known(State(), pending)
        invariant AskAll(renderer, State(), pending[i..]) == Step(renderer, old(State()), OnLoad)
      {
        assert pending[i..][1..] == pending[i + 1..];
        var threw := Callback(pending[i]);
        if threw {
          return;
        }
      }
    }
  }

  // ---- What every interleaving keeps -------------------------------------------------------------------------

  ghost predicate NoRepeats(s: seq<Id>) {
    forall i, j | 0 <= i < j < |s| :: s[i] != s[j]
  }

  function LiveOne(s: Page, m: Id): seq<Id> {
    if m in s.mounts && s.mounts[m].live then [m] else []
  }

  function LiveOf(s: Page, mounted: seq<Id>): seq<Id> {
    if mounted == [] then []
    else
      var last := mounted[|mounted| - 1];
      LiveOf(s, mounted[..|mounted| - 1]) + LiveOne(s, last)
  }

  ghost predicate RegistryInv(s: Page) {
    && NoRepeats(s.mounted) && s.scripts <= 1 && (s.waiting != [] ==> s.hooked && s.scripts == 1)
    && forall m :: m in s.mounted <==> m in s.mounts
  }

  ghost predicate QueueInv(s: Page) {
    && NoRepeats(s.waiting)
    && forall m | m in s.waiting :: m in s.mounts && s.mounts[m] == Mount(true, None) && m !in s.renders
  }

  ghost predicate RenderInv(s: Page) {
    NoRepeats(s.renders) && forall m | m in s.renders :: m in s.mounts
  }

  predicate ShownFor(s: Page, n: nat) {
    n < |s.renders| && s.renders[n] in s.mounts && s.mounts[s.renders[n]].widget == Some(n)
  }

  /** The widgets on the page are exactly those of live mounts, each from its own render call. */
  ghost predicate WidgetInv(s: Page) {
    && (forall m | m in s.mounts && s.mounts[m].widget.Some? ::
          s.mounts[m].live && s.mounts[m].widget.value < |s.renders| && s.renders[s.mounts[m].widget.value] == m)
    && (forall n: nat :: n in s.onPage <==> ShownFor(s, n))
  }

  ghost predicate BeforeLoadInv(s: Page) {
    !s.ready ==> s.renders == [] && s.waiting == LiveOf(s, s.mounted)
  }

  ghost predicate Inv(s: Page) {
    RegistryInv(s) && QueueInv(s) && RenderInv(s) && WidgetInv(s) && BeforeLoadInv(s)
  }

  // ---- Asking ------------------------------------------------------------------------------------------------

  /** A live mount that has been neither rendered nor queued. */
  ghost predicate Unasked(s: Page, m: Id) {
    m in s.mounts && s.mounts[m] == Mount(true, None) && m !in s.renders && m !in s.waiting
  }

  lemma AskKeepsWidgets(renderer: Renderer, s: Page, m: Id)
    requires WidgetInv(s) && Unasked(s, m)
    ensures WidgetInv(Ask(renderer, s, m).page)
  {
    var s' := Ask(renderer, s, m).page;
    forall n: nat ensures n in s'.onPage <==> ShownFor(s', n) {
      assert n < |s.renders| ==> s'.renders[n] == s.renders[n] && s.renders[n] in s.renders;
      assert n in s.onPage <==> ShownFor(s, n);
    }
  }

  lemma AskKeepsRenders(renderer: Renderer, s: Page, m: Id)
    requires RenderInv(s) && Unasked(s, m)
    ensures RenderInv(Ask(renderer, s, m).page)
  {
    var s' := Ask(renderer, s, m).page;
    assert forall i | 0 <= i < |s.renders| :: s.renders[i] in s.renders;
    forall x | x in s'.renders ensures x in s'.mounts {
      assert x in s.renders || x == m;
    }
  }

  lemma AskKeepsQueue(renderer: Renderer, s: Page, m: Id)
    requires QueueInv(s) && RegistryInv(s) && Unasked(s, m)
    ensures QueueInv(Ask(renderer, s, m).page) && RegistryInv(Ask(renderer, s, m).page)
  {
    var s' := Ask(renderer, s, m).page;
    assert s'.waiting == s.waiting && s'.mounts.Keys == s.mounts.Keys && s'.mounted == s.mounted;
    forall x | x in s.waiting ensures s'.mounts[x] == Mount(true, None) && x !in s'.renders {
      assert x != m;
    }
  }

  lemma AskKeepsInv(renderer: Renderer, s: Page, m: Id)
    requires Inv(s) && s.ready && Unasked(s, m)
    ensures var a := Ask(renderer, s, m);
            && Inv(a.page) && a.page.renders == s.renders + [m] && a.page.waiting == s.waiting && a.page.ready
            && a.page.mounts.Keys == s.mounts.Keys && a.page.mounted == s.mounted
            && (a.threw <==> renderer(|s.renders|) == Throws)
            && (forall x | x in s.mounts && x != m :: a.page.mounts[x] == s.mounts[x])
            && a.page.mounts[m].live
  {
    AskKeepsWidgets(renderer, s, m);
    AskKeepsRenders(renderer, s, m);
    AskKeepsQueue(renderer, s, m);
    assert Ask(renderer, s, m).page.ready;
  }

  /** How many of a batch are asked when the first throw ends it, counting the one that throws. */
  function Reached(renderer: Renderer, n: nat, batch: nat): (k: nat)
    ensures k <= batch
    decreases batch
  {
    if batch == 0 then 0
    else if renderer(n) == Throws then 1
    else 1 + Reached(renderer, n + 1, batch - 1)
  }

  ghost predicate AllUnasked(s: Page, pending: seq<Id>) {
    NoRepeats(pending) && forall i | 0 <= i < |pending| :: Unasked(s, pending[i])
  }

  lemma RestStaysUnasked(renderer: Renderer, s: Page, pending: seq<Id>)
    requires Inv(s) && s.ready && pending != [] && AllUnasked(s, pending)
    ensures AllUnasked(Ask(renderer, s, pending[0]).page, pending[1..])
  {
    var s', rest := Ask(renderer, s, pending[0]).page, pending[1..];
    AskKeepsInv(renderer, s, pending[0]);
    forall i | 0 <= i < |rest| ensures Unasked(s', rest[i]) {
      assert rest[i] == pending[i + 1] && Unasked(s, pending[i + 1]) && pending[0] != pending[i + 1];
    }
  }

  lemma OneThenRest(done: seq<Id>, pending: seq<Id>, k: nat)
    requires k < |pending|
    ensures done + [pending[0]] + pending[1..][..k] == done + pending[..k + 1]
  {
  }

  ghost predicate Fresh(s: Page, pending: seq<Id>) {
    && NoRepeats(pending)
    && forall i | 0 <= i < |pending| :: pending[i] in s.mounts && s.mounts[pending[i]] == Mount(true, None)
  }

  /** A batch of live, unrendered mounts is passed to render in order, up to the first throw. */
  lemma {:induction false} AskAllRenders(renderer: Renderer, s: Page, pending: seq<Id>)
    requires s.ready && Fresh(s, pending)
    ensures Known(s, pending)
    ensures var s' := AskAll(renderer, s, pending);
            && s'.renders == s.renders + pending[..Reached(renderer, |s.renders|, |pending|)]
            && s'.waiting == s.waiting && s'.ready && s'.mounts.Keys == s.mounts.Keys
            && forall m | m in s.mounts :: s'.mounts[m].live == s.mounts[m].live
    decreases |pending|
  {
    if pending != [] {
      var asked, rest := Ask(renderer, s, pending[0]), pending[1..];
      if !asked.threw {
        assert forall i | 0 <= i < |rest| :: rest[i] == pending[i + 1] && pending[0] != pending[i + 1];
        AskAllRenders(renderer, asked.page, rest);
        OneThenRest(s.renders, pending, Reached(renderer, |s.renders| + 1, |rest|));
      } else {
        OneThenRest(s.renders, pending, 0);
      }
    }
  }

  lemma {:induction false} AskAllKeepsInv(renderer: Renderer, s: Page, pending: seq<Id>)
    requires Inv(s) && s.ready && AllUnasked(s, pending) && Known(s, pending)
    ensures Inv(AskAll(renderer, s, pending))
    decreases |pending|
  {
    if pending != [] {
      assert Unasked(s, pending[0]);
      var asked := Ask(renderer, s, pending[0]);
      AskKeepsInv(renderer, s, pending[0]);
      if !asked.threw {
        RestStaysUnasked(renderer, s, pending);
        AskAllKeepsInv(renderer, asked.page, pending[1..]);
      }
    }
  }

  // ---- The queue ---------------------------------------------------------------------------------------------

  lemma {:induction false} WithoutKeepsOthers(queue: seq<Id>, m: Id, x: Id)
    requires NoRepeats(queue)
    ensures x in Without(queue, m) <==> x in queue && x != m
  {
    if queue != [] {
      var rest := queue[1..];
      assert forall i | 0 <= i < |rest| :: rest[i] == queue[i + 1];
      WithoutKeepsOthers(rest, m, x);
      assert queue == [queue[0]] + rest && queue[0] !in rest;
    }
  }

  lemma {:induction false} WithoutHasNoRepeats(queue: seq<Id>, m: Id)
    requires NoRepeats(queue)
    ensures NoRepeats(Without(queue, m))
  {
    if queue != [] && queue[0] != m {
      var rest := queue[1..];
      assert forall i | 0 <= i < |rest| :: rest[i] == queue[i + 1];
      WithoutHasNoRepeats(rest, m);
      WithoutKeepsOthers(rest, m, queue[0]);
      assert queue[0] !in rest && Without(queue, m) == [queue[0]] + Without(rest, m);
    }
  }

  lemma {:induction false} WithoutOfAppend(a: seq<Id>, b: seq<Id>, m: Id)
    ensures m in a ==> Without(a + b, m) == Without(a, m) + b
    ensures m !in a ==> Without(a + b, m) == a + Without(b, m)
  {
    if a == [] {
      assert a + b == b;
    } else {
      WithoutOfAppend(a[1..], b, m);
      assert (a + b)[1..] == a[1..] + b;
    }
  }

  lemma {:induction false} LiveOfSame(s: Page, s': Page, mounted: seq<Id>)
    requires forall m | m in mounted :: (m in s.mounts && s.mounts[m].live) <==> (m in s'.mounts && s'.mounts[m].live)
    ensures LiveOf(s, mounted) == LiveOf(s', mounted)
  {
    if mounted != [] {
      var front := mounted[..|mounted| - 1];
      assert forall m | m in front :: m in mounted;
      assert mounted[|mounted| - 1] in mounted;
      LiveOfSame(s, s', front);
    }
  }

  lemma {:induction false} LiveOfMembers(s: Page, mounted: seq<Id>, m: Id)
    ensures m in LiveOf(s, mounted) <==> m in mounted && m in s.mounts && s.mounts[m].live
  {
    if mounted != [] {
      LiveOfMembers(s, mounted[..|mounted| - 1], m);
      assert mounted == mounted[..|mounted| - 1] + [mounted[|mounted| - 1]];
    }
  }

  lemma {:induction false} WithoutAbsent(queue: seq<Id>, m: Id)
    requires m !in queue
    ensures Without(queue, m) == queue
  {
    if queue != [] {
      WithoutAbsent(queue[1..], m);
    }
  }

  lemma {:induction false} LiveOfUnmounted(s: Page, m: Id, mounted: seq<Id>)
    requires NoRepeats(mounted) && m in s.mounts && s.mounts[m].live
    ensures LiveOf(Unmounted(s, m), mounted) == Without(LiveOf(s, mounted), m)
  {
    if mounted != [] {
      var front, last := mounted[..|mounted| - 1], mounted[|mounted| - 1];
      var before := LiveOf(s, front);
      LiveOfUnmounted(s, m, front);
      LiveOfMembers(s, front, m);
      WithoutOfAppend(before, LiveOne(s, last), m);
      if last == m {
        assert m !in front;
        WithoutAbsent(before, m);
        assert Without(before + [m], m) == before + Without([m], m);
      } else {
        WithoutAbsent(LiveOne(s, last), m);
        if m !in before {
          WithoutAbsent(before, m);
        }
        assert LiveOne(Unmounted(s, m), last) == LiveOne(s, last);
      }
    }
  }

  // ---- Every step --------------------------------------------------------------------------------------------

  lemma MountedKeepsWidgets(s: Page, m: Id)
    requires WidgetInv(s) && RenderInv(s) && m !in s.mounts
    ensures WidgetInv(Mounted(s, m)) && RenderInv(Mounted(s, m))
  {
    var s1 := Mounted(s, m);
    forall n: nat ensures n in s1.onPage <==> ShownFor(s1, n) {
      assert n < |s.renders| ==> s.renders[n] in s.renders;
      assert n in s.onPage <==> ShownFor(s, n);
    }
  }

  lemma MountedKeepsQueue(s: Page, m: Id)
    requires QueueInv(s) && RenderInv(s) && m !in s.mounts
    ensures QueueInv(Mounted(s, m)) && Unasked(Mounted(s, m), m)
  {
  }

  lemma MountedKeepsRegistry(s: Page, m: Id)
    requires RegistryInv(s) && m !in s.mounts
    ensures var s1 := Mounted(s, m);
            && NoRepeats(s1.mounted) && (forall x :: x in s1.mounted <==> x in s1.mounts)
            && LiveOf(s1, s1.mounted) == LiveOf(s, s.mounted) + [m]
  {
    var s1 := Mounted(s, m);
    assert s1.mounted[..|s.mounted|] == s.mounted;
    assert forall i | 0 <= i < |s.mounted| :: s.mounted[i] in s.mounted;
    LiveOfSame(s, s1, s.mounted);
  }

  lemma MountedKeepsInv(s: Page, m: Id)
    requires Inv(s) && m !in s.mounts
    ensures var s1 := Mounted(s, m);
            && NoRepeats(s1.mounted) && (forall x :: x in s1.mounted <==> x in s1.mounts)
            && QueueInv(s1) && RenderInv(s1) && WidgetInv(s1) && Unasked(s1, m)
            && LiveOf(s1, s1.mounted) == LiveOf(s, s.mounted) + [m]
  {
    MountedKeepsWidgets(s, m);
    MountedKeepsQueue(s, m);
    MountedKeepsRegistry(s, m);
  }

  lemma EnqueueKeepsInv(s: Page, m: Id)
    requires NoRepeats(s.mounted) && s.scripts <= 1 && (forall x :: x in s.mounted <==> x in s.mounts)
    requires QueueInv(s) && RenderInv(s) && WidgetInv(s) && Unasked(s, m)
    requires !s.ready && s.renders == [] && s.waiting + [m] == LiveOf(s, s.mounted)
    ensures Inv(Enqueue(s, m))
  {
    var s' := Enqueue(s, m);
    LiveOfSame(s, s', s.mounted);
    assert forall n: nat :: ShownFor(s', n) <==> ShownFor(s, n);
    assert forall i | 0 <= i < |s.waiting| :: s.waiting[i] in s.waiting;
    assert forall x | x in s'.waiting :: x in s.waiting || x == m;
  }

  lemma MountKeepsInv(renderer: Renderer, s: Page, m: Id)
    requires Inv(s) && m !in s.mounts
    ensures Inv(Step(renderer, s, Mounts(m)))
  {
    MountedKeepsInv(s, m);
    if s.ready {
      assert Inv(Mounted(s, m));
      AskKeepsInv(renderer, Mounted(s, m), m);
    } else {
      EnqueueKeepsInv(Mounted(s, m), m);
    }
  }

  lemma UnmountKeepsWidgets(s: Page, m: Id)
    requires WidgetInv(s) && m in s.mounts
    ensures WidgetInv(Unmounted(s, m))
  {
    var s' := Unmounted(s, m);
    forall n: nat ensures n in s'.onPage <==> ShownFor(s', n) {
      assert n in s.onPage <==> ShownFor(s, n);
    }
  }

  lemma UnmountKeepsInv(renderer: Renderer, s: Page, m: Id)
    requires Inv(s) && m in s.mounts && s.mounts[m].live
    ensures Inv(Step(renderer, s, Unmounts(m)))
  {
    WithoutHasNoRepeats(s.waiting, m);
    forall x ensures x in Without(s.waiting, m) <==> x in s.waiting && x != m {
      WithoutKeepsOthers(s.waiting, m, x);
    }
    LiveOfUnmounted(s, m, s.mounted);
    UnmountKeepsWidgets(s, m);
  }

  lemma WaitingIsFresh(s: Page)
    requires QueueInv(s)
    ensures Fresh(s, s.waiting) && AllUnasked(s.(waiting := []), s.waiting) && Known(s, s.waiting)
  {
    assert forall i | 0 <= i < |s.waiting| :: s.waiting[i] in s.waiting;
  }

  lemma OnLoadKeepsInv(renderer: Renderer, s: Page)
    requires Inv(s) && Enabled(s, OnLoad)
    ensures Inv(Step(renderer, s, OnLoad))
  {
    WaitingIsFresh(s);
    var emptied := s.(waiting := []);
    assert forall n: nat :: ShownFor(emptied, n) <==> ShownFor(s, n);
    AskAllKeepsInv(renderer, emptied, s.waiting);
  }

  lemma OnLoadRenders(renderer: Renderer, s: Page)
    requires QueueInv(s) && Enabled(s, OnLoad)
    ensures var s' := Step(renderer, s, OnLoad);
            && s'.waiting == [] && s'.ready && s'.mounts.Keys == s.mounts.Keys
            && s'.renders == s.renders + s.waiting[..Reached(renderer, |s.renders|, |s.waiting|)]
            && forall m | m in s.mounts :: s'.mounts[m].live == s.mounts[m].live
  {
    WaitingIsFresh(s);
    AskAllRenders(renderer, s.(waiting := []), s.waiting);
  }

  lemma StepKeepsInv(renderer: Renderer, s: Page, e: Event)
    requires Inv(s)
    ensures Inv(Step(renderer, s, e))
  {
    if Enabled(s, e) {
      match e {
        case Mounts(m) => MountKeepsInv(renderer, s, m);
        case Unmounts(m) => UnmountKeepsInv(renderer, s, m);
        case ApiReady =>
        case OnLoad => OnLoadKeepsInv(renderer, s);
      }
    }
  }

  /** Over every interleaving of mounts, unmounts and the script's arrival. */
  lemma {:induction false} EveryReachablePage(renderer: Renderer, events: seq<Event>)
    ensures Inv(Exec(renderer, Start(), events))
  {
    if events != [] {
      EveryReachablePage(renderer, events[..|events| - 1]);
      StepKeepsInv(renderer, Exec(renderer, Start(), events[..|events| - 1]), events[|events| - 1]);
    }
  }

  // ---- What follows --------------------------------------------------------------------------------------------

  /** Before the script, the queue is exactly the live mounts, in the order they mounted, and none is rendered. */
  lemma BeforeLoadTheQueueIsTheLiveMounts(renderer: Renderer, events: seq<Event>)
    ensures var s := Exec(renderer, Start(), events);
            !s.ready ==> s.waiting == LiveOf(s, s.mounted) && s.renders == []
  {
    EveryReachablePage(renderer, events);
  }

  /** What a step adds to the render log was not an unmounted mount. */
  ghost predicate AddsNoDead(s: Page, s': Page) {
    && s.renders <= s'.renders
    && (forall i | |s.renders| <= i < |s'.renders| :: s'.renders[i] in s.mounts ==> s.mounts[s'.renders[i]].live)
    && forall m | m in s.mounts && !s.mounts[m].live :: m in s'.mounts && !s'.mounts[m].live
  }

  lemma OnLoadAddsNoDead(renderer: Renderer, s: Page)
    requires QueueInv(s) && Enabled(s, OnLoad)
    ensures AddsNoDead(s, Step(renderer, s, OnLoad))
  {
    OnLoadRenders(renderer, s);
    assert forall i | 0 <= i < |s.waiting| :: s.waiting[i] in s.waiting;
  }

  lemma MountAddsNoDead(renderer: Renderer, s: Page, m: Id)
    requires m !in s.mounts
    ensures AddsNoDead(s, Step(renderer, s, Mounts(m)))
  {
  }

  lemma StepAddsNoDead(renderer: Renderer, s: Page, e: Event)
    requires QueueInv(s)
    ensures AddsNoDead(s, Step(renderer, s, e))
  {
    if Enabled(s, e) {
      match e {
        case Mounts(m) => MountAddsNoDead(renderer, s, m);
        case Unmounts(m) =>
        case ApiReady =>
        case OnLoad => OnLoadAddsNoDead(renderer, s);
      }
    }
  }

  /** No mount is ever passed to render twice, and none after it has unmounted, however the events fall. */
  lemma {:induction false} RenderedAtMostOnceAndNeverAfterUnmount(renderer: Renderer, before: seq<Event>,
                                                                  after: seq<Event>, m: Id)
    requires var s := Exec(renderer, Start(), before); m in s.mounts && !s.mounts[m].live
    ensures var s := Exec(renderer, Start(), before);
            var s' := Exec(renderer, s, after);
            && NoRepeats(s'.renders) && (m in s'.renders <==> m in s.renders)
            && m in s'.mounts && !s'.mounts[m].live && Inv(s')
  {
    EveryReachablePage(renderer, before);
    if after != [] {
      var front, e := after[..|after| - 1], after[|after| - 1];
      RenderedAtMostOnceAndNeverAfterUnmount(renderer, before, front, m);
      var mid := Exec(renderer, Exec(renderer, Start(), before), front);
      StepKeepsInv(renderer, mid, e);
      StepAddsNoDead(renderer, mid, e);
      var last := Step(renderer, mid, e);
      if m in last.renders {
        var i :| 0 <= i < |last.renders| && last.renders[i] == m;
        assert i < |mid.renders| ==> mid.renders[i] == m;
      }
      assert m in mid.renders ==> m in last.renders;
    }
  }

  /** After an unmount nothing of the mount is left: not in the queue, no widget on the page. */
  lemma UnmountLeavesNothing(renderer: Renderer, events: seq<Event>, m: Id)
    requires var s := Exec(renderer, Start(), events); m in s.mounts && !s.mounts[m].live
    ensures var s := Exec(renderer, Start(), events);
            && m !in s.waiting
            && forall n: nat | n in s.onPage :: n < |s.renders| && s.renders[n] != m
  {
    EveryReachablePage(renderer, events);
    var s := Exec(renderer, Start(), events);
    forall n: nat | n in s.onPage ensures n < |s.renders| && s.renders[n] != m {
      assert ShownFor(s, n);
    }
  }

  // ---- The script and the page -----------------------------------------------------------------------------------

  ghost predicate MountsBeforeTheScript(events: seq<Event>) {
    exists i :: 0 <= i < |events| && events[i].Mounts? && ApiReady !in events[..i]
  }

  lemma BeforeTheLastEvent(events: seq<Event>)
    requires events != []
    ensures var front, e := events[..|events| - 1], events[|events| - 1];
            && (ApiReady in events <==> ApiReady in front || e == ApiReady)
            && (MountsBeforeTheScript(events) <==>
                MountsBeforeTheScript(front) || (e.Mounts? && ApiReady !in front))
  {
    var n := |events| - 1;
    var front := events[..n];
    assert events == front + [events[n]];
    assert forall i | 0 <= i <= n :: front[..i] == events[..i];
    if events[n].Mounts? && ApiReady !in front {
      assert events[..n] == front;
    }
    if MountsBeforeTheScript(front) {
      var i :| 0 <= i < n && front[i].Mounts? && ApiReady !in front[..i];
      assert events[i].Mounts? && ApiReady !in events[..i];
    }
  }

  /**
   The script counts as there from the moment it arrives; one tag is added and the hook is set if and only if
   something mounts before that.
   */
  lemma {:induction false} OneScriptTag(renderer: Renderer, events: seq<Event>)
    ensures var s := Exec(renderer, Start(), events);
            && (s.ready <==> ApiReady in events)
            && (s.hooked <==> MountsBeforeTheScript(events))
            && s.scripts == (if MountsBeforeTheScript(events) then 1 else 0)
            && (!s.ready && s.mounts != map[] ==> s.hooked)
  {
    if events != [] {
      var front, e := events[..|events| - 1], events[|events| - 1];
      var s := Exec(renderer, Start(), front);
      OneScriptTag(renderer, front);
      BeforeTheLastEvent(events);
      EveryReachablePage(renderer, front);
      if e.OnLoad? && Enabled(s, e) {
        WaitingIsFresh(s);
        AskAllTouchesNoScript(renderer, s.(waiting := []), s.waiting);
      }
    }
  }

  lemma {:induction false} AskAllTouchesNoScript(renderer: Renderer, s: Page, pending: seq<Id>)
    requires Known(s, pending)
    ensures var s' := AskAll(renderer, s, pending);
            s'.ready == s.ready && s'.hooked == s.hooked && s'.scripts == s.scripts
    decreases |pending|
  {
    if pending != [] && !Ask(renderer, s, pending[0]).threw {
      AskAllTouchesNoScript(renderer, Ask(renderer, s, pending[0]).page, pending[1..]);
    }
  }

  /** Render call n made a widget for a mount that is still there. */
  ghost predicate Made(renderer: Renderer, s: Page, n: nat) {
    n < |s.renders| && renderer(n) == Widget && s.renders[n] in s.mounts && s.mounts[s.renders[n]].live
  }

  ghost predicate ShowsWhatWasMade(renderer: Renderer, s: Page) {
    forall n: nat :: n in s.onPage <==> Made(renderer, s, n)
  }

  lemma AskShowsWhatWasMade(renderer: Renderer, s: Page, m: Id)
    requires ShowsWhatWasMade(renderer, s) && s.ready && Unasked(s, m)
    ensures ShowsWhatWasMade(renderer, Ask(renderer, s, m).page)
  {
    var s' := Ask(renderer, s, m).page;
    forall n: nat ensures n in s'.onPage <==> Made(renderer, s', n) {
      assert n < |s.renders| ==> s.renders[n] in s.renders && s'.renders[n] == s.renders[n];
      assert n in s.onPage <==> Made(renderer, s, n);
    }
  }

  lemma {:induction false} AskAllShowsWhatWasMade(renderer: Renderer, s: Page, pending: seq<Id>)
    requires Inv(s) && s.ready && AllUnasked(s, pending) && Known(s, pending) && ShowsWhatWasMade(renderer, s)
    ensures ShowsWhatWasMade(renderer, AskAll(renderer, s, pending))
    decreases |pending|
  {
    if pending != [] {
      assert Unasked(s, pending[0]);
      AskShowsWhatWasMade(renderer, s, pending[0]);
      var asked := Ask(renderer, s, pending[0]);
      if !asked.threw {
        AskKeepsInv(renderer, s, pending[0]);
        RestStaysUnasked(renderer, s, pending);
        AskAllShowsWhatWasMade(renderer, asked.page, pending[1..]);
      }
    }
  }

  lemma MountShowsWhatWasMade(renderer: Renderer, s: Page, m: Id)
    requires Inv(s) && m !in s.mounts && ShowsWhatWasMade(renderer, s)
    ensures ShowsWhatWasMade(renderer, Step(renderer, s, Mounts(m)))
  {
    var s1 := Mounted(s, m);
    MountedKeepsInv(s, m);
    forall n: nat ensures n in s1.onPage <==> Made(renderer, s1, n) {
      assert n < |s.renders| ==> s.renders[n] in s.renders;
      assert n in s.onPage <==> Made(renderer, s, n);
    }
    if s.ready {
      AskShowsWhatWasMade(renderer, s1, m);
    } else {
      assert forall n: nat :: Made(renderer, Enqueue(s1, m), n) <==> Made(renderer, s1, n);
    }
  }

  lemma UnmountShowsWhatWasMade(renderer: Renderer, s: Page, m: Id)
    requires Inv(s) && m in s.mounts && ShowsWhatWasMade(renderer, s)
    ensures ShowsWhatWasMade(renderer, Unmounted(s, m))
  {
    var s' := Unmounted(s, m);
    forall n: nat ensures n in s'.onPage <==> Made(renderer, s', n) {
      assert n in s.onPage <==> Made(renderer, s, n);
      assert n in s.onPage <==> ShownFor(s, n);
    }
  }

  lemma StepShowsWhatWasMade(renderer: Renderer, s: Page, e: Event)
    requires Inv(s) && ShowsWhatWasMade(renderer, s)
    ensures ShowsWhatWasMade(renderer, Step(renderer, s, e))
  {
    if Enabled(s, e) {
      match e {
        case Mounts(m) => MountShowsWhatWasMade(renderer, s, m);
        case Unmounts(m) => UnmountShowsWhatWasMade(renderer, s, m);
        case ApiReady =>
          assert forall n: nat :: Made(renderer, Step(renderer, s, e), n) <==> Made(renderer, s, n);
        case OnLoad =>
          WaitingIsFresh(s);
          var emptied := s.(waiting := []);
          assert forall n: nat :: ShownFor(emptied, n) <==> ShownFor(s, n);
          assert forall n: nat :: Made(renderer, emptied, n) <==> Made(renderer, s, n);
          AskAllShowsWhatWasMade(renderer, emptied, s.waiting);
      }
    }
  }

  /** A widget is on the page if and only if its render call made it and its mount is still there. */
  lemma {:induction false} OnThePageIff(renderer: Renderer, events: seq<Event>)
    ensures ShowsWhatWasMade(renderer, Exec(renderer, Start(), events))
  {
    if events != [] {
      var front := events[..|events| - 1];
      OnThePageIff(renderer, front);
      EveryReachablePage(renderer, front);
      StepShowsWhatWasMade(renderer, Exec(renderer, Start(), front), events[|events| - 1]);
    }
  }

  // ---- At load -------------------------------------------------------------------------------------------------

  predicate NeverThrows(renderer: Renderer, n: nat, batch: nat) {
    forall k: nat | n <= k < n + batch :: renderer(k) != Throws
  }

  lemma {:induction false} ReachedAllIff(renderer: Renderer, n: nat, batch: nat)
    ensures Reached(renderer, n, batch) == batch <==> batch == 0 || NeverThrows(renderer, n, batch - 1)
    decreases batch
  {
    if batch > 1 {
      ReachedAllIff(renderer, n + 1, batch - 1);
      if renderer(n) != Throws && NeverThrows(renderer, n + 1, batch - 2) {
        assert NeverThrows(renderer, n, batch - 1);
      }
    }
  }

  lemma PartOfBatch(done: seq<Id>, batch: seq<Id>, k: nat)
    requires k <= |batch|
    ensures done <= done + batch[..k] <= done + batch
    ensures done + batch[..k] == done + batch <==> k == |batch|
  {
    assert |done + batch[..k]| == |done| + k;
  }

  /**
   When the script calls its hook, the waiting mounts are rendered in the order they mounted, and the queue is
   left empty. All of them are rendered if and only if no render call but the last one throws.
   */
  lemma LoadRendersTheQueue(renderer: Renderer, events: seq<Event>)
    requires Enabled(Exec(renderer, Start(), events), OnLoad)
    ensures var s := Exec(renderer, Start(), events);
            var s' := Step(renderer, s, OnLoad);
            && s'.waiting == []
            && s.renders <= s'.renders <= s.renders + s.waiting
            && (s'.renders == s.renders + s.waiting <==>
                s.waiting == [] || NeverThrows(renderer, |s.renders|, |s.waiting| - 1))
  {
    EveryReachablePage(renderer, events);
    var s := Exec(renderer, Start(), events);
    OnLoadRenders(renderer, s);
    ReachedAllIff(renderer, |s.renders|, |s.waiting|);
    PartOfBatch(s.renders, s.waiting, Reached(renderer, |s.renders|, |s.waiting|));
  }

  ghost predicate EveryLiveMountIsHandled(s: Page) {
    forall m | m in s.mounts && s.mounts[m].live :: m in s.waiting || m in s.renders
  }

  ghost predicate CalmRenderer(renderer: Renderer) {
    forall k: nat :: renderer(k) != Throws
  }

  lemma OnLoadHandlesEveryMount(renderer: Renderer, s: Page)
    requires QueueInv(s) && Enabled(s, OnLoad) && EveryLiveMountIsHandled(s) && CalmRenderer(renderer)
    ensures EveryLiveMountIsHandled(Step(renderer, s, OnLoad))
  {
    OnLoadRenders(renderer, s);
    ReachedAllIff(renderer, |s.renders|, |s.waiting|);
    assert Step(renderer, s, OnLoad).renders == s.renders + s.waiting;
  }

  lemma MountHandlesEveryMount(renderer: Renderer, s: Page, m: Id)
    requires m !in s.mounts && EveryLiveMountIsHandled(s)
    ensures EveryLiveMountIsHandled(Step(renderer, s, Mounts(m)))
  {
    var s' := Step(renderer, s, Mounts(m));
    assert s.ready ==> s'.renders == s.renders + [m];
  }

  lemma UnmountHandlesEveryMount(renderer: Renderer, s: Page, m: Id)
    requires NoRepeats(s.waiting) && m in s.mounts && EveryLiveMountIsHandled(s)
    ensures EveryLiveMountIsHandled(Unmounted(s, m))
  {
    forall x | x in s.waiting && x != m ensures x in Without(s.waiting, m) {
      WithoutKeepsOthers(s.waiting, m, x);
    }
  }

  lemma StepHandlesEveryMount(renderer: Renderer, s: Page, e: Event)
    requires QueueInv(s) && EveryLiveMountIsHandled(s) && CalmRenderer(renderer)
    ensures EveryLiveMountIsHandled(Step(renderer, s, e))
  {
    if Enabled(s, e) {
      match e {
        case Mounts(m) => MountHandlesEveryMount(renderer, s, m);
        case Unmounts(m) => UnmountHandlesEveryMount(renderer, s, m);
        case ApiReady =>
        case OnLoad => OnLoadHandlesEveryMount(renderer, s);
      }
    }
  }

  lemma {:induction false} EveryMountIsHandled(renderer: Renderer, events: seq<Event>)
    requires CalmRenderer(renderer)
    ensures EveryLiveMountIsHandled(Exec(renderer, Start(), events))
  {
    if events != [] {
      EveryMountIsHandled(renderer, events[..|events| - 1]);
      EveryReachablePage(renderer, events[..|events| - 1]);
      StepHandlesEveryMount(renderer, Exec(renderer, Start(), events[..|events| - 1]), events[|events| - 1]);
    }
  }

  lemma {:induction false} QueueStaysEmpty(renderer: Renderer, s: Page, after: seq<Event>)
    requires s.ready && s.waiting == [] && Inv(s)
    ensures var s' := Exec(renderer, s, after); s'.ready && s'.waiting == [] && Inv(s')
  {
    if after != [] {
      var front, e := after[..|after| - 1], after[|after| - 1];
      QueueStaysEmpty(renderer, s, front);
      var mid := Exec(renderer, s, front);
      StepKeepsInv(renderer, mid, e);
      if Enabled(mid, e) && e.OnLoad? {
        OnLoadRenders(renderer, mid);
      }
    }
  }

  lemma {:induction false} ExecAppend(renderer: Renderer, s: Page, a: seq<Event>, b: seq<Event>)
    ensures Exec(renderer, s, a + b) == Exec(renderer, Exec(renderer, s, a), b)
  {
    if b == [] {
      assert a + b == a;
    } else {
      ExecAppend(renderer, s, a, b[..|b| - 1]);
      assert (a + b)[..|a + b| - 1] == a + b[..|b| - 1];
    }
  }

  /** From the hook's call on, if no render throws, every live mount has been rendered -- exactly once. */
  lemma AfterLoadEveryLiveMountIsRendered(renderer: Renderer, before: seq<Event>, after: seq<Event>, m: Id)
    requires CalmRenderer(renderer) && Enabled(Exec(renderer, Start(), before), OnLoad)
    ensures var s := Exec(renderer, Start(), before + [OnLoad] + after);
            && NoRepeats(s.renders) && s.waiting == []
            && (m in s.mounts && s.mounts[m].live ==> m in s.renders)
  {
    var trace := before + [OnLoad];
    assert trace[..|trace| - 1] == before;
    EveryReachablePage(renderer, before);
    OnLoadKeepsInv(renderer, Exec(renderer, Start(), before));
    OnLoadRenders(renderer, Exec(renderer, Start(), before));
    QueueStaysEmpty(renderer, Exec(renderer, Start(), trace), after);
    ExecAppend(renderer, Start(), trace, after);
    EveryMountIsHandled(renderer, trace + after);
  }

  // ---- Behind a throw ------------------------------------------------------------------------------------------

  lemma {:induction false} ReachedIff(renderer: Renderer, n: nat, batch: nat, j: nat)
    requires j < batch
    ensures j < Reached(renderer, n, batch) <==> NeverThrows(renderer, n, j)
    decreases batch
  {
    if j > 0 {
      ReachedIff(renderer, n + 1, batch - 1, j - 1);
      if renderer(n) != Throws && NeverThrows(renderer, n + 1, j - 1) {
        assert NeverThrows(renderer, n, j);
      }
    }
  }

  /** With the queue empty, only a mount that is new to the page can be passed to render. */
  lemma EmptyQueueStep(renderer: Renderer, s: Page, e: Event, m: Id)
    requires s.ready && s.waiting == [] && m in s.mounts
    ensures var s' := Step(renderer, s, e);
            && s'.ready && s'.waiting == [] && m in s'.mounts
            && (m in s'.renders <==> m in s.renders)
  {
  }

  lemma {:induction false} EmptyQueueLeavesItAlone(renderer: Renderer, s: Page, after: seq<Event>, m: Id)
    requires s.ready && s.waiting == [] && m in s.mounts
    ensures var s' := Exec(renderer, s, after);
            && s'.ready && s'.waiting == [] && m in s'.mounts
            && (m in s'.renders <==> m in s.renders)
  {
    if after != [] {
      var front := after[..|after| - 1];
      EmptyQueueLeavesItAlone(renderer, s, front, m);
      EmptyQueueStep(renderer, Exec(renderer, s, front), after[|after| - 1], m);
    }
  }

  lemma InTheReachedPart(done: seq<Id>, batch: seq<Id>, k: nat, j: nat)
    requires NoRepeats(batch) && k <= |batch| && j < |batch| && batch[j] !in done
    ensures batch[j] in done + batch[..k] <==> j < k
  {
    if batch[j] in batch[..k] {
      var i :| 0 <= i < k && batch[..k][i] == batch[j];
      assert i == j;
    }
    assert j < k ==> batch[..k][j] == batch[j];
  }

  /**
   The loop has already taken the batch out of the queue, so a mount waiting at load is passed to render if and
   only if none of those ahead of it throws -- at load or ever after, whatever events follow.
   */
  lemma BehindAThrowIsNeverTried(renderer: Renderer, before: seq<Event>, after: seq<Event>, j: nat)
    requires var s := Exec(renderer, Start(), before); Enabled(s, OnLoad) && j < |s.waiting|
    ensures var s := Exec(renderer, Start(), before);
            s.waiting[j] in Exec(renderer, Start(), before + [OnLoad] + after).renders <==>
              NeverThrows(renderer, |s.renders|, j)
  {
    var s := Exec(renderer, Start(), before);
    var trace := before + [OnLoad];
    assert trace[..|trace| - 1] == before;
    EveryReachablePage(renderer, before);
    assert s.waiting[j] in s.waiting;
    OnLoadRenders(renderer, s);
    ReachedIff(renderer, |s.renders|, |s.waiting|, j);
    InTheReachedPart(s.renders, s.waiting, Reached(renderer, |s.renders|, |s.waiting|), j);
    EmptyQueueLeavesItAlone(renderer, Exec(renderer, Start(), trace), after, s.waiting[j]);
    ExecAppend(renderer, Start(), trace, after);
  }
}
