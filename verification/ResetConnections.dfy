/** What one connection may ask of the reset form in an hour, and what a refusal tells it about waiting. */
module ResetConnections {
  import opened PasswordReset
  import opened ResetBudgets
  import opened Wrappers

  // ---- Who is refused ------------------------------------------------------------------------------------------

  /** Valid requests of one connection in one hour, whatever became of them. */
  function FromConnection(site: Site, subject: string, hour: nat): Entry -> bool {
    (e: Entry) => !e.reply.Invalid? && ClientIp(site.trustCloudflare, e.request.headers) == Some(subject)
                  && e.request.now / 3600000 == hour
  }

  /** Requests that reach the budget of an address whose counter the connection's subject names. */
  function AskedUnder(site: Site, subject: string, hour: nat): Entry -> bool {
    (e: Entry) => e.reply.Sent? && "email:" + HashOf(site, e.request) == subject && e.request.now / 3600000 == hour
  }

  function Tries(site: Site, log: seq<Entry>, subject: string, hour: nat): nat {
    Count(log, FromConnection(site, subject, hour)) + Count(log, AskedUnder(site, subject, hour))
  }

  ghost predicate TriesAreCounted(site: Site, counters: Counters, log: seq<Entry>) {
    && OutlivesWindow(counters)
    && forall subject: string, hour: nat ::
         Spent(counters, ConnectionKey(subject), hour) == Tries(site, log, subject, hour)
  }

  /** Refused exactly when the address is valid, the connection known, and its five an hour, scaled, used up. */
  ghost predicate RefusedIfUsedUp(site: Site, before: seq<Entry>, e: Entry) {
    var subject := ClientIp(site.trustCloudflare, e.request.headers);
    && (e.reply.Invalid? <==> !Deliverable(Address(e.request.email)))
    && (e.reply.TooMany? <==>
          && Deliverable(Address(e.request.email)) && subject.Some?
          && Tries(site, before, subject.value, e.request.now / 3600000) >= 5 * site.multiplier)
  }

  lemma TriesOneMore(site: Site, log: seq<Entry>, e: Entry, subject: string, hour: nat)
    ensures Tries(site, log + [e], subject, hour) ==
            Tries(site, log, subject, hour) + (if FromConnection(site, subject, hour)(e) then 1 else 0)
            + if AskedUnder(site, subject, hour)(e) then 1 else 0
  {
    CountOneMore(log, e, FromConnection(site, subject, hour));
    CountOneMore(log, e, AskedUnder(site, subject, hour));
  }

  lemma ConnectionKeyIsInjective(a: string, b: string)
    ensures ConnectionKey(a) == ConnectionKey(b) <==> a == b
  {
    assert a == ConnectionKey(a)[16..] && b == ConnectionKey(b)[16..];
  }

  lemma AddressKeyIsAConnectionKey(site: Site, email: string, subject: string)
    ensures AddressKey(site, email) == ConnectionKey(subject) <==> "email:" + site.sha256(site.lower(email)) == subject
  {
    var hash := site.sha256(site.lower(email));
    assert AddressKey(site, email) == HashKey(hash);
    KeyNamesSubject(subject, hash);
  }

  lemma ConnectionCountsOne(site: Site, counters: Counters, r: Request, subject: string, hour: nat)
    requires OutlivesWindow(counters)
    ensures Spent(ConnectionSpent(site, counters, r), ConnectionKey(subject), hour) ==
            Spent(counters, ConnectionKey(subject), hour)
            + if ClientIp(site.trustCloudflare, r.headers) == Some(subject) && hour == r.now / 3600000 then 1 else 0
  {
    var own := ClientIp(site.trustCloudflare, r.headers);
    if own.Some? {
      SpendCountsOne(counters, ConnectionKey(own.value), r.now);
      ConnectionKeyIsInjective(own.value, subject);
    }
  }

  lemma OneAnswerIsCounted<A>(site: Site, reset: (A, string) -> Outcome<A>, w: World<A>, r: Request)
    returns (e: Entry)
    requires TriesAreCounted(site, w.counters, w.log)
    ensures var w' := Answer(site, reset, w, r);
            w'.log == w.log + [e] && e.request == r && TriesAreCounted(site, w'.counters, w'.log)
  {
    var w' := Answer(site, reset, w, r);
    e := AnswerSpends(site, reset, w, r);
    forall subject: string, hour: nat
      ensures Spent(w'.counters, ConnectionKey(subject), hour) == Tries(site, w'.log, subject, hour)
    {
      TriesOneMore(site, w.log, e, subject, hour);
      ConnectionCountsOne(site, w.counters, r, subject, hour);
      AddressKeyIsAConnectionKey(site, Address(r.email), subject);
    }
  }

  lemma OneAnswerIsRefusedIff<A>(site: Site, reset: (A, string) -> Outcome<A>, w: World<A>, r: Request, e: Entry)
    requires TriesAreCounted(site, w.counters, w.log)
    requires Answer(site, reset, w, r).log == w.log + [e] && e.request == r
    ensures RefusedIfUsedUp(site, w.log, e)
  {
    assert e == Answer(site, reset, w, r).log[|w.log|];
    var subject := ClientIp(site.trustCloudflare, r.headers);
    if subject.Some? {
      ConnectionCountsOne(site, w.counters, r, subject.value, r.now / 3600000);
      SpendCountsOne(w.counters, ConnectionKey(subject.value), r.now);
    }
  }

  ghost predicate EachRefusedIfUsedUp(site: Site, requests: seq<Request>, log: seq<Entry>) {
    && |log| == |requests|
    && forall i | 0 <= i < |log| :: log[i].request == requests[i] && RefusedIfUsedUp(site, log[..i], log[i])
  }

  lemma OneMoreRefusedIfUsedUp(site: Site, requests: seq<Request>, r: Request, log: seq<Entry>, e: Entry)
    requires EachRefusedIfUsedUp(site, requests, log) && e.request == r && RefusedIfUsedUp(site, log, e)
    ensures EachRefusedIfUsedUp(site, requests + [r], log + [e])
  {
    var requests', log' := requests + [r], log + [e];
    forall i | 0 <= i < |log'| ensures log'[i].request == requests'[i] && RefusedIfUsedUp(site, log'[..i], log'[i]) {
      if i < |log| {
        assert log'[..i] == log[..i];
      } else {
        assert log'[..i] == log;
      }
    }
  }

  /**
   Whatever requests arrive: a valid one is refused if and only if its connection is known and has had its five
   an hour, scaled, counting what was asked of an address whose hash its subject names.
   */
  lemma {:induction false} RefusedIffUsedUp<A>(site: Site, reset: (A, string) -> Outcome<A>, accounts: A,
                                               requests: seq<Request>)
    ensures var w := AnswerAll(site, reset, World(map[], accounts, []), requests);
            TriesAreCounted(site, w.counters, w.log) && EachRefusedIfUsedUp(site, requests, w.log)
  {
    if requests != [] {
      var front, last := requests[..|requests| - 1], requests[|requests| - 1];
      RefusedIffUsedUp(site, reset, accounts, front);
      var before := AnswerAll(site, reset, World(map[], accounts, []), front);
      var e := OneAnswerIsCounted(site, reset, before, last);
      OneAnswerIsRefusedIff(site, reset, before, last, e);
      OneMoreRefusedIfUsedUp(site, front, last, before.log, e);
      assert requests == front + [last];
    }
  }

  lemma {:induction false} NothingIsAskedUnder(site: Site, log: seq<Entry>, subject: string, hour: nat)
    requires !("email:" <= subject)
    ensures Count(log, AskedUnder(site, subject, hour)) == 0
  {
    if log != [] {
      NothingIsAskedUnder(site, log[..|log| - 1], subject, hour);
    }
  }

  /** So of a plain connection's valid requests in an hour exactly the first five, scaled, are let through. */
  lemma TheFirstFiveAreLetThrough<A>(site: Site, reset: (A, string) -> Outcome<A>, accounts: A,
                                     requests: seq<Request>, i: nat, subject: string)
    requires i < |requests| && Deliverable(Address(requests[i].email)) && !("email:" <= subject)
    requires ClientIp(site.trustCloudflare, requests[i].headers) == Some(subject)
    ensures var log := AnswerAll(site, reset, World(map[], accounts, []), requests).log;
            && |log| == |requests| && log[i].request == requests[i]
            && (log[i].reply.TooMany? <==>
                Count(log[..i], FromConnection(site, subject, requests[i].now / 3600000)) >= 5 * site.multiplier)
  {
    RefusedIffUsedUp(site, reset, accounts, requests);
    var log := AnswerAll(site, reset, World(map[], accounts, []), requests).log;
    NothingIsAskedUnder(site, log[..i], subject, requests[i].now / 3600000);
  }

  // ---- What is left ----------------------------------------------------------------------------------------------

  /** `remaining` is how many more the same key is allowed in its window. */
  lemma RemainingCountsDown(counters: Counters, key: string, limit: nat, now: nat)
    requires limit > 0
    ensures var v, next := Judge(counters, key, limit, now), Judge(Spend(counters, key, now), key, limit, now);
            && (next.allowed <==> v.remaining > 0)
            && (v.remaining > 0 ==> next.remaining == v.remaining - 1)
            && (WindowKey(key, now / 3600000) !in counters ==> v.allowed && v.remaining == limit - 1)
  {
  }

  // ---- How long a refusal says to wait -----------------------------------------------------------------------

  /** EXPIRE starts inside the window and runs for an hour, so it ends inside the next. */
  ghost predicate EndsInTheNextWindow(counters: Counters) {
    forall key: string, hour: nat | WindowKey(key, hour) in counters ::
      (hour + 1) * 3600000 <= counters[WindowKey(key, hour)].expiresAt < (hour + 2) * 3600000
  }

  lemma SpendKeepsEnds(counters: Counters, key: string, now: nat)
    requires EndsInTheNextWindow(counters)
    ensures EndsInTheNextWindow(Spend(counters, key, now))
  {
    var after := Spend(counters, key, now);
    forall other: string, hour: nat | WindowKey(other, hour) in after
      ensures (hour + 1) * 3600000 <= after[WindowKey(other, hour)].expiresAt < (hour + 2) * 3600000
    {
      if WindowKey(other, hour) == WindowKey(key, Bucket(now)) {
        WindowKeyIsInjective(other, hour, key, Bucket(now));
      }
    }
  }

  lemma {:induction false} EveryCounterEndsInTheNextWindow<A>(site: Site, reset: (A, string) -> Outcome<A>,
                                                              accounts: A, requests: seq<Request>)
    ensures EndsInTheNextWindow(AnswerAll(site, reset, World(map[], accounts, []), requests).counters)
  {
    if requests != [] {
      var front, r := requests[..|requests| - 1], requests[|requests| - 1];
      EveryCounterEndsInTheNextWindow(site, reset, accounts, front);
      var before := AnswerAll(site, reset, World(map[], accounts, []), front);
      var subject := ClientIp(site.trustCloudflare, r.headers);
      if subject.Some? {
        SpendKeepsEnds(before.counters, ConnectionKey(subject.value), r.now);
      }
      SpendKeepsEnds(ConnectionSpent(site, before.counters, r), AddressKey(site, Address(r.email)), r.now);
    }
  }

  /**
   `own` milliseconds are left of the counter and `hour` of the clock hour, and both end less than half a second
   past the same whole minute from now, which the seconds, rounded to the nearest, leave out.
   */
  predicate JustPastAMinute(own: int, hour: int) {
    var minutes := own / 60000;
    minutes >= 1 && 60000 * minutes < hour && own < 60000 * minutes + 500
  }

  /**
   After the minutes it was told to wait a refused visitor is in the next hour, but for up to half a second, and
   has not been kept more than a minute longer than its counter runs. It is still in the hour it was refused in
   if and only if counter and hour end just past the same minute.
   */
  lemma WaitingIsEnoughUnlessJustPast<A>(site: Site, reset: (A, string) -> Outcome<A>, w: World<A>, r: Request,
                                         minutes: int)
    requires EndsInTheNextWindow(w.counters)
    requires var log := Answer(site, reset, w, r).log; log == w.log + [Entry(r, TooMany(minutes), false)]
    ensures ClientIp(site.trustCloudflare, r.headers).Some?
    ensures var k := WindowKey(ConnectionKey(ClientIp(site.trustCloudflare, r.headers).value), r.now / 3600000);
            var counters := Answer(site, reset, w, r).counters;
            && k in counters
            && var own, hour := counters[k].expiresAt - r.now, (r.now / 3600000 + 1) * 3600000 - r.now;
               && minutes >= 1
               && hour - 500 < minutes * 60000 < own + 60500
               && ((r.now + minutes * 60000) / 3600000 == r.now / 3600000 <==> JustPastAMinute(own, hour))
  {
    var subject := RefusalSays(site, reset, w, r, minutes);
    var k := WindowKey(ConnectionKey(subject), Bucket(r.now));
    var counters := Spend(w.counters, ConnectionKey(subject), r.now);
    SpendKeepsEnds(w.counters, ConnectionKey(subject), r.now);
    var own, hour := counters[k].expiresAt - r.now, (Bucket(r.now) + 1) * HOUR - r.now;
    WaitInMinutes(own, hour, RetryAfter(counters, k, r.now));
    SameHourIff(r.now, minutes * 60000, hour);
  }

  lemma RefusalSays<A>(site: Site, reset: (A, string) -> Outcome<A>, w: World<A>, r: Request, minutes: int)
    returns (subject: string)
    requires Answer(site, reset, w, r).log == w.log + [Entry(r, TooMany(minutes), false)]
    ensures ClientIp(site.trustCloudflare, r.headers) == Some(subject)
    ensures var spent := Spend(w.counters, ConnectionKey(subject), r.now);
            && Answer(site, reset, w, r).counters == spent
            && minutes == (RetryAfter(spent, WindowKey(ConnectionKey(subject), Bucket(r.now)), r.now) + 59) / 60
  {
    assert Entry(r, TooMany(minutes), false) == Answer(site, reset, w, r).log[|w.log|];
    subject := ClientIp(site.trustCloudflare, r.headers).value;
  }

  lemma SameHourIff(now: nat, wait: nat, hour: int)
    requires hour == (now / 3600000 + 1) * 3600000 - now
    ensures (now + wait) / 3600000 == now / 3600000 <==> wait < hour
  {
  }

  lemma WaitInMinutes(own: int, hour: int, seconds: int)
    requires own >= hour > 0
    requires var ttl, left := (own + 500) / 1000, (hour + 999) / 1000;
             seconds == if ttl > 0 then ttl else if left < 1 then 1 else left
    ensures var minutes := (seconds + 59) / 60;
            && minutes >= 1 && hour - 500 < minutes * 60000 < own + 60500
            && (minutes * 60000 < hour <==> JustPastAMinute(own, hour))
  {
  }

  // ---- A visitor who waits and is refused again ------------------------------------------------------------------

  ghost predicate AllAre(requests: seq<Request>, r: Request) {
    forall i | 0 <= i < |requests| :: requests[i] == r
  }

  lemma OtherSpendsLeave(site: Site, counters: Counters, r: Request, subject: string)
    requires !("email:" <= subject)
    ensures var k := WindowKey(ConnectionKey(subject), Bucket(r.now));
            var spent := Spend(counters, AddressKey(site, Address(r.email)), r.now);
            (k in spent <==> k in counters) && (k in counters ==> spent[k] == counters[k])
  {
    var key := AddressKey(site, Address(r.email));
    AddressKeyIsAConnectionKey(site, Address(r.email), subject);
    if WindowKey(key, Bucket(r.now)) == WindowKey(ConnectionKey(subject), Bucket(r.now)) {
      WindowKeyIsInjective(key, Bucket(r.now), ConnectionKey(subject), Bucket(r.now));
    }
  }

  /** A valid request of a plain connection leaves its counter as its own spending does. */
  lemma OneAnswerSpendsTheConnection<A>(site: Site, reset: (A, string) -> Outcome<A>, w: World<A>, r: Request,
                                        subject: string)
    requires Deliverable(Address(r.email)) && !("email:" <= subject)
    requires ClientIp(site.trustCloudflare, r.headers) == Some(subject)
    ensures var k := WindowKey(ConnectionKey(subject), Bucket(r.now));
            var counters := Answer(site, reset, w, r).counters;
            k in counters && counters[k] == Spend(w.counters, ConnectionKey(subject), r.now)[k]
  {
    OtherSpendsLeave(site, Spend(w.counters, ConnectionKey(subject), r.now), r, subject);
  }

  /** So many requests at one moment are on the connection's counter, which ends an hour after them. */
  ghost predicate HasSpent(counters: Counters, subject: string, now: nat, n: nat) {
    var k := WindowKey(ConnectionKey(subject), now / 3600000);
    if n == 0 then k !in counters else k in counters && counters[k] == Counter(n, now + 3600000)
  }

  lemma OneMoreSpends<A>(site: Site, reset: (A, string) -> Outcome<A>, w: World<A>, r: Request, n: nat, subject: string)
    requires Deliverable(Address(r.email)) && !("email:" <= subject)
    requires ClientIp(site.trustCloudflare, r.headers) == Some(subject) && HasSpent(w.counters, subject, r.now, n)
    ensures HasSpent(Answer(site, reset, w, r).counters, subject, r.now, n + 1)
  {
    OneAnswerSpendsTheConnection(site, reset, w, r, subject);
  }

  lemma OneMoreRequest<A>(site: Site, reset: (A, string) -> Outcome<A>, start: World<A>, front: seq<Request>,
                          all: seq<Request>, r: Request, n: nat, subject: string)
    requires all == front + [r] && n > 0
    requires Deliverable(Address(r.email)) && !("email:" <= subject)
    requires ClientIp(site.trustCloudflare, r.headers) == Some(subject)
    requires HasSpent(AnswerAll(site, reset, start, front).counters, subject, r.now, n - 1)
    ensures HasSpent(AnswerAll(site, reset, start, all).counters, subject, r.now, n)
  {
    OneMoreSpends(site, reset, AnswerAll(site, reset, start, front), r, n - 1, subject);
    AnswerOneMore(site, reset, start, front, r);
  }

  lemma {:induction false} RepeatedSpends<A>(site: Site, reset: (A, string) -> Outcome<A>, start: World<A>,
                                             requests: seq<Request>, r: Request, subject: string)
    requires Deliverable(Address(r.email)) && !("email:" <= subject)
    requires ClientIp(site.trustCloudflare, r.headers) == Some(subject)
    requires AllAre(requests, r) && HasSpent(start.counters, subject, r.now, 0)
    ensures HasSpent(AnswerAll(site, reset, start, requests).counters, subject, r.now, |requests|)
  {
    if requests != [] {
      var front := requests[..|requests| - 1];
      RepeatedSpends(site, reset, start, front, r, subject);
      assert requests == front + [r];
      OneMoreRequest(site, reset, start, front, requests, r, |requests|, subject);
    }
  }

  lemma AFullCounterRefuses<A>(site: Site, reset: (A, string) -> Outcome<A>, w: World<A>, r: Request,
                               subject: string, k: string, c: Counter)
    requires Deliverable(Address(r.email)) && ClientIp(site.trustCloudflare, r.headers) == Some(subject)
    requires k == WindowKey(ConnectionKey(subject), Bucket(r.now)) && k in w.counters && w.counters[k] == c
    requires c.count >= ConnectionLimit(site) && r.now < c.expiresAt
    ensures var w' := Answer(site, reset, w, r);
            && |w'.log| == |w.log| + 1 && w'.log[|w.log|].reply.TooMany?
            && (r.now + 500 <= c.expiresAt ==>
                  w'.log == w.log + [Entry(r, TooMany(((c.expiresAt - r.now + 500) / 1000 + 59) / 60), false)])
            && k in w'.counters && w'.counters[k] == Counter(c.count + 1, c.expiresAt)
  {
  }

  /** Told to wait a minute, and refused again when it has. */
  ghost predicate WaitsAMinuteInVain<A>(site: Site, reset: (A, string) -> Outcome<A>, w: World<A>, r: Request) {
    var refused := Answer(site, reset, w, r);
    var again := Answer(site, reset, refused, r.(now := r.now + 60000));
    && refused.log == w.log + [Entry(r, TooMany(1), false)]
    && |again.log| == |refused.log| + 1 && again.log[|refused.log|].reply.TooMany?
  }

  lemma RefusedAndRefusedAgain<A>(site: Site, reset: (A, string) -> Outcome<A>, w: World<A>, last: Request,
                                  subject: string, hour: nat)
    requires Deliverable(Address(last.email)) && ClientIp(site.trustCloudflare, last.headers) == Some(subject)
    requires last.now == hour * 3600000 + 3539600
    requires var k := WindowKey(ConnectionKey(subject), hour);
             k in w.counters && w.counters[k] == Counter(5 * site.multiplier, hour * 3600000 + 3600000)
    ensures WaitsAMinuteInVain(site, reset, w, last)
  {
    var k := WindowKey(ConnectionKey(subject), hour);
    assert Bucket(last.now) == hour && Bucket(last.now + 60000) == hour;
    AFullCounterRefuses(site, reset, w, last, subject, k, w.counters[k]);
    var refused, again := Answer(site, reset, w, last), last.(now := last.now + 60000);
    AFullCounterRefuses(site, reset, refused, again, subject, k, refused.counters[k]);
  }

  /**
   Five requests, scaled, at the start of an hour and one 60.4 seconds before its end: told to wait a minute, the
   visitor does, and is refused again.
   */
  lemma WaitingIsNotAlwaysEnough<A>(site: Site, reset: (A, string) -> Outcome<A>, accounts: A, first: seq<Request>,
                                    last: Request, subject: string, hour: nat)
    requires Deliverable(Address(last.email)) && !("email:" <= subject)
    requires ClientIp(site.trustCloudflare, last.headers) == Some(subject)
    requires |first| == 5 * site.multiplier && AllAre(first, last.(now := hour * 3600000))
    requires last.now == hour * 3600000 + 3539600
    ensures WaitsAMinuteInVain(site, reset, AnswerAll(site, reset, World(map[], accounts, []), first), last)
  {
    var start := last.(now := hour * 3600000);
    RepeatedSpends(site, reset, World(map[], accounts, []), first, start, subject);
    assert start.now / 3600000 == hour;
    RefusedAndRefusedAgain(site, reset, AnswerAll(site, reset, World(map[], accounts, []), first), last, subject, hour);
  }
}
