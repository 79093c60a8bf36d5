/** How many reset calls get through for one address, and what the replies show of the address's budget. */
module ResetBudgets {
  import opened PasswordReset
  import opened Wrappers
  import Decimals
  import Text = SeedText

  // ---- Counting ------------------------------------------------------------------------------------------------

  function Count(log: seq<Entry>, p: Entry -> bool): nat {
    if log == [] then 0
    else Count(log[..|log| - 1], p) + if p(log[|log| - 1]) then 1 else 0
  }

  lemma CountOneMore(log: seq<Entry>, e: Entry, p: Entry -> bool)
    ensures Count(log + [e], p) == Count(log, p) + if p(e) then 1 else 0
  {
    assert (log + [e])[..|log|] == log;
  }

  /** What a request's address is counted under. */
  function HashOf(site: Site, r: Request): string {
    site.sha256(site.lower(Address(r.email)))
  }

  function CalledFor(site: Site, hash: string, bucket: nat): Entry -> bool {
    (e: Entry) => e.called && HashOf(site, e.request) == hash && Bucket(e.request.now) == bucket
  }

  /** Requests that got as far as the address budget. */
  function AskedFor(site: Site, hash: string, bucket: nat): Entry -> bool {
    (e: Entry) => e.reply.Sent? && HashOf(site, e.request) == hash && Bucket(e.request.now) == bucket
  }

  function Spent(counters: Counters, key: string, bucket: nat): nat {
    var k := WindowKey(key, bucket);
    if k in counters then counters[k].count else 0
  }

  /** A counter outlives its own window, because EXPIRE starts inside it. */
  ghost predicate OutlivesWindow(counters: Counters) {
    forall key: string, bucket: nat | WindowKey(key, bucket) in counters ::
      counters[WindowKey(key, bucket)].expiresAt >= (bucket + 1) * HOUR
  }

  function AfterLastColon(s: string): string {
    if s == [] || s[|s| - 1] == ':' then "" else AfterLastColon(s[..|s| - 1]) + [s[|s| - 1]]
  }

  lemma {:induction false} AfterLastColonOf(prefix: string, digits: string)
    requires forall i | 0 <= i < |digits| :: digits[i] != ':'
    ensures AfterLastColon(prefix + ":" + digits) == digits
  {
    var s := prefix + ":" + digits;
    if digits != [] {
      var init := digits[..|digits| - 1];
      assert s[..|s| - 1] == prefix + ":" + init;
      AfterLastColonOf(prefix, init);
    }
  }

  /** Different keys, or different windows, never share a counter. */
  lemma WindowKeyIsInjective(a: string, m: nat, b: string, n: nat)
    requires WindowKey(a, m) == WindowKey(b, n)
    ensures a == b && m == n
  {
    AfterLastColonOf("ratelimit:" + a, Decimals.Print(m));
    AfterLastColonOf("ratelimit:" + b, Decimals.Print(n));
    Decimals.PrintIsInjective(m, n);
    var k, tail := WindowKey(a, m), |Decimals.Print(m)| + 1;
    assert a == k[10..|k| - tail];
    assert b == k[10..|k| - tail];
  }

  lemma SpendCountsOne(counters: Counters, key: string, now: nat)
    requires OutlivesWindow(counters)
    ensures OutlivesWindow(Spend(counters, key, now))
    ensures forall other: string, bucket: nat ::
              Spent(Spend(counters, key, now), other, bucket) ==
              Spent(counters, other, bucket) + if other == key && bucket == Bucket(now) then 1 else 0
  {
    var k, after := WindowKey(key, Bucket(now)), Spend(counters, key, now);
    assert k in counters ==> now < counters[k].expiresAt;
    forall other: string, bucket: nat
      ensures WindowKey(other, bucket) in after ==> after[WindowKey(other, bucket)].expiresAt >= (bucket + 1) * HOUR
      ensures Spent(after, other, bucket) ==
              Spent(counters, other, bucket) + if other == key && bucket == Bucket(now) then 1 else 0
    {
      if WindowKey(other, bucket) == k {
        WindowKeyIsInjective(other, bucket, key, Bucket(now));
      }
    }
  }

  // ---- How many reset calls get through ------------------------------------------------------------------------

  function HashKey(hash: string): string {
    "forgot-password:email:" + hash
  }

  ghost predicate CallsWithinBudget(site: Site, counters: Counters, log: seq<Entry>) {
    forall hash: string, bucket: nat ::
      Count(log, CalledFor(site, hash, bucket)) <= ADDRESS_LIMIT
      && Count(log, CalledFor(site, hash, bucket)) <= Spent(counters, HashKey(hash), bucket)
  }

  /** A subject that cannot be mistaken for an address counter. */
  predicate PlainSubject(site: Site, r: Request) {
    var subject := ClientIp(site.trustCloudflare, r.headers);
    subject.Some? ==> !("email:" <= subject.value)
  }

  lemma KeyNamesSubject(subject: string, hash: string)
    ensures ConnectionKey(subject) == HashKey(hash) <==> subject == "email:" + hash
  {
    assert subject == ConnectionKey(subject)[16..];
    assert "email:" + hash == HashKey(hash)[16..];
  }

  lemma KeyNamesHash(site: Site, email: string, hash: string)
    ensures AddressKey(site, email) == HashKey(hash) <==> site.sha256(site.lower(email)) == hash
  {
    var a, b := AddressKey(site, email), HashKey(hash);
    assert a[22..] == site.sha256(site.lower(email)) && b[22..] == hash;
  }

  /** A connection counted under a subject that names an address's hash is counted with that address. */
  predicate SharesCounter(site: Site, r: Request, hash: string) {
    ClientIp(site.trustCloudflare, r.headers) == Some("email:" + hash)
  }

  /** The connection's own spending adds to an address's count exactly when the subject names its hash. */
  lemma ConnectionSpends(site: Site, counters: Counters, r: Request)
    requires OutlivesWindow(counters)
    ensures OutlivesWindow(ConnectionSpent(site, counters, r))
    ensures forall hash: string, bucket: nat ::
              Spent(ConnectionSpent(site, counters, r), HashKey(hash), bucket) ==
              Spent(counters, HashKey(hash), bucket)
              + if SharesCounter(site, r, hash) && bucket == Bucket(r.now) then 1 else 0
  {
    var subject := ClientIp(site.trustCloudflare, r.headers);
    if subject.Some? {
      SpendCountsOne(counters, ConnectionKey(subject.value), r.now);
      forall hash: string ensures ConnectionKey(subject.value) == HashKey(hash) <==> SharesCounter(site, r, hash) {
        KeyNamesSubject(subject.value, hash);
      }
    }
  }

  /** A request reaches the address budget exactly when it is answered Sent, and then spends one of it. */
  lemma AnswerSpends<A>(site: Site, reset: (A, string) -> Outcome<A>, w: World<A>, r: Request) returns (e: Entry)
    requires OutlivesWindow(w.counters)
    ensures var w', counters := Answer(site, reset, w, r), ConnectionSpent(site, w.counters, r);
            var key, now := AddressKey(site, Address(r.email)), Bucket(r.now);
            && w'.log == w.log + [e] && e.request == r && OutlivesWindow(w'.counters)
            && (e.called <==> e.reply.Sent? && Spent(counters, key, now) < ADDRESS_LIMIT)
            && (if e.reply.Sent? then
                  forall other: string, bucket: nat ::
                    Spent(w'.counters, other, bucket) ==
                    Spent(counters, other, bucket) + if other == key && bucket == now then 1 else 0
                else w'.counters == if e.reply.Invalid? then w.counters else counters)
  {
    ConnectionSpends(site, w.counters, r);
    SpendCountsOne(ConnectionSpent(site, w.counters, r), AddressKey(site, Address(r.email)), r.now);
    e := Answer(site, reset, w, r).log[|w.log|];
  }

  lemma AnswerStaysWithinBudget<A>(site: Site, reset: (A, string) -> Outcome<A>, w: World<A>, r: Request)
    requires OutlivesWindow(w.counters) && CallsWithinBudget(site, w.counters, w.log)
    ensures var w' := Answer(site, reset, w, r);
            OutlivesWindow(w'.counters) && CallsWithinBudget(site, w'.counters, w'.log)
  {
    var w' := Answer(site, reset, w, r);
    var e := AnswerSpends(site, reset, w, r);
    ConnectionSpends(site, w.counters, r);
    forall hash: string, bucket: nat
      ensures Count(w'.log, CalledFor(site, hash, bucket)) <= ADDRESS_LIMIT
      ensures Count(w'.log, CalledFor(site, hash, bucket)) <= Spent(w'.counters, HashKey(hash), bucket)
    {
      CountOneMore(w.log, e, CalledFor(site, hash, bucket));
      KeyNamesHash(site, Address(r.email), hash);
    }
  }

  lemma {:induction false} AnswersStayWithinBudget<A>(site: Site, reset: (A, string) -> Outcome<A>, w: World<A>,
                                                      requests: seq<Request>)
    requires OutlivesWindow(w.counters) && CallsWithinBudget(site, w.counters, w.log)
    ensures var w' := AnswerAll(site, reset, w, requests);
            OutlivesWindow(w'.counters) && CallsWithinBudget(site, w'.counters, w'.log)
  {
    if requests != [] {
      var front := requests[..|requests| - 1];
      AnswersStayWithinBudget(site, reset, w, front);
      AnswerStaysWithinBudget(site, reset, AnswerAll(site, reset, w, front), requests[|requests| - 1]);
    }
  }

  function CalledForAddress(site: Site, address: string, bucket: nat): Entry -> bool {
    (e: Entry) => e.called && site.lower(Address(e.request.email)) == address && e.request.now / 3600000 == bucket
  }

  lemma {:induction false} CountIsMonotone(log: seq<Entry>, p: Entry -> bool, q: Entry -> bool)
    requires forall e :: p(e) ==> q(e)
    ensures Count(log, p) <= Count(log, q)
  {
    if log != [] {
      CountIsMonotone(log[..|log| - 1], p, q);
    }
  }

  /**
   Whatever requests arrive, from however many connections and in whatever order, at most three reset calls
   are made in one clock hour for one address, however its letters are cased.
   */
  lemma AtMostThreeResetsAnHour<A>(site: Site, reset: (A, string) -> Outcome<A>, accounts: A,
                                   requests: seq<Request>, address: string, bucket: nat)
    ensures var log := AnswerAll(site, reset, World(map[], accounts, []), requests).log;
            Count(log, CalledForAddress(site, address, bucket)) <= 3
  {
    var start := World(map[], accounts, []);
    AnswersStayWithinBudget(site, reset, start, requests);
    var log := AnswerAll(site, reset, start, requests).log;
    CountIsMonotone(log, CalledForAddress(site, address, bucket), CalledFor(site, site.sha256(address), bucket));
    assert Count(log, CalledFor(site, site.sha256(address), bucket)) <= ADDRESS_LIMIT;
  }

  // ---- Exactly which calls get through ----------------------------------------------------------------

  /** How often one logged request has spent of an address's budget: by its connection, and by its address. */
  function UsesOf(site: Site, e: Entry, hash: string, bucket: nat): nat {
    (if !e.reply.Invalid? && SharesCounter(site, e.request, hash) && Bucket(e.request.now) == bucket then 1 else 0)
    + if AskedFor(site, hash, bucket)(e) then 1 else 0
  }

  function Uses(site: Site, log: seq<Entry>, hash: string, bucket: nat): nat {
    if log == [] then 0
    else Uses(site, log[..|log| - 1], hash, bucket) + UsesOf(site, log[|log| - 1], hash, bucket)
  }

  lemma UsesOneMore(site: Site, log: seq<Entry>, e: Entry, hash: string, bucket: nat)
    ensures Uses(site, log + [e], hash, bucket) == Uses(site, log, hash, bucket) + UsesOf(site, e, hash, bucket)
  {
    assert (log + [e])[..|log|] == log;
  }

  /** After these entries, this one becomes a call exactly if it is answered Sent with budget left. */
  ghost predicate CalledIfInBudget(site: Site, before: seq<Entry>, e: Entry) {
    var hash, bucket := HashOf(site, e.request), Bucket(e.request.now);
    var own := if SharesCounter(site, e.request, hash) then 1 else 0;
    e.called <==> e.reply.Sent? && Uses(site, before, hash, bucket) + own < ADDRESS_LIMIT
  }

  ghost predicate UsesAreExact(site: Site, counters: Counters, log: seq<Entry>) {
    && OutlivesWindow(counters)
    && forall hash: string, bucket: nat :: Spent(counters, HashKey(hash), bucket) == Uses(site, log, hash, bucket)
  }

  lemma AnswerUsesExactly<A>(site: Site, reset: (A, string) -> Outcome<A>, w: World<A>, r: Request) returns (e: Entry)
    requires UsesAreExact(site, w.counters, w.log)
    ensures var w' := Answer(site, reset, w, r);
            && w'.log == w.log + [e] && e.request == r
            && UsesAreExact(site, w'.counters, w'.log) && CalledIfInBudget(site, w.log, e)
  {
    var w', counters := Answer(site, reset, w, r), ConnectionSpent(site, w.counters, r);
    e := AnswerSpends(site, reset, w, r);
    ConnectionSpends(site, w.counters, r);
    assert AddressKey(site, Address(r.email)) == HashKey(HashOf(site, r));
    forall hash: string, bucket: nat
      ensures Spent(w'.counters, HashKey(hash), bucket) == Uses(site, w'.log, hash, bucket)
    {
      UsesOneMore(site, w.log, e, hash, bucket);
      KeyNamesHash(site, Address(r.email), hash);
    }
  }

  /** One entry a request, each called exactly if it was in budget when it came. */
  ghost predicate CallsInBudget(site: Site, requests: seq<Request>, log: seq<Entry>) {
    && |log| == |requests|
    && forall i | 0 <= i < |log| :: log[i].request == requests[i] && CalledIfInBudget(site, log[..i], log[i])
  }

  lemma OneMoreInBudget(site: Site, requests: seq<Request>, r: Request, log: seq<Entry>, e: Entry)
    requires CallsInBudget(site, requests, log) && e.request == r && CalledIfInBudget(site, log, e)
    ensures CallsInBudget(site, requests + [r], log + [e])
  {
    var requests', log' := requests + [r], log + [e];
    forall i | 0 <= i < |log'| ensures log'[i].request == requests'[i] && CalledIfInBudget(site, log'[..i], log'[i]) {
      if i < |log| {
        assert log'[..i] == log[..i];
      } else {
        assert log'[..i] == log;
      }
    }
  }

  lemma OneFewerInBudget(site: Site, requests: seq<Request>, log: seq<Entry>)
    requires CallsInBudget(site, requests, log) && log != []
    ensures CallsInBudget(site, requests[..|log| - 1], log[..|log| - 1])
    ensures CalledIfInBudget(site, log[..|log| - 1], log[|log| - 1])
  {
    var front := log[..|log| - 1];
    forall i | 0 <= i < |front| ensures CalledIfInBudget(site, front[..i], front[i]) {
      assert front[..i] == log[..i] && CalledIfInBudget(site, log[..i], log[i]);
    }
  }

  lemma {:induction false} AnswersInBudget<A>(site: Site, reset: (A, string) -> Outcome<A>, start: World<A>,
                                              requests: seq<Request>)
    requires start.counters == map[] && start.log == []
    ensures var w := AnswerAll(site, reset, start, requests);
            UsesAreExact(site, w.counters, w.log) && CallsInBudget(site, requests, w.log)
  {
    if requests != [] {
      var front, last := requests[..|requests| - 1], requests[|requests| - 1];
      AnswersInBudget(site, reset, start, front);
      var before := AnswerAll(site, reset, start, front);
      var e := AnswerUsesExactly(site, reset, before, last);
      OneMoreInBudget(site, front, last, before.log, e);
      assert requests == front + [last];
    }
  }

  /**
   Whatever requests arrive: an address's counter is what was asked of it plus what connections named after its
   hash spent, and a request becomes a reset call if and only if it is answered Sent while fewer than three of
   those have been spent in its hour.
   */
  lemma CalledIffInBudget<A>(site: Site, reset: (A, string) -> Outcome<A>, accounts: A, requests: seq<Request>)
    ensures var w := AnswerAll(site, reset, World(map[], accounts, []), requests);
            UsesAreExact(site, w.counters, w.log) && CallsInBudget(site, requests, w.log)
  {
    AnswersInBudget(site, reset, World(map[], accounts, []), requests);
  }

  /** Asked of the address while fewer than three were, and yet no call: connections named after it spent the rest. */
  predicate CrowdedOut(site: Site, before: seq<Entry>, e: Entry, hash: string, bucket: nat) {
    && AskedFor(site, hash, bucket)(e) && Count(before, AskedFor(site, hash, bucket)) < ADDRESS_LIMIT
    && Uses(site, before, hash, bucket) + (if SharesCounter(site, e.request, hash) then 1 else 0) >= ADDRESS_LIMIT
  }

  function CountCrowdedOut(site: Site, log: seq<Entry>, hash: string, bucket: nat): nat {
    if log == [] then 0
    else
      var front, last := log[..|log| - 1], log[|log| - 1];
      CountCrowdedOut(site, front, hash, bucket) + if CrowdedOut(site, front, last, hash, bucket) then 1 else 0
  }

  lemma {:induction false} UsesAreAtLeastAsked(site: Site, log: seq<Entry>, hash: string, bucket: nat)
    ensures Uses(site, log, hash, bucket) >= Count(log, AskedFor(site, hash, bucket))
  {
    if log != [] {
      UsesAreAtLeastAsked(site, log[..|log| - 1], hash, bucket);
    }
  }

  lemma {:induction false} CallsAndCrowdedOut(site: Site, requests: seq<Request>, log: seq<Entry>,
                                              hash: string, bucket: nat)
    requires CallsInBudget(site, requests, log)
    ensures var asked := Count(log, AskedFor(site, hash, bucket));
            Count(log, CalledFor(site, hash, bucket)) + CountCrowdedOut(site, log, hash, bucket) ==
              if asked < ADDRESS_LIMIT then asked else ADDRESS_LIMIT
  {
    if log != [] {
      var n := |log| - 1;
      OneFewerInBudget(site, requests, log);
      CallsAndCrowdedOut(site, requests[..n], log[..n], hash, bucket);
      UsesAreAtLeastAsked(site, log[..n], hash, bucket);
    }
  }

  /** The calls made for an address in an hour are the first three requests that asked. */
  ghost predicate FirstThreeAreCalled(site: Site, log: seq<Entry>, hash: string, bucket: nat) {
    var asked := Count(log, AskedFor(site, hash, bucket));
    Count(log, CalledFor(site, hash, bucket)) == if asked < ADDRESS_LIMIT then asked else ADDRESS_LIMIT
  }

  lemma {:induction false} NoneCrowdedOutIff(site: Site, log: seq<Entry>, hash: string, bucket: nat)
    ensures CountCrowdedOut(site, log, hash, bucket) == 0 <==>
            forall i | 0 <= i < |log| :: !CrowdedOut(site, log[..i], log[i], hash, bucket)
  {
    if log != [] {
      var n := |log| - 1;
      NoneCrowdedOutIff(site, log[..n], hash, bucket);
      assert forall i | 0 <= i < n :: log[..n][..i] == log[..i] && log[..n][i] == log[i];
    }
  }

  /**
   Whatever requests arrive: the requests that reach an address's budget in one hour become calls, the first
   three of them exactly, if and only if none of those is crowded out by connections named after the address.
   */
  lemma ExactlyTheFirstThreeAreSentIff<A>(site: Site, reset: (A, string) -> Outcome<A>, accounts: A,
                                          requests: seq<Request>, hash: string, bucket: nat)
    ensures var log := AnswerAll(site, reset, World(map[], accounts, []), requests).log;
            FirstThreeAreCalled(site, log, hash, bucket) <==>
              forall i | 0 <= i < |log| :: !CrowdedOut(site, log[..i], log[i], hash, bucket)
  {
    CalledIffInBudget(site, reset, accounts, requests);
    FirstThreeIff(site, requests, AnswerAll(site, reset, World(map[], accounts, []), requests).log, hash, bucket);
  }

  lemma FirstThreeIff(site: Site, requests: seq<Request>, log: seq<Entry>, hash: string, bucket: nat)
    requires CallsInBudget(site, requests, log)
    ensures FirstThreeAreCalled(site, log, hash, bucket) <==>
              forall i | 0 <= i < |log| :: !CrowdedOut(site, log[..i], log[i], hash, bucket)
  {
    CallsAndCrowdedOut(site, requests, log, hash, bucket);
    NoneCrowdedOutIff(site, log, hash, bucket);
  }

  /** No deliverable request was counted under this address's hash. */
  ghost predicate NoneShares(site: Site, log: seq<Entry>, hash: string) {
    forall i | 0 <= i < |log| :: log[i].reply.Invalid? || !SharesCounter(site, log[i].request, hash)
  }

  lemma {:induction false} UnsharedUsesAreAsked(site: Site, log: seq<Entry>, hash: string, bucket: nat)
    requires NoneShares(site, log, hash)
    ensures Uses(site, log, hash, bucket) == Count(log, AskedFor(site, hash, bucket))
  {
    if log != [] {
      var n := |log| - 1;
      UnsharedUsesAreAsked(site, log[..n], hash, bucket);
      assert log[n].reply.Invalid? || !SharesCounter(site, log[n].request, hash);
    }
  }

  /** So they are whenever no deliverable request is counted under that address's hash. */
  lemma ExactlyTheFirstThreeAreSent<A>(site: Site, reset: (A, string) -> Outcome<A>, accounts: A,
                                       requests: seq<Request>, hash: string, bucket: nat)
    requires NoneShares(site, AnswerAll(site, reset, World(map[], accounts, []), requests).log, hash)
    ensures FirstThreeAreCalled(site, AnswerAll(site, reset, World(map[], accounts, []), requests).log, hash, bucket)
  {
    var log := AnswerAll(site, reset, World(map[], accounts, []), requests).log;
    forall i | 0 <= i < |log| ensures !CrowdedOut(site, log[..i], log[i], hash, bucket) {
      assert forall k | 0 <= k < i :: log[..i][k] == log[k];
      UnsharedUsesAreAsked(site, log[..i], hash, bucket);
    }
    ExactlyTheFirstThreeAreSentIff(site, reset, accounts, requests, hash, bucket);
  }

  // ---- The reply says nothing about the address's budget either ----------------------------------------------------

  ghost predicate IsAddressCounter(k: string) {
    exists hash: string, bucket: nat :: k == WindowKey(HashKey(hash), bucket)
  }

  /** The two worlds differ, if at all, in the counters kept per address. */
  ghost predicate AgreeOffAddresses(a: Counters, b: Counters) {
    forall k: string | !IsAddressCounter(k) :: (k in a <==> k in b) && (k in a ==> a[k] == b[k])
  }

  lemma ConnectionCounterIsNotAnAddress(subject: string, bucket: nat)
    requires !("email:" <= subject)
    ensures !IsAddressCounter(WindowKey(ConnectionKey(subject), bucket))
  {
    if IsAddressCounter(WindowKey(ConnectionKey(subject), bucket)) {
      var hash: string, other: nat :| WindowKey(ConnectionKey(subject), bucket) == WindowKey(HashKey(hash), other);
      WindowKeyIsInjective(ConnectionKey(subject), bucket, HashKey(hash), other);
      KeyNamesSubject(subject, hash);
    }
  }

  lemma SpendOnAddressAgrees(a: Counters, b: Counters, site: Site, email: string, now: nat)
    requires AgreeOffAddresses(a, b)
    ensures AgreeOffAddresses(Spend(a, AddressKey(site, email), now), Spend(b, AddressKey(site, email), now))
  {
    var k := WindowKey(AddressKey(site, email), Bucket(now));
    assert k == WindowKey(HashKey(site.sha256(site.lower(email))), Bucket(now));
    assert IsAddressCounter(k);
  }

  lemma ConnectionAgrees(site: Site, a: Counters, b: Counters, r: Request)
    requires AgreeOffAddresses(a, b) && PlainSubject(site, r)
    ensures ConnectionVerdict(site, a, r) == ConnectionVerdict(site, b, r)
    ensures AgreeOffAddresses(ConnectionSpent(site, a, r), ConnectionSpent(site, b, r))
  {
    var subject := ClientIp(site.trustCloudflare, r.headers);
    if subject.Some? {
      ConnectionCounterIsNotAnAddress(subject.value, Bucket(r.now));
    }
  }

  /** The whole reply: it is settled before the address's own budget is looked at. */
  function ReplyTo(site: Site, counters: Counters, r: Request): Reply {
    var verdict := ConnectionVerdict(site, counters, r);
    if !Deliverable(Address(r.email)) then Invalid
    else if verdict.allowed then Sent
    else TooMany((verdict.retryAfterSeconds + 59) / 60)
  }

  lemma ReplyOf<A>(site: Site, reset: (A, string) -> Outcome<A>, w: World<A>, r: Request)
    ensures var w', counters := Answer(site, reset, w, r), ConnectionSpent(site, w.counters, r);
            && |w'.log| == |w.log| + 1 && w'.log[..|w.log|] == w.log
            && w'.log[|w.log|].reply == ReplyTo(site, w.counters, r)
            && w'.counters ==
                 (match ReplyTo(site, w.counters, r)
                  case Invalid => w.counters
                  case TooMany(_) => counters
                  case Sent => Spend(counters, AddressKey(site, Address(r.email)), r.now))
  {
  }

  /** The reply is the same whatever the address counters hold. */
  ghost predicate ReplyIsBlind(site: Site, r: Request) {
    forall a: Counters, b: Counters | AgreeOffAddresses(a, b) :: ReplyTo(site, a, r) == ReplyTo(site, b, r)
  }

  /** The same requests, and the same replies to those whose reply is blind. */
  ghost predicate SameBlindReplies(site: Site, a: seq<Entry>, b: seq<Entry>) {
    && |a| == |b|
    && forall i | 0 <= i < |a| ::
         a[i].request == b[i].request && (ReplyIsBlind(site, a[i].request) ==> a[i].reply == b[i].reply)
  }

  lemma OneMoreSameReply(site: Site, a: seq<Entry>, b: seq<Entry>, x: Entry, y: Entry)
    requires SameBlindReplies(site, a, b) && x.request == y.request
    requires ReplyIsBlind(site, x.request) ==> x.reply == y.reply
    ensures SameBlindReplies(site, a + [x], b + [y])
  {
  }

  lemma OffAddressesThen(a: Counters, b: Counters, a': Counters, b': Counters)
    requires AgreeOffAddresses(a, b) && AgreeOffAddresses(a, a') && AgreeOffAddresses(b, b')
    ensures AgreeOffAddresses(a', b')
  {
  }

  /** A connection counted under a subject beginning with "email:" spends on address counters only. */
  lemma NamedSubjectSpendsOffTheRest(site: Site, counters: Counters, r: Request)
    requires !PlainSubject(site, r)
    ensures AgreeOffAddresses(counters, ConnectionSpent(site, counters, r))
  {
    var subject := ClientIp(site.trustCloudflare, r.headers).value;
    KeyNamesSubject(subject, subject[6..]);
    assert IsAddressCounter(WindowKey(HashKey(subject[6..]), Bucket(r.now)));
  }

  lemma AddressSpendsOffTheRest(site: Site, counters: Counters, email: string, now: nat)
    ensures AgreeOffAddresses(counters, Spend(counters, AddressKey(site, email), now))
  {
    assert WindowKey(AddressKey(site, email), Bucket(now)) ==
           WindowKey(HashKey(site.sha256(site.lower(email))), Bucket(now));
  }

  /** So such a request, like one that fails validation, leaves the two worlds agreeing off the addresses. */
  lemma NamedAnswerStaysOff<A>(site: Site, reset: (A, string) -> Outcome<A>, w: World<A>, r: Request)
    requires !PlainSubject(site, r)
    ensures AgreeOffAddresses(w.counters, Answer(site, reset, w, r).counters)
  {
    var spent := ConnectionSpent(site, w.counters, r);
    NamedSubjectSpendsOffTheRest(site, w.counters, r);
    AddressSpendsOffTheRest(site, spent, Address(r.email), r.now);
    OffAddressesThen(spent, w.counters, Spend(spent, AddressKey(site, Address(r.email)), r.now), w.counters);
    ReplyOf(site, reset, w, r);
  }

  lemma PlainAnswerAgrees<A>(site: Site, reset: (A, string) -> Outcome<A>, a: World<A>, b: World<A>, r: Request)
    requires AgreeOffAddresses(a.counters, b.counters) && PlainSubject(site, r)
    ensures AgreeOffAddresses(Answer(site, reset, a, r).counters, Answer(site, reset, b, r).counters)
  {
    ConnectionAgrees(site, a.counters, b.counters, r);
    SpendOnAddressAgrees(ConnectionSpent(site, a.counters, r), ConnectionSpent(site, b.counters, r), site,
                         Address(r.email), r.now);
    ReplyOf(site, reset, a, r);
    ReplyOf(site, reset, b, r);
  }

  lemma AnswerAgrees<A>(site: Site, reset: (A, string) -> Outcome<A>, a: World<A>, b: World<A>, r: Request)
    requires AgreeOffAddresses(a.counters, b.counters)
    ensures AgreeOffAddresses(Answer(site, reset, a, r).counters, Answer(site, reset, b, r).counters)
  {
    if PlainSubject(site, r) {
      PlainAnswerAgrees(site, reset, a, b, r);
    } else {
      NamedAnswerStaysOff(site, reset, a, r);
      NamedAnswerStaysOff(site, reset, b, r);
      OffAddressesThen(a.counters, b.counters, Answer(site, reset, a, r).counters, Answer(site, reset, b, r).counters);
    }
  }

  lemma AnswerLogs<A>(site: Site, reset: (A, string) -> Outcome<A>, w: World<A>, r: Request) returns (e: Entry)
    ensures Answer(site, reset, w, r).log == w.log + [e]
    ensures e.request == r && e.reply == ReplyTo(site, w.counters, r)
  {
    e := Answer(site, reset, w, r).log[|w.log|];
  }

  /**
   Nor does a blind reply show how often an address has been asked about, or that its budget is spent, wherever
   it comes in whatever sequence of requests.
   */
  lemma {:induction false} RepliesIgnoreAddressBudgets<A>(site: Site, reset: (A, string) -> Outcome<A>, a: World<A>,
                                                          b: World<A>, requests: seq<Request>)
    requires AgreeOffAddresses(a.counters, b.counters) && SameBlindReplies(site, a.log, b.log)
    ensures var a', b' := AnswerAll(site, reset, a, requests), AnswerAll(site, reset, b, requests);
            AgreeOffAddresses(a'.counters, b'.counters) && SameBlindReplies(site, a'.log, b'.log)
  {
    if requests != [] {
      var front, last := requests[..|requests| - 1], requests[|requests| - 1];
      RepliesIgnoreAddressBudgets(site, reset, a, b, front);
      var a1, b1 := AnswerAll(site, reset, a, front), AnswerAll(site, reset, b, front);
      AnswerAgrees(site, reset, a1, b1, last);
      var x := AnswerLogs(site, reset, a1, last);
      var y := AnswerLogs(site, reset, b1, last);
      OneMoreSameReply(site, a1.log, b1.log, x, y);
    }
  }

  // ---- Which replies are blind -------------------------------------------------------------------------

  /** One counter, at the connection's limit and still running. */
  function FullCounter(site: Site, key: string, now: nat): Counters {
    map[WindowKey(key, Bucket(now)) := Counter(ConnectionLimit(site), now + HOUR)]
  }

  lemma FullCounterRefuses(site: Site, r: Request)
    requires Deliverable(Address(r.email)) && ClientIp(site.trustCloudflare, r.headers).Some?
    ensures var key := ConnectionKey(ClientIp(site.trustCloudflare, r.headers).value);
            ReplyTo(site, map[], r).Sent? && ReplyTo(site, FullCounter(site, key, r.now), r).TooMany?
  {
  }

  lemma OnlyAnAddressCounter(site: Site, hash: string, now: nat)
    ensures AgreeOffAddresses(map[], FullCounter(site, HashKey(hash), now))
  {
    assert IsAddressCounter(WindowKey(HashKey(hash), Bucket(now)));
  }

  /**
   Exactly when a reply gives nothing away about address budgets: the address does not pass validation, or the
   connection's subject does not begin with "email:".
   */
  lemma ReplyIsBlindIff(site: Site, r: Request)
    ensures ReplyIsBlind(site, r) <==> !Deliverable(Address(r.email)) || PlainSubject(site, r)
  {
    if Deliverable(Address(r.email)) {
      if PlainSubject(site, r) {
        forall a: Counters, b: Counters | AgreeOffAddresses(a, b) ensures ReplyTo(site, a, r) == ReplyTo(site, b, r) {
          ConnectionAgrees(site, a, b, r);
        }
      } else {
        var subject := ClientIp(site.trustCloudflare, r.headers).value;
        var hash := subject[6..];
        assert subject == "email:" + hash;
        KeyNamesSubject(subject, hash);
        FullCounterRefuses(site, r);
        OnlyAnAddressCounter(site, hash, r.now);
      }
    }
  }

  lemma ForwardedSubject(h: string)
    requires h != "" && Text.CleanCell(h)
    ensures ClientIp(false, Headers(None, Some(h), None)) == Some(h)
  {
    Text.SplitPrefix(h, "", ',');
    Text.TrimOfClean(h);
  }

  /**
   A forwarded header naming an address's own hash: the same request is answered Sent with no counter running,
   and TooMany when the one counter running is that address's, at the connection's limit.
   */
  lemma ForwardedHashShowsTheBudget(site: Site, email: string, now: nat)
    requires !site.trustCloudflare && Deliverable(Address(Some(email)))
    requires Text.CleanCell("email:" + site.sha256(site.lower(Address(Some(email)))))
    ensures var hash := site.sha256(site.lower(Address(Some(email))));
            var r := Request(Some(email), Headers(None, Some("email:" + hash), None), now);
            var full := FullCounter(site, AddressKey(site, Address(Some(email))), now);
            && AgreeOffAddresses(map[], full)
            && ReplyTo(site, map[], r).Sent? && ReplyTo(site, full, r).TooMany?
  {
    var hash := site.sha256(site.lower(Address(Some(email))));
    var r := Request(Some(email), Headers(None, Some("email:" + hash), None), now);
    ForwardedSubject("email:" + hash);
    KeyNamesSubject("email:" + hash, hash);
    FullCounterRefuses(site, r);
    OnlyAnAddressCounter(site, hash, now);
    assert AddressKey(site, Address(Some(email))) == HashKey(hash);
  }

  // ---- With the letters filled in ----------------------------------------------------------------------

  function DigestSite(): Site {
    Site((s: string) => s, (s: string) => "0", 1, false)
  }

  const FORWARDED := Request(Some("a@b.cc"), Headers(None, Some("email:0"), None), 0)

  lemma AddressStays(s: string, at: nat, dot: nat)
    requires 0 < at < dot - 1 && dot < |s| - 1 && |s| <= 254 && s[at] == '@' && s[dot] == '.'
    requires forall i | 0 <= i < |s| :: (s[i] == '@' ==> i == at) && !Text.IsSpace(s[i])
    ensures Address(Some(s)) == s && Deliverable(s)
  {
    NoBreaksStay(s);
    Text.TrimOfClean(s);
  }

  lemma HeaderIsClean()
    ensures Text.CleanCell("email:0")
  {
  }

  lemma SameHeader(site: Site, email: string, header: string)
    requires !site.trustCloudflare && Address(Some(email)) == email && Deliverable(email)
    requires Text.CleanCell(header) && header == "email:" + site.sha256(site.lower(email))
    ensures var r := Request(Some(email), Headers(None, Some(header), None), 0);
            var full := FullCounter(site, HashKey(HashOf(site, r)), 0);
            AgreeOffAddresses(map[], full) && ReplyTo(site, map[], r).Sent? && ReplyTo(site, full, r).TooMany?
  {
    ForwardedHashShowsTheBudget(site, email, 0);
  }

  /** One header, one running counter, two answers. */
  lemma AForwardedHeaderShowsTheBudget()
    ensures var full := FullCounter(DigestSite(), HashKey(HashOf(DigestSite(), FORWARDED)), 0);
            && AgreeOffAddresses(map[], full)
            && ReplyTo(DigestSite(), map[], FORWARDED).Sent? && ReplyTo(DigestSite(), full, FORWARDED).TooMany?
  {
    AddressStays("a@b.cc", 1, 3);
    HeaderIsClean();
    SameHeader(DigestSite(), "a@b.cc", "email:0");
  }

  // ---- A run that gets there ---------------------------------------------------------------------------

  /** Asks for one address from a connection nobody can identify, n times. */
  function Anonymous(email: string, now: nat, n: nat): seq<Request> {
    if n == 0 then [] else Anonymous(email, now, n - 1) + [Request(Some(email), Headers(None, None, None), now)]
  }

  lemma AnonymousIsLetThrough<A>(site: Site, reset: (A, string) -> Outcome<A>, w: World<A>, email: string, now: nat)
    requires Deliverable(Address(Some(email))) && OutlivesWindow(w.counters)
    ensures var r := Request(Some(email), Headers(None, None, None), now);
            var w', key := Answer(site, reset, w, r), AddressKey(site, Address(Some(email)));
            && OutlivesWindow(w'.counters)
            && Spent(w'.counters, key, Bucket(now)) == Spent(w.counters, key, Bucket(now)) + 1
  {
    var r := Request(Some(email), Headers(None, None, None), now);
    assert ClientIp(site.trustCloudflare, r.headers) == None;
    SpendCountsOne(w.counters, AddressKey(site, Address(Some(email))), now);
  }

  ghost predicate HasAsked(site: Site, counters: Counters, email: string, now: nat, n: nat) {
    OutlivesWindow(counters) && Spent(counters, AddressKey(site, Address(Some(email))), Bucket(now)) == n
  }

  lemma OneMoreAsks<A>(site: Site, reset: (A, string) -> Outcome<A>, start: World<A>, front: seq<Request>,
                       all: seq<Request>, email: string, now: nat, n: nat)
    requires all == front + [Request(Some(email), Headers(None, None, None), now)] && n > 0
    requires Deliverable(Address(Some(email)))
    requires HasAsked(site, AnswerAll(site, reset, start, front).counters, email, now, n - 1)
    ensures HasAsked(site, AnswerAll(site, reset, start, all).counters, email, now, n)
  {
    AnonymousIsLetThrough(site, reset, AnswerAll(site, reset, start, front), email, now);
    AnswerOneMore(site, reset, start, front, Request(Some(email), Headers(None, None, None), now));
  }

  lemma {:induction false} AnonymousSpends<A>(site: Site, reset: (A, string) -> Outcome<A>, start: World<A>,
                                              email: string, now: nat, n: nat)
    requires Deliverable(Address(Some(email))) && HasAsked(site, start.counters, email, now, 0)
    ensures HasAsked(site, AnswerAll(site, reset, start, Anonymous(email, now, n)).counters, email, now, n)
  {
    if n > 0 {
      AnonymousSpends(site, reset, start, email, now, n - 1);
      OneMoreAsks(site, reset, start, Anonymous(email, now, n - 1), Anonymous(email, now, n), email, now, n);
    }
  }

  lemma SpentCounterRefuses(site: Site, counters: Counters, r: Request, key: string)
    requires Deliverable(Address(r.email)) && ClientIp(site.trustCloudflare, r.headers).Some?
    requires key == ConnectionKey(ClientIp(site.trustCloudflare, r.headers).value)
    requires OutlivesWindow(counters) && Spent(counters, key, Bucket(r.now)) >= ConnectionLimit(site)
    ensures ReplyTo(site, counters, r).TooMany?
  {
    var k := WindowKey(key, Bucket(r.now));
    assert k in counters && counters[k].expiresAt >= (Bucket(r.now) + 1) * HOUR > r.now;
  }

  /**
   The run: as many anonymous requests for an address as a connection may make in an hour, then one whose
   forwarded header names the address's hash. It is refused; without the others before it, it is answered Sent.
   */
  lemma AskingShowsTheBudget<A>(site: Site, reset: (A, string) -> Outcome<A>, accounts: A, email: string, now: nat)
    requires !site.trustCloudflare && Deliverable(Address(Some(email)))
    requires Text.CleanCell("email:" + site.sha256(site.lower(Address(Some(email)))))
    ensures var hash := site.sha256(site.lower(Address(Some(email))));
            var r := Request(Some(email), Headers(None, Some("email:" + hash), None), now);
            var others := Anonymous(email, now, ConnectionLimit(site));
            var asked := AnswerAll(site, reset, World(map[], accounts, []), others);
            ReplyTo(site, map[], r).Sent? && ReplyTo(site, asked.counters, r).TooMany?
  {
    var hash := site.sha256(site.lower(Address(Some(email))));
    var r := Request(Some(email), Headers(None, Some("email:" + hash), None), now);
    ForwardedHashShowsTheBudget(site, email, now);
    ForwardedSubject("email:" + hash);
    KeyNamesSubject("email:" + hash, hash);
    AnonymousSpends(site, reset, World(map[], accounts, []), email, now, ConnectionLimit(site));
    var asked := AnswerAll(site, reset, World(map[], accounts, []), Anonymous(email, now, ConnectionLimit(site)));
    assert AddressKey(site, Address(Some(email))) == HashKey(hash);
    SpentCounterRefuses(site, asked.counters, r, HashKey(hash));
  }
}
