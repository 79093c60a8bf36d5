/** "Send me a reset link": two fixed-window budgets in front of a call whose outcome must not show. */
module PasswordReset {
  import opened Wrappers
  import Decimals
  import Text = SeedText

  // ---- Which connection a request counts against -----------------------------------------------------

  datatype Headers = Headers(cfConnectingIp: Option<string>, forwardedFor: Option<string>, realIp: Option<string>)

  function LastHop(hops: seq<string>): Option<string> {
    if hops == [] then None
    else
      var hop := Text.Trim(hops[|hops| - 1]);
      if hop != "" then Some(hop) else LastHop(hops[..|hops| - 1])
  }

  function Trimmed(header: Option<string>): Option<string> {
    if header.Some? && Text.Trim(header.value) != "" then Some(Text.Trim(header.value)) else None
  }

  function ClientIp(trustCloudflare: bool, h: Headers): Option<string> {
    if trustCloudflare && Trimmed(h.cfConnectingIp).Some? then Trimmed(h.cfConnectingIp)
    else
      var last := if h.forwardedFor.Some? then LastHop(Text.Split(h.forwardedFor.value, ',')) else None;
      if last.Some? then last else Trimmed(h.realIp)
  }

  lemma {:induction false} LastHopOfMore(more: seq<string>, hops: seq<string>)
    requires LastHop(hops).Some?
    ensures LastHop(more + hops) == LastHop(hops)
  {
    assert (more + hops)[..|more + hops| - 1] == more + hops[..|hops| - 1];
    if Text.Trim(hops[|hops| - 1]) == "" {
      LastHopOfMore(more, hops[..|hops| - 1]);
    }
  }

  lemma {:induction false} SplitAfterPrefix(prefix: string, rest: string)
    ensures exists more :: Text.Split(prefix + "," + rest, ',') == more + Text.Split(rest, ',')
  {
    var s := prefix + "," + rest;
    if prefix == [] {
      assert s[1..] == rest;
      assert Text.Split(s, ',') == [""] + Text.Split(rest, ',');
    } else {
      SplitAfterPrefix(prefix[1..], rest);
      assert s[1..] == prefix[1..] + "," + rest;
      var more :| Text.Split(s[1..], ',') == more + Text.Split(rest, ',');
      if prefix[0] == ',' {
        assert Text.Split(s, ',') == ([""] + more) + Text.Split(rest, ',');
      } else {
        SplitLengths(prefix[1..], rest);
        assert |more| > 0;
        assert Text.Split(s, ',') == ([[prefix[0]] + more[0]] + more[1..]) + Text.Split(rest, ',');
      }
    }
  }

  lemma {:induction false} SplitLengths(prefix: string, rest: string)
    ensures |Text.Split(prefix + "," + rest, ',')| > |Text.Split(rest, ',')|
  {
    var s := prefix + "," + rest;
    if prefix == [] {
      assert s[1..] == rest;
    } else {
      assert s[1..] == prefix[1..] + "," + rest;
      SplitLengths(prefix[1..], rest);
    }
  }

  /** Only the last hop is written by our own proxy: whatever a client puts to its left changes nothing. */
  lemma LeftHopsDoNotMatter(trust: bool, h: Headers, prefix: string)
    requires h.forwardedFor.Some? && LastHop(Text.Split(h.forwardedFor.value, ',')).Some?
    ensures ClientIp(trust, h.(forwardedFor := Some(prefix + "," + h.forwardedFor.value))) == ClientIp(trust, h)
  {
    SplitAfterPrefix(prefix, h.forwardedFor.value);
    var hops := Text.Split(h.forwardedFor.value, ',');
    var more :| Text.Split(prefix + "," + h.forwardedFor.value, ',') == more + hops;
    LastHopOfMore(more, hops);
  }

  /** Behind Cloudflare the one header a visitor cannot write decides, whatever the others say. */
  lemma CloudflareDecides(h: Headers)
    requires h.cfConnectingIp.Some? && Text.Trim(h.cfConnectingIp.value) != ""
    ensures ClientIp(true, h) == Some(Text.Trim(h.cfConnectingIp.value))
  {
  }

  /** And without that switch a header of that name is not looked at. */
  lemma CloudflareIsIgnored(h: Headers, other: Option<string>)
    ensures ClientIp(false, h.(cfConnectingIp := other)) == ClientIp(false, h)
  {
  }

  /** Hop k is the last one that is not blank. */
  ghost predicate LastNonBlank(hops: seq<string>, k: nat) {
    && k < |hops| && Text.Trim(hops[k]) != ""
    && forall j | k < j < |hops| :: Text.Trim(hops[j]) == ""
  }

  lemma {:induction false} LastHopIs(hops: seq<string>)
    ensures match LastHop(hops)
            case None => forall j | 0 <= j < |hops| :: Text.Trim(hops[j]) == ""
            case Some(hop) => exists k: nat :: LastNonBlank(hops, k) && hop == Text.Trim(hops[k])
  {
    if hops != [] {
      var n := |hops| - 1;
      LastHopIs(hops[..n]);
      if Text.Trim(hops[n]) != "" {
        assert LastNonBlank(hops, n);
      } else if LastHop(hops[..n]).Some? {
        var k: nat :| LastNonBlank(hops[..n], k) && LastHop(hops[..n]).value == Text.Trim(hops[..n][k]);
        assert forall j | k < j < n :: hops[..n][j] == hops[j];
        assert LastNonBlank(hops, k);
      } else {
        assert forall j | 0 <= j < n :: hops[..n][j] == hops[j];
      }
    }
  }

  /** Otherwise it is the last hop that is not blank, and only without one the real-ip header, if not blank. */
  lemma SubjectIsTheLastHop(trust: bool, h: Headers)
    requires trust && h.cfConnectingIp.Some? ==> Text.Trim(h.cfConnectingIp.value) == ""
    ensures var hops := if h.forwardedFor.Some? then Text.Split(h.forwardedFor.value, ',') else [];
            var own := if h.realIp.Some? then Text.Trim(h.realIp.value) else "";
            if exists k: nat :: LastNonBlank(hops, k)
            then exists k: nat :: LastNonBlank(hops, k) && ClientIp(trust, h) == Some(Text.Trim(hops[k]))
            else ClientIp(trust, h) == if own == "" then None else Some(own)
  {
    var hops := if h.forwardedFor.Some? then Text.Split(h.forwardedFor.value, ',') else [];
    LastHopIs(hops);
  }

  // ---- The address ---------------------------------------------------------------------------------------

  predicate IsLineBreak(c: char) {
    c == '\r' || c == '\n'
  }

  /** Each run of line breaks becomes one space. */
  function JoinLines(s: string): string {
    if s == [] then ""
    else if !IsLineBreak(s[0]) then [s[0]] + JoinLines(s[1..])
    else if |s| > 1 && IsLineBreak(s[1]) then JoinLines(s[1..])
    else " " + JoinLines(s[1..])
  }

  /** ^[^@\s]+@[^@\s]+\.[^@\s]+$ */
  predicate LooksLikeAddress(s: string) {
    exists at, dot :: 0 < at < dot - 1 && dot < |s| - 1 && s[at] == '@' && s[dot] == '.'
      && forall i | 0 <= i < |s| :: (s[i] == '@' ==> i == at) && !Text.IsSpace(s[i])
  }

  function Address(field: Option<string>): string {
    Text.Trim(JoinLines(if field.Some? then field.value else ""))
  }

  predicate Deliverable(s: string) {
    LooksLikeAddress(s) && |s| <= 254
  }

  predicate OneWord(s: string) {
    s != "" && forall i | 0 <= i < |s| :: s[i] != '@' && !Text.IsSpace(s[i])
  }

  /** An address is a word, an at sign, a word, a dot and a word, and nothing else. */
  lemma LooksLikeAddressIff(s: string)
    ensures LooksLikeAddress(s) <==>
            exists a, b, c :: OneWord(a) && OneWord(b) && OneWord(c) && s == a + "@" + b + "." + c
  {
    if LooksLikeAddress(s) {
      var at, dot :| 0 < at < dot - 1 && dot < |s| - 1 && s[at] == '@' && s[dot] == '.'
        && forall i | 0 <= i < |s| :: (s[i] == '@' ==> i == at) && !Text.IsSpace(s[i]);
      var a, b, c := s[..at], s[at + 1..dot], s[dot + 1..];
      assert OneWord(a) && OneWord(b) && OneWord(c);
      assert s == a + "@" + b + "." + c;
    }
    if exists a, b, c :: OneWord(a) && OneWord(b) && OneWord(c) && s == a + "@" + b + "." + c {
      var a, b, c :| OneWord(a) && OneWord(b) && OneWord(c) && s == a + "@" + b + "." + c;
      ThreeWordsLookLikeAddress(a, b, c);
    }
  }

  lemma ThreeWordsLookLikeAddress(a: string, b: string, c: string)
    requires OneWord(a) && OneWord(b) && OneWord(c)
    ensures LooksLikeAddress(a + "@" + b + "." + c)
  {
    var s, at, dot := a + "@" + b + "." + c, |a|, |a| + 1 + |b|;
    assert s[at] == '@' && s[dot] == '.';
    forall i | 0 <= i < |s| ensures (s[i] == '@' ==> i == at) && !Text.IsSpace(s[i]) {
      assert s[i] == if i < at then a[i] else if i == at then '@' else if i < dot then b[i - at - 1]
                     else if i == dot then '.' else c[i - dot - 1];
    }
  }

  /** One of at most 254 characters is delivered to; a missing field never is. */
  lemma DeliverableIff(s: string)
    ensures Deliverable(s) <==> LooksLikeAddress(s) && |s| < 255
    ensures !Deliverable(Address(None))
  {
  }

  lemma {:induction false} NoBreaksStay(s: string)
    requires forall i | 0 <= i < |s| :: s[i] !in "\r\n"
    ensures JoinLines(s) == s
  {
    if s != [] {
      NoBreaksStay(s[1..]);
    }
  }

  /** A run of line breaks inside a field becomes one space. */
  lemma {:induction false} BreaksBecomeASpace(a: string, breaks: string, b: string)
    requires breaks != "" && forall i | 0 <= i < |breaks| :: breaks[i] in "\r\n"
    requires forall i | 0 <= i < |a| :: a[i] !in "\r\n"
    requires b == "" || b[0] !in "\r\n"
    ensures JoinLines(a + breaks + b) == a + " " + JoinLines(b)
    decreases |a| + |breaks|
  {
    var s := a + breaks + b;
    if a != "" {
      BreaksBecomeASpace(a[1..], breaks, b);
      assert s[1..] == a[1..] + breaks + b;
    } else if |breaks| > 1 {
      BreaksBecomeASpace(a, breaks[1..], b);
      assert s[1..] == a + breaks[1..] + b;
    } else {
      assert s[1..] == b;
    }
  }

  // ---- The limiter ---------------------------------------------------------------------------------------

  const HOUR := 3600000

  /** Redis: a count, and the millisecond EXPIRE takes it away at. */
  datatype Counter = Counter(count: nat, expiresAt: nat)
  type Counters = map<string, Counter>
  datatype Verdict = Verdict(allowed: bool, remaining: nat, retryAfterSeconds: int)

  function Bucket(now: nat): nat {
    now / HOUR
  }

  function WindowKey(key: string, bucket: nat): string {
    "ratelimit:" + key + ":" + Decimals.Print(bucket)
  }

  function Live(counters: Counters, k: string, now: nat): nat {
    if k in counters && now < counters[k].expiresAt then counters[k].count else 0
  }

  /** INCR, then EXPIRE on the first. */
  function Incremented(counters: Counters, k: string, now: nat): Counters {
    var count := Live(counters, k, now) + 1;
    counters[k := Counter(count, if count == 1 then now + HOUR else counters[k].expiresAt)]
  }

  /** TTL rounds to the nearest second; a non-positive answer falls back to what is left of the window. */
  function RetryAfter(counters: Counters, k: string, now: nat): int
    requires k in counters
  {
    var ttl := (counters[k].expiresAt - now + 500) / 1000;
    var left := ((Bucket(now) + 1) * HOUR - now + 999) / 1000;
    if ttl > 0 then ttl else if left < 1 then 1 else left
  }

  function Spend(counters: Counters, key: string, now: nat): Counters {
    Incremented(counters, WindowKey(key, Bucket(now)), now)
  }

  function Remaining(limit: nat, count: nat): nat {
    if count < limit then limit - count else 0
  }

  function Judge(counters: Counters, key: string, limit: nat, now: nat): Verdict {
    var k := WindowKey(key, Bucket(now));
    var spent := Spend(counters, key, now);
    Verdict(spent[k].count <= limit, Remaining(limit, spent[k].count), RetryAfter(spent, k, now))
  }

  // ---- One request ---------------------------------------------------------------------------------------

  const CONNECTION_LIMIT := 5
  const ADDRESS_LIMIT := 3

  /** What scales the connection budget: an integer from 1 up, 1 when unset or malformed. */
  type Multiplier = m: nat | 1 <= m witness 1

  /** toLowerCase and SHA-256 are not modelled. */
  datatype Site = Site(lower: string -> string, sha256: string -> string, multiplier: Multiplier,
                       trustCloudflare: bool)
  datatype Request = Request(email: Option<string>, headers: Headers, now: nat)
  datatype Reply = Invalid | TooMany(minutes: int) | Sent

  /** What a reset call does to the accounts, and whether it throws, is up to the auth library and the store. */
  datatype Outcome<A> = Returned(accounts: A) | Threw(accounts: A)

  datatype Entry = Entry(request: Request, reply: Reply, called: bool)
  datatype World<A> = World(counters: Counters, accounts: A, log: seq<Entry>)

  function AddressKey(site: Site, email: string): string {
    "forgot-password:email:" + site.sha256(site.lower(email))
  }

  function ConnectionKey(subject: string): string {
    "forgot-password:" + subject
  }

  function ConnectionLimit(site: Site): nat {
    CONNECTION_LIMIT * site.multiplier
  }

  function ConnectionSpent(site: Site, counters: Counters, r: Request): Counters {
    match ClientIp(site.trustCloudflare, r.headers)
    case None => counters
    case Some(subject) => Spend(counters, ConnectionKey(subject), r.now)
  }

  /** A request nobody can be identified by is let through uncounted. */
  function ConnectionVerdict(site: Site, counters: Counters, r: Request): Verdict {
    match ClientIp(site.trustCloudflare, r.headers)
    case None => Verdict(true, ConnectionLimit(site), 0)
    case Some(subject) => Judge(counters, ConnectionKey(subject), ConnectionLimit(site), r.now)
  }

  function Answer<A>(site: Site, reset: (A, string) -> Outcome<A>, w: World<A>, r: Request): World<A> {
    var email := Address(r.email);
    if !Deliverable(email) then w.(log := w.log + [Entry(r, Invalid, false)])
    else
      var connection := ConnectionVerdict(site, w.counters, r);
      var counters := ConnectionSpent(site, w.counters, r);
      if !connection.allowed then
        w.(counters := counters, log := w.log + [Entry(r, TooMany((connection.retryAfterSeconds + 59) / 60), false)])
      else
        var key := AddressKey(site, email);
        var spent := Spend(counters, key, r.now);
        if !Judge(counters, key, ADDRESS_LIMIT, r.now).allowed then
          w.(counters := spent, log := w.log + [Entry(r, Sent, false)])
        else
          World(spent, reset(w.accounts, email).accounts, w.log + [Entry(r, Sent, true)])
  }

  function AnswerAll<A>(site: Site, reset: (A, string) -> Outcome<A>, w: World<A>, requests: seq<Request>): World<A> {
    if requests == [] then w
    else Answer(site, reset, AnswerAll(site, reset, w, requests[..|requests| - 1]), requests[|requests| - 1])
  }

  lemma AnswerOneMore<A>(site: Site, reset: (A, string) -> Outcome<A>, w: World<A>, requests: seq<Request>, r: Request)
    ensures AnswerAll(site, reset, w, requests + [r]) == Answer(site, reset, AnswerAll(site, reset, w, requests), r)
  {
    assert (requests + [r])[..|requests|] == requests;
  }

  // ---- The action itself ---------------------------------------------------------------------------------

  class ResetForm<A> {
    const site: Site
    const reset: (A, string) -> Outcome<A>
    var counters: Counters
    var accounts: A
    ghost var log: seq<Entry>

    ghost function State(): World<A>
      reads this
    {
      World(counters, accounts, log)
    }

    constructor (site: Site, reset: (A, string) -> Outcome<A>, accounts: A)
      ensures this.site == site && this.reset == reset && State() == World(map[], accounts, [])
    {
      this.site, this.reset, this.accounts := site, reset, accounts;
      counters, log := map[], [];
    }

    method RateLimit(key: Option<string>, limit: nat, now: nat) returns (verdict: Verdict)
      modifies this`counters
      ensures verdict == if key.Some? then Judge(old(counters), key.value, limit, now) else Verdict(true, limit, 0)
      ensures counters == if key.Some? then Spend(old(counters), key.value, now) else old(counters)
    {
      if key.None? {
        return Verdict(true, limit, 0);
      }
      var k := WindowKey(key.value, Bucket(now));
      var alive := k in counters && now < counters[k].expiresAt;
      var count := if alive then counters[k].count + 1 else 1;
      counters := counters[k := Counter(count, if count == 1 then now + HOUR else counters[k].expiresAt)];
      verdict := Verdict(count <= limit, if count < limit then limit - count else 0, RetryAfter(counters, k, now));
    }

    method RequestPasswordReset(r: Request) returns (reply: Reply)
      modifies this
      ensures State() == Answer(site, reset, old(State()), r)
      ensures log == old(log) + [log[|old(log)|]] && log[|old(log)|].reply == reply
    {
      var email := Address(r.email);
      if !Deliverable(email) {
        log := log + [Entry(r, Invalid, false)];
        return Invalid;
      }
      var subject := ClientIp(site.trustCloudflare, r.headers);
      var connectionKey := if subject.Some? then Some(ConnectionKey(subject.value)) else None;
      var connection := RateLimit(connectionKey, ConnectionLimit(site), r.now);
      if !connection.allowed {
        reply := TooMany((connection.retryAfterSeconds + 59) / 60);
        log := log + [Entry(r, reply, false)];
        return;
      }
      var address := RateLimit(Some(AddressKey(site, email)), ADDRESS_LIMIT, r.now);
      if !address.allowed {
        log := log + [Entry(r, Sent, false)];
        return Sent;
      }
      var outcome := reset(accounts, email);
      match outcome {
        case Returned(after) => accounts := after;
        case Threw(after) => accounts := after;
      }
      log := log + [Entry(r, Sent, true)];
      reply := Sent;
    }
  }

  // ---- Which calls are made ------------------------------------------------------------------------------------

  /** The accounts after a reset call for each entry that says so, in order, each for the address it was sent. */
  function AfterCalls<A>(reset: (A, string) -> Outcome<A>, accounts: A, log: seq<Entry>): A {
    if log == [] then accounts
    else
      var before, last := AfterCalls(reset, accounts, log[..|log| - 1]), log[|log| - 1];
      if !last.called then before
      else match reset(before, Address(last.request.email)) case Returned(after) => after case Threw(after) => after
  }

  lemma OneAnswerCalls<A>(site: Site, reset: (A, string) -> Outcome<A>, w: World<A>, r: Request) returns (e: Entry)
    ensures var w' := Answer(site, reset, w, r);
            && w'.log == w.log + [e] && e.request == r && (e.called ==> e.reply.Sent?)
            && w'.accounts == AfterCalls(reset, w.accounts, [e])
  {
    e := Answer(site, reset, w, r).log[|w.log|];
    assert [e][..0] == [];
  }

  lemma CallsAppend<A>(reset: (A, string) -> Outcome<A>, accounts: A, log: seq<Entry>, e: Entry)
    ensures AfterCalls(reset, accounts, log + [e]) == AfterCalls(reset, AfterCalls(reset, accounts, log), [e])
  {
    assert (log + [e])[..|log|] == log && [e][..0] == [];
  }

  /** One entry a request, in order. */
  ghost predicate LogOf(log: seq<Entry>, requests: seq<Request>) {
    |log| == |requests| && forall i | 0 <= i < |log| :: log[i].request == requests[i]
  }

  lemma LogOfMore(log: seq<Entry>, requests: seq<Request>, e: Entry, r: Request)
    requires LogOf(log, requests) && e.request == r
    ensures LogOf(log + [e], requests + [r])
  {
  }

  /**
   For every request sequence: the accounts end up as the logged calls leave them, each made with the address its
   own request gave, in order, whether or not it throws; nothing else touches them.
   */
  lemma {:induction false} AccountsAreWhatWasCalled<A>(site: Site, reset: (A, string) -> Outcome<A>, accounts: A,
                                                       requests: seq<Request>)
    ensures var w := AnswerAll(site, reset, World(map[], accounts, []), requests);
            LogOf(w.log, requests) && w.accounts == AfterCalls(reset, accounts, w.log)
  {
    if requests != [] {
      var front, last := requests[..|requests| - 1], requests[|requests| - 1];
      AccountsAreWhatWasCalled(site, reset, accounts, front);
      var before := AnswerAll(site, reset, World(map[], accounts, []), front);
      var e := OneAnswerCalls(site, reset, before, last);
      CallsAppend(reset, accounts, before.log, e);
      LogOfMore(before.log, front, e, last);
      assert requests == front + [last];
    }
  }

  // ---- The reply says nothing about accounts ---------------------------------------------------------------

  lemma ReplyIgnoresAccounts<A, B>(site: Site, resetA: (A, string) -> Outcome<A>,
                                   resetB: (B, string) -> Outcome<B>, a: World<A>, b: World<B>, r: Request)
    requires a.counters == b.counters && a.log == b.log
    ensures var a', b' := Answer(site, resetA, a, r), Answer(site, resetB, b, r);
            a'.log == b'.log && a'.counters == b'.counters
  {
  }

  /**
   Any two account stores, behind any two behaviours of the reset call -- throwing whenever they like -- give
   the same replies to the same requests, and leave the same counters.
   */
  lemma {:induction false} RepliesIgnoreAccounts<A, B>(site: Site, resetA: (A, string) -> Outcome<A>,
                                                       resetB: (B, string) -> Outcome<B>, a: World<A>, b: World<B>,
                                                       requests: seq<Request>)
    requires a.counters == b.counters && a.log == b.log
    ensures var a', b' := AnswerAll(site, resetA, a, requests), AnswerAll(site, resetB, b, requests);
            a'.log == b'.log && a'.counters == b'.counters
  {
    if requests != [] {
      var front, last := requests[..|requests| - 1], requests[|requests| - 1];
      RepliesIgnoreAccounts(site, resetA, resetB, a, b, front);
      ReplyIgnoresAccounts(site, resetA, resetB, AnswerAll(site, resetA, a, front),
                           AnswerAll(site, resetB, b, front), last);
    }
  }
}
