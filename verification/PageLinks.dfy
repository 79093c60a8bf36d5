/** Pagination in the path: printing a page's link, reading a page out of a URL, and the canonical form. */
module PageLinks {
  import opened Wrappers
  import opened Decimals
  import Text = SeedText

  const MAX_PAGE := 10000
  const MAX_DIGITS := 5

  /** Every segment of a URL is free of slashes. */
  ghost predicate Segments(segments: seq<string>) {
    segments != [] && forall i | 0 <= i < |segments| :: '/' !in segments[i]
  }

  function PathOf(segments: seq<string>): string {
    "/" + Text.Join(segments, '/')
  }

  function SegmentsOf(path: string): seq<string>
    requires path != ""
  {
    Text.Split(path[1..], '/')
  }

  predicate EndsInPage(segments: seq<string>) {
    |segments| >= 2 && segments[|segments| - 2] == "page"
  }

  function Stripped(segments: seq<string>): seq<string> {
    if EndsInPage(segments) then segments[..|segments| - 2] else segments
  }

  function PillarBasePath(segments: seq<string>): string {
    PathOf(Stripped(segments))
  }

  /** The path a page is served under and declares as canonical. */
  function PagePath(segments: seq<string>, page: nat): string {
    var base := PillarBasePath(segments);
    if page == 1 then base else base + "/page/" + Print(page)
  }

  // ---- Reading -------------------------------------------------------------------------------------------------

  predicate AllDigits(s: string) {
    forall i | 0 <= i < |s| :: IsDigit(s[i])
  }

  /** ^[1-9]\d*$ */
  predicate IsPageNumber(raw: string) {
    raw != "" && raw[0] != '0' && AllDigits(raw)
  }

  datatype Pagination = Pagination(rest: seq<string>, page: nat, explicit: bool)

  function SplitPagination(segments: seq<string>): Option<Pagination> {
    if !EndsInPage(segments) then Some(Pagination(segments, 1, false))
    else
      var raw := segments[|segments| - 1];
      if !IsPageNumber(raw) || |raw| > MAX_DIGITS || Value(raw) > MAX_PAGE then None
      else Some(Pagination(segments[..|segments| - 2], Value(raw), true))
  }

  // ---- Printing ------------------------------------------------------------------------------------------------

  function WithVerified(verified: bool, h: string): string {
    if !verified then h else if '?' in h then h + "&" + "verified=1" else h + "?" + "verified=1"
  }

  function Href(basePath: string, n: nat, searchStyle: bool, verified: bool): string {
    if n == 1 then WithVerified(verified, basePath)
    else if searchStyle then
      WithVerified(verified, if '?' in basePath then basePath + "&page=" + Print(n) else basePath + "?page=" + Print(n))
    else WithVerified(verified, basePath + "/page/" + Print(n))
  }

  // ---- The number in the path ------------------------------------------------------------------------------------

  lemma PrintedIsAPageNumber(n: nat)
    requires n > 0
    ensures IsPageNumber(Print(n)) && Value(Print(n)) == n && (|Print(n)| <= MAX_DIGITS <==> n < 100000)
  {
    PrintThenRead(n);
    assert Pow10(5) == 100000 by {
      assert Pow10(2) == 100 && Pow10(3) == 1000 && Pow10(4) == 10000;
    }
    FewDigits(n, 5, 100000);
  }

  /** The length guard rejects nothing the value guard would have let through. */
  lemma LengthGuardIsSafe(raw: string)
    requires IsPageNumber(raw) && Value(raw) <= 10000
    ensures |raw| <= MAX_DIGITS && raw == Print(Value(raw))
  {
    ReadThenPrint(raw);
    PrintedIsAPageNumber(Value(raw));
  }

  // ---- Round trips -----------------------------------------------------------------------------------------------

  lemma {:induction false} JoinSnoc(segments: seq<string>, last: string)
    requires segments != []
    ensures Text.Join(segments + [last], '/') == Text.Join(segments, '/') + "/" + last
  {
    var all := segments + [last];
    if |segments| > 1 {
      JoinSnoc(segments[1..], last);
      assert all[1..] == segments[1..] + [last];
    } else {
      assert all[1..] == [last];
    }
  }

  lemma PathOfPage(segments: seq<string>, n: nat)
    requires segments != []
    ensures PathOf(segments) + "/page/" + Print(n) == PathOf(segments + ["page", Print(n)])
  {
    JoinSnoc(segments, "page");
    JoinSnoc(segments + ["page"], Print(n));
    assert segments + ["page"] + [Print(n)] == segments + ["page", Print(n)];
  }

  lemma ReadBack(segments: seq<string>)
    requires Segments(segments)
    ensures SegmentsOf(PathOf(segments)) == segments
  {
    Text.SplitOfJoin(segments, '/');
    assert PathOf(segments)[1..] == Text.Join(segments, '/');
  }

  /**
   Printing a page's link and reading it back: for every base and every page from 2 up, the reader finds that
   base and that page -- or, past the largest page that is a URL at all, nothing.
   */
  lemma LinkReadsBack(base: seq<string>, n: nat)
    requires Segments(base) && n >= 2
    ensures SplitPagination(SegmentsOf(Href(PathOf(base), n, false, false))) ==
              if n <= 10000 then Some(Pagination(base, n, true)) else None
  {
    var segments := base + ["page", Print(n)];
    PathOfPage(base, n);
    PrintedIsAPageNumber(n);
    assert '/' !in Print(n);
    ReadBack(segments);
    assert segments[..|segments| - 2] == base;
  }

  /** Page one is the base itself, and reads back as page one if and only if the base does not end in /page/x. */
  lemma FirstPageReadsBack(base: seq<string>)
    requires Segments(base)
    ensures SplitPagination(SegmentsOf(Href(PathOf(base), 1, false, false))) == Some(Pagination(base, 1, false))
            <==> !EndsInPage(base)
  {
    ReadBack(base);
  }

  /** Stripping undoes printing, so links built on page N never stack a second /page/. */
  lemma StripUndoesPrint(base: seq<string>, n: nat)
    requires Segments(base) && n >= 1 && (n == 1 ==> !EndsInPage(base))
    ensures PillarBasePath(SegmentsOf(Href(PathOf(base), n, false, false))) == PathOf(base)
  {
    if n == 1 {
      ReadBack(base);
    } else {
      var segments := base + ["page", Print(n)];
      PathOfPage(base, n);
      PrintThenRead(n);
      assert '/' !in Print(n);
      ReadBack(segments);
      assert segments[..|segments| - 2] == base;
    }
  }

  lemma BarePage(segments: seq<string>, n: nat)
    requires segments == ["page", Print(n)]
    ensures PagePath(segments, n) != PathOf(segments)
  {
    JoinSnoc(["page"], Print(n));
    assert segments == ["page"] + [Print(n)];
    assert |PathOf(segments)| == 6 + |Print(n)|;
    assert Stripped(segments) == [] && PillarBasePath(segments) == "/";
    assert n != 1 ==> |PagePath(segments, n)| == 7 + |Print(n)|;
  }

  lemma PagedUrl(segments: seq<string>, p: Pagination)
    requires SplitPagination(segments) == Some(p) && p.explicit
    ensures segments == p.rest + ["page", Print(p.page)] && Stripped(segments) == p.rest
  {
    LengthGuardIsSafe(segments[|segments| - 1]);
    assert segments == p.rest + ["page", segments[|segments| - 1]];
  }

  /**
   A page past the first declares the very URL it was reached at as canonical, and that is the link printed
   for it. The two exceptions are an explicit /page/1 and a bare /page/N, which has no base.
   */
  lemma CanonicalIsTheLinkAndTheUrl(segments: seq<string>)
    requires Segments(segments) && SplitPagination(segments).Some?
    ensures var p := SplitPagination(segments).value;
            && PagePath(segments, p.page) == Href(PathOf(p.rest), p.page, false, false)
            && (PagePath(segments, p.page) == PathOf(segments) <==> !(p.explicit && (p.page == 1 || p.rest == [])))
  {
    var p := SplitPagination(segments).value;
    if p.explicit {
      PagedUrl(segments, p);
      if p.rest == [] {
        BarePage(segments, p.page);
      } else {
        PathOfPage(p.rest, p.page);
        assert |PathOf(segments)| > |PathOf(p.rest)|;
      }
    }
  }

  /** Each page has one spelling: no two URLs are read as the same page of the same base. */
  lemma OneUrlPerPage(a: seq<string>, b: seq<string>)
    requires SplitPagination(a).Some? && SplitPagination(a) == SplitPagination(b)
    ensures a == b
  {
    var p := SplitPagination(a).value;
    if p.explicit {
      PagedUrl(a, p);
      PagedUrl(b, p);
    }
  }

  // ---- The query string ------------------------------------------------------------------------------------------

  function QuestionMarks(s: string): nat {
    if s == "" then 0 else QuestionMarks(s[..|s| - 1]) + if s[|s| - 1] == '?' then 1 else 0
  }

  lemma {:induction false} QuestionMarksAdd(a: string, b: string)
    ensures QuestionMarks(a + b) == QuestionMarks(a) + QuestionMarks(b)
  {
    if b == "" {
      assert a + b == a;
    } else {
      QuestionMarksAdd(a, b[..|b| - 1]);
      assert (a + b)[..|a + b| - 1] == a + b[..|b| - 1];
    }
  }

  lemma {:induction false} QuestionMarksCount(s: string)
    ensures QuestionMarks(s) > 0 <==> '?' in s
  {
    if s != "" {
      QuestionMarksCount(s[..|s| - 1]);
      assert s == s[..|s| - 1] + [s[|s| - 1]];
    }
  }

  lemma WithVerifiedMarks(verified: bool, h: string)
    ensures QuestionMarks(WithVerified(verified, h)) ==
              QuestionMarks(h) + if verified && QuestionMarks(h) == 0 then 1 else 0
  {
    QuestionMarksCount(h);
    QuestionMarksAdd(h, "&");
    QuestionMarksAdd(h + "&", "verified=1");
    QuestionMarksAdd(h, "?");
    QuestionMarksAdd(h + "?", "verified=1");
    QuestionMarksCount("&");
    QuestionMarksCount("verified=1");
    assert QuestionMarks("?") == 1 by {
      assert "?"[..0] == "";
    }
  }

  lemma WithPageMarks(base: string, joint: string, n: nat)
    ensures QuestionMarks(base + joint + Print(n)) == QuestionMarks(base) + QuestionMarks(joint)
  {
    QuestionMarksAdd(base, joint);
    QuestionMarksAdd(base + joint, Print(n));
    QuestionMarksCount(Print(n));
  }

  lemma JointMarks()
    ensures QuestionMarks("/page/") == 0 && QuestionMarks("&page=") == 0 && QuestionMarks("?page=") == 1
  {
    QuestionMarksCount("/page/");
    QuestionMarksCount("&page=");
    QuestionMarksCount("page=");
    QuestionMarksAdd("?", "page=");
    assert "?page=" == "?" + "page=" && "?"[..0] == "";
  }

  function Joint(base: string, searchStyle: bool): string {
    if !searchStyle then "/page/" else if '?' in base then "&page=" else "?page="
  }

  lemma HrefOfLaterPage(base: string, n: nat, searchStyle: bool, verified: bool)
    requires n != 1
    ensures Href(base, n, searchStyle, verified) == WithVerified(verified, base + Joint(base, searchStyle) + Print(n))
  {
  }

  /** Exactly how many '?' a link has: the base's own, or one if it had none and an option needs a query. */
  lemma LinkHasOneQuery(base: string, n: nat, searchStyle: bool, verified: bool)
    ensures var q := QuestionMarks(base);
            QuestionMarks(Href(base, n, searchStyle, verified)) ==
              if q == 0 && (verified || (searchStyle && n != 1)) then 1 else q
  {
    QuestionMarksCount(base);
    if n == 1 {
      WithVerifiedMarks(verified, base);
    } else {
      var plain := base + Joint(base, searchStyle) + Print(n);
      HrefOfLaterPage(base, n, searchStyle, verified);
      WithVerifiedMarks(verified, plain);
      WithPageMarks(base, Joint(base, searchStyle), n);
      JointMarks();
    }
  }
}
