/** The YouTube URL validator: the four accepted URL shapes and the predicate
    that accepts a string when one of them matches at its start.

    Each shape is a regular expression of the form
        ^https?://(SUB)?MARKER[CLASS]+
    with no end anchor, matched with Python's `re.match`, which anchors at the
    start only. The matchers below follow the expression piece by piece: the
    scheme with its optional `s`, the optional subdomain group (tried first,
    then skipped, as the backtracking engine does), the literal marker, and
    one character of the class (one is enough, since nothing after the `+`
    has to match). */
module UrlValidator {

  /** Python's `\s` in a `str` pattern: the characters for which
      `str.isspace()` holds. */
  predicate IsSpace(c: char) {
    ('\t' <= c <= '\r') || ('\U{1C}' <= c <= '\U{1F}') || c == ' '
    || c == '\U{85}' || c == '\U{A0}' || c == '\U{1680}'
    || ('\U{2000}' <= c <= '\U{200A}') || c == '\U{2028}' || c == '\U{2029}'
    || c == '\U{202F}' || c == '\U{205F}' || c == '\U{3000}'
  }

  /** The negated classes that end the patterns: `[^&\s]` and `[^?\s]`. */
  datatype CharClass = NotAmpersandOrSpace | NotQuestionOrSpace

  predicate InClass(k: CharClass, c: char) {
    !IsSpace(c) &&
    match k
    case NotAmpersandOrSpace => c != '&'
    case NotQuestionOrSpace => c != '?'
  }

  /** One pattern `^https?://(subdomain)?marker[tail]+`. */
  datatype Pattern = Pattern(subdomain: string, marker: string, tail: CharClass)

  const Http := "http://"
  const Https := "https://"

  const Watch := Pattern("www.", "youtube.com/watch?v=", NotAmpersandOrSpace)
  const Playlist := Pattern("www.", "youtube.com/playlist?list=", NotAmpersandOrSpace)
  const MobileWatch := Pattern("m.", "youtube.com/watch?v=", NotAmpersandOrSpace)
  const ShortLink := Pattern("www.", "youtu.be/", NotQuestionOrSpace)

  /** `YOUTUBE_PATTERNS`, in the order the program lists them. */
  const YoutubePatterns: seq<Pattern> := [Watch, Playlist, MobileWatch, ShortLink]

  /** `MARKER[CLASS]+` matched at the start of `r`. */
  predicate MatchMarker(p: Pattern, r: string) {
    p.marker <= r && |r| > |p.marker| && InClass(p.tail, r[|p.marker|])
  }

  /** `(SUB)?MARKER[CLASS]+` matched at the start of `r`: with the group, or
      without it. */
  predicate MatchHost(p: Pattern, r: string) {
    (p.subdomain <= r && MatchMarker(p, r[|p.subdomain|..])) || MatchMarker(p, r)
  }

  /** `re.match(p, s)` succeeds. */
  predicate Matches(p: Pattern, s: string) {
    (Https <= s && MatchHost(p, s[|Https|..])) || (Http <= s && MatchHost(p, s[|Http|..]))
  }

  /** `any(re.match(p, s) for p in ps)`. */
  predicate AnyMatch(ps: seq<Pattern>, s: string) {
    |ps| > 0 && (Matches(ps[0], s) || AnyMatch(ps[1..], s))
  }

  /** `is_valid_youtube_url`. */
  predicate IsValid(url: string) {
    AnyMatch(YoutubePatterns, url)
  }

  // ---------------------------------------------------------------------------
  // `any` over the pattern list

  lemma {:induction false} AnyMatchMembership(ps: seq<Pattern>, s: string)
    ensures AnyMatch(ps, s) <==> exists p :: p in ps && Matches(p, s)
  {
    if |ps| > 0 {
      AnyMatchMembership(ps[1..], s);
      assert forall p :: p in ps <==> p == ps[0] || p in ps[1..];
    }
  }

  /** Only which patterns are listed matters, not their order or how often
      each one appears. */
  lemma AnyMatchOrderIrrelevant(ps: seq<Pattern>, qs: seq<Pattern>, s: string)
    requires forall p :: p in ps <==> p in qs
    ensures AnyMatch(ps, s) == AnyMatch(qs, s)
  {
    AnyMatchMembership(ps, s);
    AnyMatchMembership(qs, s);
  }

  /** A string is accepted iff one of the four shapes matches it. */
  lemma IsValidIffOneOfFour(s: string)
    ensures IsValid(s) <==>
      Matches(Watch, s) || Matches(Playlist, s) || Matches(MobileWatch, s) || Matches(ShortLink, s)
  {
    AnyMatchMembership(YoutubePatterns, s);
  }

  // ---------------------------------------------------------------------------
  // The accepted shapes written out as one table

  /** What may follow the scheme: a host with its path marker, and the class
      of the character that must come after it. */
  datatype Route = Route(host: string, tail: CharClass)

  /** Every host and marker the validator accepts after `http://` or
      `https://`, spelled out: `www.` with all three paths, `m.` only with the
      watch path. */
  const Routes: seq<Route> := [
    Route("youtube.com/watch?v=", NotAmpersandOrSpace),
    Route("www.youtube.com/watch?v=", NotAmpersandOrSpace),
    Route("m.youtube.com/watch?v=", NotAmpersandOrSpace),
    Route("youtube.com/playlist?list=", NotAmpersandOrSpace),
    Route("www.youtube.com/playlist?list=", NotAmpersandOrSpace),
    Route("youtu.be/", NotQuestionOrSpace),
    Route("www.youtu.be/", NotQuestionOrSpace)
  ]

  /** `r` starts with `h` and one more character of class `k`. */
  predicate HeadThen(h: string, k: CharClass, r: string) {
    h <= r && |r| > |h| && InClass(k, r[|h|])
  }

  predicate AnyRoute(r: string) {
    exists i :: 0 <= i < |Routes| && HeadThen(Routes[i].host, Routes[i].tail, r)
  }

  /** The table reading of the validator. */
  predicate Accepted(s: string) {
    (Https <= s && AnyRoute(s[|Https|..])) || (Http <= s && AnyRoute(s[|Http|..]))
  }

  lemma PrefixConcat(a: string, b: string, r: string)
    requires a <= r
    ensures b <= r[|a|..] <==> a + b <= r
  {
    if a + b <= r {
      assert r[|a|..][..|b|] == (a + b)[|a|..];
    }
  }

  /** The optional group, read flat: `(SUB)?MARKER[CLASS]+` matches iff the
      text starts with `SUB MARKER` or with `MARKER`, then a class character. */
  lemma MatchHostIff(p: Pattern, r: string)
    ensures MatchHost(p, r) <==>
      HeadThen(p.subdomain + p.marker, p.tail, r) || HeadThen(p.marker, p.tail, r)
  {
    if p.subdomain <= r {
      PrefixConcat(p.subdomain, p.marker, r);
      var q := r[|p.subdomain|..];
      if p.marker <= q && |q| > |p.marker| {
        assert q[|p.marker|] == r[|p.subdomain + p.marker|];
      }
    }
  }

  lemma AnyRouteIff(r: string)
    ensures AnyRoute(r) <==>
      MatchHost(Watch, r) || MatchHost(Playlist, r) || MatchHost(MobileWatch, r) || MatchHost(ShortLink, r)
  {
    MatchHostIff(Watch, r);
    MatchHostIff(Playlist, r);
    MatchHostIff(MobileWatch, r);
    MatchHostIff(ShortLink, r);
    WatchHost();
    WwwWatchHost();
    MobileWatchHost();
    PlaylistHost();
    WwwPlaylistHost();
    ShortLinkHost();
    WwwShortLinkHost();
  }

  lemma WatchHost()
    ensures Watch.marker == Routes[0].host
    ensures MobileWatch.marker == Routes[0].host
  {
  }

  lemma WwwWatchHost()
    ensures Watch.subdomain + Watch.marker == Routes[1].host
  {
  }

  lemma MobileWatchHost()
    ensures MobileWatch.subdomain + MobileWatch.marker == Routes[2].host
  {
  }

  lemma PlaylistHost()
    ensures Playlist.marker == Routes[3].host
  {
  }

  lemma WwwPlaylistHost()
    ensures Playlist.subdomain + Playlist.marker == Routes[4].host
  {
  }

  lemma ShortLinkHost()
    ensures ShortLink.marker == Routes[5].host
  {
  }

  lemma WwwShortLinkHost()
    ensures ShortLink.subdomain + ShortLink.marker == Routes[6].host
  {
  }

  /** The validator and the table agree on every string. */
  lemma IsValidIffAccepted(s: string)
    ensures IsValid(s) <==> Accepted(s)
  {
    IsValidIffOneOfFour(s);
    if Https <= s {
      AnyRouteIff(s[|Https|..]);
    }
    if Http <= s {
      AnyRouteIff(s[|Http|..]);
    }
  }

  // ---------------------------------------------------------------------------
  // Consequences

  /** Every accepted string starts with exactly one of `http://` and
      `https://`; a string with neither at position 0 is rejected. */
  lemma SchemeRequired(s: string)
    ensures IsValid(s) ==> (Http <= s) != (Https <= s)
    ensures !(Http <= s) && !(Https <= s) ==> !IsValid(s)
  {
    IsValidIffAccepted(s);
    if Http <= s && Https <= s {
      assert s[4] == Http[4] == ':' && s[4] == Https[4] == 's';
    }
  }

  lemma HeadThenExtend(h: string, k: CharClass, r: string, t: string)
    requires HeadThen(h, k, r)
    ensures HeadThen(h, k, r + t)
  {
    assert (r + t)[..|h|] == r[..|h|];
    assert (r + t)[|h|] == r[|h|];
  }

  lemma AnyRouteExtend(r: string, t: string)
    requires AnyRoute(r)
    ensures AnyRoute(r + t)
  {
    var i :| 0 <= i < |Routes| && HeadThen(Routes[i].host, Routes[i].tail, r);
    HeadThenExtend(Routes[i].host, Routes[i].tail, r, t);
  }

  /** No end anchor: whatever follows an accepted string keeps it accepted. */
  lemma ExtensionPreservesValidity(s: string, t: string)
    requires IsValid(s)
    ensures IsValid(s + t)
  {
    IsValidIffAccepted(s);
    IsValidIffAccepted(s + t);
    if Https <= s && AnyRoute(s[|Https|..]) {
      SchemeExtend(Https, s, t);
    } else {
      SchemeExtend(Http, s, t);
    }
  }

  lemma SchemeExtend(pre: string, s: string, t: string)
    requires pre <= s && AnyRoute(s[|pre|..])
    ensures pre <= s + t && AnyRoute((s + t)[|pre|..])
  {
    assert (s + t)[..|pre|] == s[..|pre|];
    assert (s + t)[|pre|..] == s[|pre|..] + t;
    AnyRouteExtend(s[|pre|..], t);
  }

  /** What follows the scheme of a string. */
  function AfterScheme(s: string): string {
    if Https <= s then s[|Https|..] else if Http <= s then s[|Http|..] else s
  }

  lemma PrefixTrans(a: string, b: string, r: string)
    requires a <= b && b <= r
    ensures a <= r
  {
    assert r[..|a|] == b[..|a|];
  }

  lemma HostOfRoute(r: string, i: nat)
    requires i < |Routes| && Routes[i].host <= r
    ensures "youtube.com/" <= r || "youtu.be/" <= r || "www.youtube.com/" <= r
      || "www.youtu.be/" <= r || "m.youtube.com/watch?v=" <= r
  {
    var h := Routes[i].host;
    if i == 0 || i == 3 {
      assert "youtube.com/" <= h;
      PrefixTrans("youtube.com/", h, r);
    } else if i == 1 || i == 4 {
      assert "www.youtube.com/" <= h;
      PrefixTrans("www.youtube.com/", h, r);
    }
  }

  /** The subdomain rules: after the scheme an accepted string has no
      subdomain, `www.`, or `m.`, and `m.` only in front of the watch path. */
  lemma SubdomainRules(s: string)
    requires IsValid(s)
    ensures var r := AfterScheme(s);
      "youtube.com/" <= r || "youtu.be/" <= r || "www.youtube.com/" <= r
      || "www.youtu.be/" <= r || "m.youtube.com/watch?v=" <= r
  {
    IsValidIffAccepted(s);
    SchemeRequired(s);
    var r := AfterScheme(s);
    assert AnyRoute(r);
    var i :| 0 <= i < |Routes| && HeadThen(Routes[i].host, Routes[i].tail, r);
    HostOfRoute(r, i);
  }

  // ---------------------------------------------------------------------------
  // Particular shapes

  /** After a scheme, acceptance is decided by the table of routes alone. */
  lemma AcceptedAfterScheme(sc: string, m: string, t: string)
    requires sc == Http || sc == Https
    ensures IsValid(sc + m + t) <==> AnyRoute(m + t)
  {
    var r := m + t;
    var s := sc + m + t;
    assert s == sc + r;
    IsValidIffAccepted(s);
    assert s[..|sc|] == sc;
    assert s[|sc|..] == r;
    assert s[4] == sc[4];
  }

  /** `h` and `r` differ at position `j`, so `r` does not start with `h`. */
  lemma DiffersAt(h: string, k: CharClass, r: string, j: nat)
    requires j < |h| && j < |r| && h[j] != r[j]
    ensures !HeadThen(h, k, r)
  {
  }

  lemma HeadThenAppend(h: string, k: CharClass, t: string)
    requires |t| > 0 && InClass(k, t[0])
    ensures HeadThen(h, k, h + t)
  {
    assert (h + t)[..|h|] == h;
  }

  /** A watch URL with a video id is accepted, whatever follows the id. */
  lemma AcceptsWatchUrl(sc: string, id: string)
    requires sc == Http || sc == Https
    requires |id| > 0 && InClass(NotAmpersandOrSpace, id[0])
    ensures IsValid(sc + "www.youtube.com/watch?v=" + id)
  {
    HeadThenAppend(Routes[1].host, Routes[1].tail, id);
    assert AnyRoute(Routes[1].host + id);
    AcceptedAfterScheme(sc, Routes[1].host, id);
  }

  /** A short link with an id is accepted, whatever follows the id. */
  lemma AcceptsShortLink(sc: string, id: string)
    requires sc == Http || sc == Https
    requires |id| > 0 && InClass(NotQuestionOrSpace, id[0])
    ensures IsValid(sc + "youtu.be/" + id)
  {
    HeadThenAppend(Routes[5].host, Routes[5].tail, id);
    assert AnyRoute(Routes[5].host + id);
    AcceptedAfterScheme(sc, Routes[5].host, id);
  }

  lemma NoRouteForEmptyVideoId(t: string)
    requires t == [] || !InClass(NotAmpersandOrSpace, t[0])
    ensures !AnyRoute("www.youtube.com/watch?v=" + t)
  {
    var m := "www.youtube.com/watch?v=";
    var r := m + t;
    assert r[0] == m[0] && r[9] == m[9] && r[16] == m[16];
    forall i | 0 <= i < |Routes| ensures !HeadThen(Routes[i].host, Routes[i].tail, r) {
      if i == 1 {
        assert |Routes[i].host| == |m|;
        assert t != [] ==> r[|m|] == t[0];
      } else {
        DiffersAt(Routes[i].host, Routes[i].tail, r, if i == 4 then 16 else if i == 6 then 9 else 0);
      }
    }
  }

  /** A watch URL whose id is empty or starts with `&` or whitespace is
      rejected: `https://www.youtube.com/watch?v=&x` is one. */
  lemma RejectsEmptyVideoId(sc: string, t: string)
    requires sc == Http || sc == Https
    requires t == [] || !InClass(NotAmpersandOrSpace, t[0])
    ensures !IsValid(sc + "www.youtube.com/watch?v=" + t)
  {
    NoRouteForEmptyVideoId(t);
    AcceptedAfterScheme(sc, "www.youtube.com/watch?v=", t);
  }

  lemma NoRouteForEmptyShortId(t: string)
    requires t == [] || !InClass(NotQuestionOrSpace, t[0])
    ensures !AnyRoute("youtu.be/" + t)
  {
    var m := "youtu.be/";
    var r := m + t;
    assert r[0] == m[0] && r[5] == m[5];
    forall i | 0 <= i < |Routes| ensures !HeadThen(Routes[i].host, Routes[i].tail, r) {
      if i == 5 {
        assert |Routes[i].host| == |m|;
        assert t != [] ==> r[|m|] == t[0];
      } else {
        DiffersAt(Routes[i].host, Routes[i].tail, r, if i == 0 || i == 3 then 5 else 0);
      }
    }
  }

  /** A short link whose id is empty or starts with `?` or whitespace is
      rejected: `https://youtu.be/` is one. */
  lemma RejectsEmptyShortId(sc: string, t: string)
    requires sc == Http || sc == Https
    requires t == [] || !InClass(NotQuestionOrSpace, t[0])
    ensures !IsValid(sc + "youtu.be/" + t)
  {
    NoRouteForEmptyShortId(t);
    AcceptedAfterScheme(sc, "youtu.be/", t);
  }

  lemma NoRouteForMobilePlaylist(t: string)
    ensures !AnyRoute("m.youtube.com/playlist?list=" + t)
  {
    var m := "m.youtube.com/playlist?list=";
    var r := m + t;
    assert r[0] == m[0] && r[14] == m[14];
    forall i | 0 <= i < |Routes| ensures !HeadThen(Routes[i].host, Routes[i].tail, r) {
      DiffersAt(Routes[i].host, Routes[i].tail, r, if i == 2 then 14 else 0);
    }
  }

  /** `m.` is not accepted in front of the playlist path:
      `https://m.youtube.com/playlist?list=X` is rejected. */
  lemma RejectsMobilePlaylist(sc: string, t: string)
    requires sc == Http || sc == Https
    ensures !IsValid(sc + "m.youtube.com/playlist?list=" + t)
  {
    NoRouteForMobilePlaylist(t);
    AcceptedAfterScheme(sc, "m.youtube.com/playlist?list=", t);
  }
}
