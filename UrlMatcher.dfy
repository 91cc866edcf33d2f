/** The video-link pattern of `reddit_retrieve_submissions` (main.py:33), applied with
    `re.match` and read from group 5 (main.py:45-47), as a hand-made matcher that
    tries the alternatives in the order Python's backtracking engine does:

      ^((?:https?:)?//)?((?:www|m)\.)?((?:youtube\.com|youtu.be))(/(?:[\w\-]+\?v=|embed/|v/)?)([\w\-]+)(\S+)?$

    Each stage takes the text that is left and returns the captures of the stages
    from it to the end, or None when no way through them reaches `$`. An earlier
    alternative is kept whenever it leads to a match; a greedy run is tried from its
    longest length down. */
module UrlMatcher {
  import opened Wrappers
  import opened Text

  /** The groups of a match: scheme is group 1, subdomain group 2, host group 3,
      path group 4 and id group 5. rest is group 6 together with the newline that
      `$` may leave unconsumed. A group that did not take part is the empty string. */
  datatype Captures = Captures(scheme: string, subdomain: string, host: string,
                               path: string, id: string, rest: string)

  const NoCaptures := Captures("", "", "", "", "", "")

  // ---------------------------------------------------------------------------
  // What each group may match, stated directly.
  // ---------------------------------------------------------------------------

  /** `((?:https?:)?//)?` */
  predicate IsScheme(p: string) {
    p == "https://" || p == "http://" || p == "//" || p == ""
  }

  /** `((?:www|m)\.)?` */
  predicate IsSubdomain(p: string) {
    p == "www." || p == "m." || p == ""
  }

  /** `youtu.be`: the dot is not escaped, so any character but a newline fits. */
  predicate IsShortHost(h: string) {
    |h| == 8 && h[..5] == "youtu" && h[5] != '\n' && h[6..] == "be"
  }

  /** `(?:youtube\.com|youtu.be)` */
  predicate IsHost(h: string) {
    h == "youtube.com" || IsShortHost(h)
  }

  /** `/[\w\-]+\?v=` */
  predicate IsWatchPath(p: string) {
    |p| >= 5 && p[0] == '/' && p[|p| - 3..] == "?v=" && AllIdChars(p[1..|p| - 3])
  }

  /** `(/(?:[\w\-]+\?v=|embed/|v/)?)` */
  predicate IsPath(p: string) {
    p == "/" || p == "/embed/" || p == "/v/" || IsWatchPath(p)
  }

  /** `([\w\-]+)` */
  predicate IsId(s: string) {
    |s| > 0 && AllIdChars(s)
  }

  /** `(\S+)?$`: no whitespace, except one newline that ends the string. */
  predicate IsRest(t: string) {
    NoSpace(t) || (|t| > 0 && t[|t| - 1] == '\n' && NoSpace(t[..|t| - 1]))
  }

  /** The identifier run stops where the rest begins. */
  predicate EndsRun(t: string) {
    t == [] || !IsIdChar(t[0])
  }

  predicate Wellformed(c: Captures) {
    IsScheme(c.scheme) && IsSubdomain(c.subdomain) && IsHost(c.host) &&
    IsPath(c.path) && IsId(c.id) && IsRest(c.rest)
  }

  function Joined(c: Captures): string {
    c.scheme + c.subdomain + c.host + c.path + c.id + c.rest
  }

  // ---------------------------------------------------------------------------
  // The matcher.
  // ---------------------------------------------------------------------------

  /** `$` without MULTILINE: the end of the string, or just before a final newline. */
  predicate AtEnd(u: string) {
    u == "" || u == "\n"
  }

  /** `(\S+)?$` with `\S+` taking k characters, then fewer, then none. */
  predicate RestFrom(t: string, k: nat)
    requires k <= NonSpaceRun(t)
    decreases k
  {
    AtEnd(t[k..]) || (k > 0 && RestFrom(t, k - 1))
  }

  predicate RestMatches(t: string) {
    RestFrom(t, NonSpaceRun(t))
  }

  /** Group 5 taking k characters of its run, then fewer, each followed by group 6. */
  function IdFrom(s: string, k: nat): Option<Captures>
    requires k <= IdRun(s)
    decreases k
  {
    if k == 0 then None
    else if RestMatches(s[k..]) then Some(NoCaptures.(id := s[..k], rest := s[k..]))
    else IdFrom(s, k - 1)
  }

  /** Groups 5 and 6 and `$`. */
  function MatchId(s: string): Option<Captures> {
    IdFrom(s, IdRun(s))
  }

  /** Ordered choice: the second alternative is tried only when the first fails. */
  function FirstOf(a: Option<Captures>, b: Option<Captures>): Option<Captures> {
    if a.Some? then a else b
  }

  function WithPath(p: string, m: Option<Captures>): Option<Captures> {
    if m.Some? then Some(m.value.(path := p)) else None
  }

  function WithHost(h: string, m: Option<Captures>): Option<Captures> {
    if m.Some? then Some(m.value.(host := h)) else None
  }

  function WithSubdomain(p: string, m: Option<Captures>): Option<Captures> {
    if m.Some? then Some(m.value.(subdomain := p)) else None
  }

  function WithScheme(p: string, m: Option<Captures>): Option<Captures> {
    if m.Some? then Some(m.value.(scheme := p)) else None
  }

  /** The first alternative of group 4, `[\w\-]+\?v=`, on the text u after the slash,
      its run taking k characters, then fewer. */
  function WatchFrom(u: string, k: nat): Option<Captures>
    requires k <= IdRun(u)
    decreases k
  {
    if k == 0 then None
    else if StartsWith(u[k..], "?v=") && MatchId(u[k + 3..]).Some? then
      WithPath("/" + u[..k + 3], MatchId(u[k + 3..]))
    else WatchFrom(u, k - 1)
  }

  /** A literal alternative of group 4 (`embed/`, `v/`, or the empty choice) on the
      text u after the slash. */
  function PathAlt(lit: string, u: string): Option<Captures> {
    if StartsWith(u, lit) then WithPath("/" + lit, MatchId(u[|lit|..])) else None
  }

  /** Group 4 and what follows: the slash, then `[\w\-]+\?v=`, `embed/`, `v/` or
      nothing, in that order. */
  function MatchPath(s: string): Option<Captures> {
    if s == [] || s[0] != '/' then None
    else
      var u := s[1..];
      FirstOf(WatchFrom(u, IdRun(u)),
        FirstOf(PathAlt("embed/", u), FirstOf(PathAlt("v/", u), PathAlt("", u))))
  }

  /** `youtube\.com` followed by the rest of the pattern. */
  function DotComAlt(s: string): Option<Captures> {
    if StartsWith(s, "youtube.com") then WithHost("youtube.com", MatchPath(s[11..])) else None
  }

  /** `youtu.be` followed by the rest of the pattern. */
  function ShortHostAlt(s: string): Option<Captures> {
    if |s| >= 8 && IsShortHost(s[..8]) then WithHost(s[..8], MatchPath(s[8..])) else None
  }

  /** Group 3 and what follows: `youtube\.com`, then `youtu.be`. */
  function MatchHost(s: string): Option<Captures> {
    FirstOf(DotComAlt(s), ShortHostAlt(s))
  }

  /** One choice for group 2 (`www.`, `m.`, or the group skipped) and what follows. */
  function SubdomainAlt(p: string, s: string): Option<Captures> {
    if StartsWith(s, p) then WithSubdomain(p, MatchHost(s[|p|..])) else None
  }

  /** Group 2 and what follows: `www.`, then `m.`, then the group skipped. */
  function MatchSubdomain(s: string): Option<Captures> {
    FirstOf(SubdomainAlt("www.", s), FirstOf(SubdomainAlt("m.", s), SubdomainAlt("", s)))
  }

  /** One choice for group 1 (`https://`, `http://`, `//`, or the group skipped) and
      what follows. */
  function SchemeAlt(p: string, s: string): Option<Captures> {
    if StartsWith(s, p) then WithScheme(p, MatchSubdomain(s[|p|..])) else None
  }

  /** Group 1 and what follows: `https://`, `http://`, `//`, then the group skipped. */
  function MatchScheme(s: string): Option<Captures> {
    FirstOf(SchemeAlt("https://", s),
      FirstOf(SchemeAlt("http://", s), FirstOf(SchemeAlt("//", s), SchemeAlt("", s))))
  }

  /** `re.match` of the whole pattern. Every match splits the link into its groups,
      each of the shape the pattern allows, and group 5 is a maximal `[\w\-]` run. */
  function MatchUrl(s: string): (r: Option<Captures>)
    ensures r.Some? ==> Wellformed(r.value) && Joined(r.value) == s && EndsRun(r.value.rest)
  {
    SchemeAltsSound(s);
    MatchScheme(s)
  }

  /** `match.group(5)` when the link matches (main.py:45-47): a non-empty run of
      `[\w\-]` copied out of the link, case unchanged. */
  function ExtractVideoId(url: string): (r: Option<string>)
    ensures r.Some? ==> IsId(r.value) && Contains(url, r.value)
  {
    match MatchUrl(url)
    case None => None
    case Some(c) =>
      var pre := c.scheme + c.subdomain + c.host + c.path;
      assert url == pre + c.id + c.rest;
      assert url[|pre|..|pre| + |c.id|] == c.id;
      assert OccursAt(url, c.id, |pre|);
      Some(c.id)
  }

  // ---------------------------------------------------------------------------
  // The greedy runs: the backtracking choices above reduce to closed forms.
  // ---------------------------------------------------------------------------

  lemma {:induction false} IdRunOfConcat(a: string, b: string)
    requires AllIdChars(a)
    ensures IdRun(a + b) == |a| + IdRun(b)
  {
    if a != [] {
      assert (a + b)[0] == a[0] && IsIdChar(a[0]);
      assert (a + b)[1..] == a[1..] + b;
      IdRunOfConcat(a[1..], b);
    } else {
      assert a + b == b;
    }
  }

  /** Giving back characters of `\S+` never reaches `$`: they are not whitespace. */
  lemma {:induction false} RestFromBelowRun(t: string, k: nat)
    requires k < NonSpaceRun(t)
    ensures !RestFrom(t, k)
  {
    assert t[..NonSpaceRun(t)][k] == t[k] == t[k..][0];
    if k > 0 {
      RestFromBelowRun(t, k - 1);
    }
  }

  lemma RestMatchesIff(t: string)
    ensures RestMatches(t) <==> IsRest(t)
  {
    var n := NonSpaceRun(t);
    if n > 0 {
      RestFromBelowRun(t, n - 1);
    }
    if AtEnd(t[n..]) {
      if t[n..] == [] {
        assert t == t[..n];
      } else {
        assert t[..|t| - 1] == t[..n];
      }
    }
    if IsRest(t) {
      if NoSpace(t) {
        assert t[..|t|] == t;
        NonSpaceRunIs(t, |t|);
      } else {
        NonSpaceRunIs(t, |t| - 1);
        assert t[|t| - 1..] == "\n";
      }
    }
  }

  lemma RestSuffix(t: string, j: nat)
    requires IsRest(t) && j <= |t|
    ensures IsRest(t[j..])
  {
    if !NoSpace(t) {
      if j < |t| {
        assert t[j..][..|t| - j - 1] == t[..|t| - 1][j..];
      } else {
        assert t[j..] == [];
      }
    }
  }

  /** If group 6 fits after some shorter id, it fits after the whole run. */
  lemma RestAfterRun(s: string, k: nat)
    requires k <= IdRun(s) && IsRest(s[k..])
    ensures IsRest(s[IdRun(s)..])
  {
    assert s[k..][IdRun(s) - k..] == s[IdRun(s)..];
    RestSuffix(s[k..], IdRun(s) - k);
  }

  lemma {:induction false} IdFromFails(s: string, k: nat)
    requires k <= IdRun(s) && !IsRest(s[IdRun(s)..])
    ensures IdFrom(s, k) == None
  {
    if k > 0 {
      RestMatchesIff(s[k..]);
      if IsRest(s[k..]) {
        RestAfterRun(s, k);
      }
      IdFromFails(s, k - 1);
    }
  }

  /** Group 5 is the whole `[\w\-]` run, or the match fails. */
  lemma MatchIdIs(s: string)
    ensures MatchId(s) ==
      var n := IdRun(s);
      if n > 0 && IsRest(s[n..]) then Some(NoCaptures.(id := s[..n], rest := s[n..])) else None
  {
    var n := IdRun(s);
    if n > 0 {
      RestMatchesIff(s[n..]);
      if !IsRest(s[n..]) {
        IdFromFails(s, n - 1);
      }
    }
  }

  lemma MatchIdSound(s: string, c: Captures)
    requires MatchId(s) == Some(c)
    ensures s == c.id + c.rest && IsId(c.id) && IsRest(c.rest) && EndsRun(c.rest)
  {
    MatchIdIs(s);
    var n := IdRun(s);
    assert n < |s| ==> s[n..][0] == s[n];
  }

  lemma MatchIdOn(id: string, rest: string)
    requires IsId(id) && IsRest(rest) && EndsRun(rest)
    ensures MatchId(id + rest) == Some(NoCaptures.(id := id, rest := rest))
  {
    var s := id + rest;
    IdRunOfConcat(id, rest);
    assert s[..|id|] == id && s[|id|..] == rest;
    MatchIdIs(s);
  }

  lemma MatchIdSucceeds(id: string, rest: string)
    requires IsId(id) && IsRest(rest)
    ensures MatchId(id + rest).Some?
  {
    var s := id + rest;
    IdRunOfConcat(id, rest);
    var n := IdRun(s);
    assert s[n..] == rest[n - |id|..];
    RestSuffix(rest, n - |id|);
    MatchIdIs(s);
  }

  /** A shorter run of `[\w\-]+\?v=` is followed by an id character, not by `?`. */
  lemma {:induction false} WatchFromBelowRun(u: string, k: nat)
    requires k < IdRun(u)
    ensures WatchFrom(u, k) == None
  {
    if k > 0 {
      var n := IdRun(u);
      assert IsIdChar(u[..n][k]) && u[..n][k] == u[k];
      assert |u[k..]| >= 3 ==> u[k..][..3][0] == u[k];
      assert !StartsWith(u[k..], "?v=");
      WatchFromBelowRun(u, k - 1);
    }
  }

  lemma WatchFromIs(u: string)
    ensures WatchFrom(u, IdRun(u)) ==
      var n := IdRun(u);
      if n > 0 && StartsWith(u[n..], "?v=") then WithPath("/" + u[..n + 3], MatchId(u[n + 3..])) else None
  {
    var n := IdRun(u);
    if n > 0 {
      WatchFromBelowRun(u, n - 1);
    }
  }

  /** A maximal run of id characters that is followed by `w/` is `w` itself. */
  lemma RunThenSlash(id: string, rest: string, w: string)
    requires IsId(id) && EndsRun(rest) && AllIdChars(w)
    requires StartsWith(id + rest, w + "/")
    ensures id == w && StartsWith(rest, "/")
  {
    var s := id + rest;
    var x := s[|w| + 1..];
    assert s == w + ("/" + x);
    IdRunOfConcat(w, "/" + x);
    IdRunOfConcat(id, rest);
    assert id == s[..|id|];
  }

  // ---------------------------------------------------------------------------
  // Soundness: a match splits the link into groups of the right shapes.
  // ---------------------------------------------------------------------------

  /** The path stage's share of a match. */
  predicate PathPart(s: string, c: Captures) {
    s == c.path + c.id + c.rest && IsPath(c.path) && IsId(c.id) && IsRest(c.rest) && EndsRun(c.rest)
  }

  lemma WatchPathShape(w: string)
    requires IsId(w)
    ensures IsWatchPath("/" + w + "?v=")
  {
    var p := "/" + w + "?v=";
    assert p[1..|p| - 3] == w;
    assert p[|p| - 3..] == "?v=";
  }

  lemma WatchPathOf(u: string, n: nat)
    requires 0 < n == IdRun(u) && StartsWith(u[n..], "?v=")
    ensures IsPath("/" + u[..n + 3])
  {
    var w := u[..n];
    assert u[..n + 3] == w + "?v=";
    WatchPathShape(w);
  }

  lemma WatchJoin(u: string, n: nat, c0: Captures)
    requires n + 3 <= |u|
    requires u[n + 3..] == c0.id + c0.rest
    ensures "/" + u == "/" + u[..n + 3] + c0.id + c0.rest
  {
    var t := u[n + 3..];
    var p := "/" + u[..n + 3];
    calc {
      p + c0.id + c0.rest;
      p + (c0.id + c0.rest);
      p + t;
      "/" + (u[..n + 3] + t);
      { assert u[..n + 3] + t == u; }
      "/" + u;
    }
  }

  /** A watch path, its id and its rest make up the text after the slash. */
  lemma WatchSplit(u: string, n: nat, c0: Captures)
    requires 0 < n == IdRun(u) && StartsWith(u[n..], "?v=")
    requires MatchId(u[n + 3..]) == Some(c0)
    ensures PathPart("/" + u, c0.(path := "/" + u[..n + 3]))
  {
    MatchIdSound(u[n + 3..], c0);
    WatchPathOf(u, n);
    WatchJoin(u, n, c0);
  }

  lemma WatchFromSound(u: string, c: Captures)
    requires WatchFrom(u, IdRun(u)) == Some(c)
    ensures PathPart("/" + u, c)
  {
    WatchFromIs(u);
    var n := IdRun(u);
    WatchSplit(u, n, MatchId(u[n + 3..]).value);
  }

  lemma SlashJoin(lit: string, t: string, id: string, rest: string)
    requires t == id + rest
    ensures "/" + (lit + t) == "/" + lit + id + rest
  {
    Assoc3("/", lit, t);
    Assoc3("/" + lit, id, rest);
  }

  lemma PathAltSound(lit: string, u: string, c: Captures)
    requires lit == "embed/" || lit == "v/" || lit == ""
    requires PathAlt(lit, u) == Some(c)
    ensures PathPart("/" + u, c)
  {
    var t := u[|lit|..];
    var c0 := MatchId(t).value;
    assert c == c0.(path := "/" + lit) && u == lit + t;
    assert IsPath(c.path) by {
      assert c.path == "/" + lit;
    }
    assert t == c.id + c.rest && IsId(c.id) && IsRest(c.rest) && EndsRun(c.rest) by {
      MatchIdSound(t, c0);
    }
    assert "/" + u == c.path + c.id + c.rest by {
      SlashJoin(lit, t, c.id, c.rest);
    }
  }

  lemma MatchPathSound(s: string, c: Captures)
    requires MatchPath(s) == Some(c)
    ensures PathPart(s, c)
  {
    var u := s[1..];
    assert s == "/" + u;
    if WatchFrom(u, IdRun(u)).Some? {
      WatchFromSound(u, c);
    } else if PathAlt("embed/", u).Some? {
      PathAltSound("embed/", u, c);
    } else if PathAlt("v/", u).Some? {
      PathAltSound("v/", u, c);
    } else {
      PathAltSound("", u, c);
    }
  }

  /** The host stage's share of a match. */
  predicate HostPart(s: string, c: Captures) {
    IsHost(c.host) && |c.host| <= |s| && s[..|c.host|] == c.host && PathPart(s[|c.host|..], c)
  }

  lemma MatchHostSound(s: string, c: Captures)
    requires MatchHost(s) == Some(c)
    ensures HostPart(s, c)
  {
    if DotComAlt(s).Some? {
      MatchPathSound(s[11..], MatchPath(s[11..]).value);
    } else {
      MatchPathSound(s[8..], MatchPath(s[8..]).value);
    }
  }

  /** The subdomain stage's share of a match. */
  predicate SubdomainPart(s: string, c: Captures) {
    IsSubdomain(c.subdomain) && |c.subdomain| <= |s| && s[..|c.subdomain|] == c.subdomain &&
    HostPart(s[|c.subdomain|..], c)
  }

  lemma SubdomainAltSound(p: string, s: string, c: Captures)
    requires IsSubdomain(p) && SubdomainAlt(p, s) == Some(c)
    ensures SubdomainPart(s, c)
  {
    MatchHostSound(s[|p|..], MatchHost(s[|p|..]).value);
  }

  lemma MatchSubdomainSound(s: string, c: Captures)
    requires MatchSubdomain(s) == Some(c)
    ensures SubdomainPart(s, c)
  {
    if SubdomainAlt("www.", s).Some? {
      SubdomainAltSound("www.", s, c);
    } else if SubdomainAlt("m.", s).Some? {
      SubdomainAltSound("m.", s, c);
    } else {
      SubdomainAltSound("", s, c);
    }
  }

  /** The scheme stage's share of a match. */
  predicate SchemePart(s: string, c: Captures) {
    IsScheme(c.scheme) && |c.scheme| <= |s| && s[..|c.scheme|] == c.scheme &&
    SubdomainPart(s[|c.scheme|..], c)
  }

  lemma SchemeAltSound(p: string, s: string, c: Captures)
    requires IsScheme(p) && SchemeAlt(p, s) == Some(c)
    ensures SchemePart(s, c)
  {
    MatchSubdomainSound(s[|p|..], MatchSubdomain(s[|p|..]).value);
  }

  /** A string that starts with `p` is `p` followed by the rest. */
  lemma PrefixSplit(s: string, p: string)
    requires |p| <= |s| && s[..|p|] == p
    ensures s == p + s[|p|..]
  {
  }

  /** The four stage predicates put together say the groups concatenate to the link. */
  lemma PartsJoin(s: string, c: Captures)
    requires SchemePart(s, c)
    ensures Wellformed(c) && Joined(c) == s && EndsRun(c.rest)
  {
    var s1 := s[|c.scheme|..];
    var s2 := s1[|c.subdomain|..];
    var t := c.path + c.id + c.rest;
    PrefixSplit(s, c.scheme);
    PrefixSplit(s1, c.subdomain);
    PrefixSplit(s2, c.host);
    assert s == c.scheme + (c.subdomain + (c.host + t));
    var x := c.scheme + c.subdomain + c.host;
    Assoc4(x, c.path, c.id, c.rest);
    Assoc3(c.scheme + c.subdomain, c.host, t);
    Assoc3(c.scheme, c.subdomain, c.host + t);
  }

  /** A match of the whole link. */
  predicate Splits(s: string, c: Captures) {
    Wellformed(c) && Joined(c) == s && EndsRun(c.rest)
  }

  /** Each way of taking group 1 that matches splits the link into its groups. */
  lemma SchemeAltsSound(s: string)
    ensures SchemeAlt("https://", s).Some? ==> Splits(s, SchemeAlt("https://", s).value)
    ensures SchemeAlt("http://", s).Some? ==> Splits(s, SchemeAlt("http://", s).value)
    ensures SchemeAlt("//", s).Some? ==> Splits(s, SchemeAlt("//", s).value)
    ensures SchemeAlt("", s).Some? ==> Splits(s, SchemeAlt("", s).value)
  {
    if SchemeAlt("https://", s).Some? {
      SchemeAltSound("https://", s, SchemeAlt("https://", s).value);
      PartsJoin(s, SchemeAlt("https://", s).value);
    }
    if SchemeAlt("http://", s).Some? {
      SchemeAltSound("http://", s, SchemeAlt("http://", s).value);
      PartsJoin(s, SchemeAlt("http://", s).value);
    }
    if SchemeAlt("//", s).Some? {
      SchemeAltSound("//", s, SchemeAlt("//", s).value);
      PartsJoin(s, SchemeAlt("//", s).value);
    }
    if SchemeAlt("", s).Some? {
      SchemeAltSound("", s, SchemeAlt("", s).value);
      PartsJoin(s, SchemeAlt("", s).value);
    }
  }
}
