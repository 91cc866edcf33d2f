/** What the link pattern of main.py:33 accepts and which identifier it reads out of
    each recognised link form. */
module UrlForms {
  import opened Wrappers
  import opened Text
  import opened UrlMatcher

  lemma RestPrefixed(a: string, t: string)
    requires NoSpace(a) && IsRest(t)
    ensures IsRest(a + t)
  {
    if !NoSpace(t) {
      assert (a + t)[..|a + t| - 1] == a + t[..|t| - 1];
    }
  }

  // ---------------------------------------------------------------------------
  // The alternatives of group 4, one at a time.
  // ---------------------------------------------------------------------------

  lemma MatchPathOf(u: string)
    ensures MatchPath("/" + u) ==
      FirstOf(WatchFrom(u, IdRun(u)), FirstOf(PathAlt("embed/", u), FirstOf(PathAlt("v/", u), PathAlt("", u))))
  {
    assert ("/" + u)[1..] == u;
  }

  /** Group 4 matches as soon as one of its alternatives does. */
  lemma PathSomeBy(lit: string, u: string)
    requires lit == "embed/" || lit == "v/" || lit == ""
    requires PathAlt(lit, u).Some?
    ensures MatchPath("/" + u).Some?
  {
    MatchPathOf(u);
  }

  /** The value of group 4 when the watch alternative succeeds. */
  lemma PathByWatch(u: string, c: Captures)
    requires WatchFrom(u, IdRun(u)) == Some(c)
    ensures MatchPath("/" + u) == Some(c)
  {
    MatchPathOf(u);
  }

  /** The value of group 4 when the alternatives before `lit` fail and `lit` succeeds. */
  lemma PathByLiteral(lit: string, u: string, c: Captures)
    requires lit == "embed/" || lit == "v/" || lit == ""
    requires WatchFrom(u, IdRun(u)) == None && PathAlt(lit, u) == Some(c)
    requires lit != "embed/" ==> PathAlt("embed/", u) == None
    requires lit == "" ==> PathAlt("v/", u) == None
    ensures MatchPath("/" + u) == Some(c)
  {
    MatchPathOf(u);
  }

  lemma RunBefore(w: string, after: string)
    requires AllIdChars(w) && EndsRun(after)
    ensures IdRun(w + after) == |w|
  {
    IdRunOfConcat(w, after);
  }

  lemma WatchFromAt(u: string, w: string, t: string)
    requires 0 < |w| == IdRun(u) && u == w + "?v=" + t
    ensures WatchFrom(u, |w|) == WithPath("/" + w + "?v=", MatchId(t))
  {
    var n := |w|;
    assert u[n..] == "?v=" + t;
    assert u[n + 3..] == t;
    assert u[..n + 3] == w + "?v=";
    Assoc3("/", w, "?v=");
    WatchFromIs(u);
  }

  /** After a run followed by `?v=`, the watch alternative reads the id after it. */
  lemma WatchTakesV(u: string, w: string, t: string)
    requires IsId(w) && u == w + "?v=" + t
    ensures WatchFrom(u, IdRun(u)) == WithPath("/" + w + "?v=", MatchId(t))
  {
    Assoc3(w, "?v=", t);
    RunBefore(w, "?v=" + t);
    WatchFromAt(u, w, t);
  }

  /** A run not followed by `?v=` rules the watch alternative out. */
  lemma WatchSkips(u: string, w: string, after: string)
    requires AllIdChars(w) && EndsRun(after) && u == w + after && !StartsWith(after, "?v=")
    ensures WatchFrom(u, IdRun(u)) == None
  {
    RunBefore(w, after);
    assert u[|w|..] == after;
    WatchFromIs(u);
  }

  lemma PathAltOn(lit: string, t: string)
    ensures PathAlt(lit, lit + t) == WithPath("/" + lit, MatchId(t))
  {
    assert (lit + t)[..|lit|] == lit && (lit + t)[|lit|..] == t;
  }

  /** Neither `embed/` nor `v/` begins a text whose id run is not `embed` or `v`
      followed by a slash. */
  lemma LiteralAltsFail(u: string, w: string, after: string)
    requires IsId(w) && EndsRun(after) && u == w + after
    requires !(StartsWith(after, "/") && (w == "embed" || w == "v"))
    ensures PathAlt("embed/", u) == None && PathAlt("v/", u) == None
  {
    assert "embed" + "/" == "embed/" && "v" + "/" == "v/";
    if StartsWith(u, "embed/") {
      RunThenSlash(w, after, "embed");
    }
    if StartsWith(u, "v/") {
      RunThenSlash(w, after, "v");
    }
  }

  // ---------------------------------------------------------------------------
  // Completeness of group 4: every path of the pattern's shape matches.
  // ---------------------------------------------------------------------------

  lemma BareSucceeds(id: string, rest: string)
    requires IsId(id) && IsRest(rest)
    ensures MatchPath("/" + id + rest).Some?
  {
    Assoc3("/", id, rest);
    PathAltOn("", id + rest);
    assert "" + (id + rest) == id + rest;
    MatchIdSucceeds(id, rest);
    PathSomeBy("", id + rest);
  }

  lemma LiteralPathSucceeds(lit: string, id: string, rest: string)
    requires lit == "embed/" || lit == "v/"
    requires IsId(id) && IsRest(rest)
    ensures MatchPath("/" + lit + id + rest).Some?
  {
    Assoc4("/", lit, id, rest);
    Assoc3(lit, id, rest);
    PathAltOn(lit, id + rest);
    MatchIdSucceeds(id, rest);
    PathSomeBy(lit, lit + (id + rest));
  }

  lemma WatchSucceeds(w: string, id: string, rest: string)
    requires IsId(w) && IsId(id) && IsRest(rest)
    ensures MatchPath("/" + w + "?v=" + id + rest).Some?
  {
    var u := w + "?v=" + (id + rest);
    Assoc5("/", w, "?v=", id, rest);
    Assoc3(w + "?v=", id, rest);
    WatchTakesV(u, w, id + rest);
    MatchIdSucceeds(id, rest);
    PathByWatch(u, WatchFrom(u, IdRun(u)).value);
  }

  lemma PathSucceeds(p: string, id: string, rest: string)
    requires IsPath(p) && IsId(id) && IsRest(rest)
    ensures MatchPath(p + id + rest).Some?
  {
    if p == "/" {
      BareSucceeds(id, rest);
    } else if p == "/embed/" {
      assert "/" + "embed/" == p;
      LiteralPathSucceeds("embed/", id, rest);
    } else if p == "/v/" {
      assert "/" + "v/" == p;
      LiteralPathSucceeds("v/", id, rest);
    } else {
      var w := p[1..|p| - 3];
      assert p == "/" + w + "?v=";
      WatchSucceeds(w, id, rest);
    }
  }

  // ---------------------------------------------------------------------------
  // The alternatives of groups 1 to 3 exclude one another, so the text after the
  // host alone decides the match.
  // ---------------------------------------------------------------------------

  lemma DotComDetermines(s: string)
    ensures MatchHost("youtube.com" + s) == WithHost("youtube.com", MatchPath(s))
  {
    var x := "youtube.com" + s;
    assert x[..11] == "youtube.com" && x[11..] == s;
    assert x[..8][6] == 'e';
  }

  lemma ShortHostDetermines(h: string, s: string)
    requires IsShortHost(h)
    ensures MatchHost(h + s) == WithHost(h, MatchPath(s))
  {
    var x := h + s;
    assert x[..8] == h && x[8..] == s;
    assert |x| >= 11 ==> x[..11][6] == 'b';
  }

  lemma HostDetermines(h: string, s: string)
    requires IsHost(h)
    ensures MatchHost(h + s) == WithHost(h, MatchPath(s))
  {
    if h == "youtube.com" {
      DotComDetermines(s);
    } else {
      ShortHostDetermines(h, s);
    }
  }

  /** Group 3 always begins with `y`. */
  lemma HostNeedsY(x: string)
    requires x == [] || x[0] != 'y'
    ensures MatchHost(x) == None
  {
    if |x| >= 11 {
      assert x[..11][0] == x[0];
    }
    if |x| >= 8 {
      assert x[..8][..5][0] == x[0];
    }
  }

  /** Groups 2 and 3 together begin with `w`, `m` or `y`. */
  lemma SubdomainNeedsLetter(x: string)
    requires x == [] || (x[0] != 'w' && x[0] != 'm' && x[0] != 'y')
    ensures MatchSubdomain(x) == None
  {
    if |x| >= 4 {
      assert x[..4][0] == x[0];
    }
    if |x| >= 2 {
      assert x[..2][0] == x[0];
    }
    HostNeedsY(x);
  }

  lemma WwwDetermines(y: string)
    requires |y| > 0 && y[0] == 'y'
    ensures MatchSubdomain("www." + y) == WithSubdomain("www.", MatchHost(y))
  {
    var x := "www." + y;
    assert x[..4] == "www." && x[4..] == y;
    assert SubdomainAlt("www.", x) == WithSubdomain("www.", MatchHost(y));
    assert x[..2][0] == 'w';
    assert SubdomainAlt("m.", x) == None;
    assert x[..0] == "" && x[0..] == x;
    HostNeedsY(x);
    assert SubdomainAlt("", x) == None;
  }

  lemma MobileDetermines(y: string)
    requires |y| > 0 && y[0] == 'y'
    ensures MatchSubdomain("m." + y) == WithSubdomain("m.", MatchHost(y))
  {
    var x := "m." + y;
    assert x[..2] == "m." && x[2..] == y;
    assert |x| >= 4 ==> x[..4][0] == 'm';
    assert SubdomainAlt("www.", x) == None;
    assert SubdomainAlt("m.", x) == WithSubdomain("m.", MatchHost(y));
    assert x[..0] == "" && x[0..] == x;
    HostNeedsY(x);
    assert SubdomainAlt("", x) == None;
  }

  lemma NoSubdomainDetermines(y: string)
    requires |y| > 0 && y[0] == 'y'
    ensures MatchSubdomain(y) == WithSubdomain("", MatchHost(y))
  {
    assert |y| >= 4 ==> y[..4][0] == 'y';
    assert |y| >= 2 ==> y[..2][0] == 'y';
    assert SubdomainAlt("www.", y) == None;
    assert SubdomainAlt("m.", y) == None;
    assert y[..0] == "" && y[0..] == y;
    assert SubdomainAlt("", y) == WithSubdomain("", MatchHost(y));
  }

  lemma SubdomainDetermines(sd: string, y: string)
    requires IsSubdomain(sd) && |y| > 0 && y[0] == 'y'
    ensures MatchSubdomain(sd + y) == WithSubdomain(sd, MatchHost(y))
  {
    if sd == "www." {
      WwwDetermines(y);
    } else if sd == "m." {
      MobileDetermines(y);
    } else {
      assert sd + y == y;
      NoSubdomainDetermines(y);
    }
  }

  lemma SecureSchemeDetermines(y: string)
    requires |y| > 0 && (y[0] == 'w' || y[0] == 'm' || y[0] == 'y')
    ensures MatchScheme("https://" + y) == WithScheme("https://", MatchSubdomain(y))
  {
    var x := "https://" + y;
    assert x[..8] == "https://" && x[8..] == y;
    assert SchemeAlt("https://", x) == WithScheme("https://", MatchSubdomain(y));
    assert x[..7][4] == 's';
    assert SchemeAlt("http://", x) == None;
    assert x[..2][0] == 'h';
    assert SchemeAlt("//", x) == None;
    SubdomainNeedsLetter(x);
    assert x[..0] == "" && x[0..] == x;
    assert SchemeAlt("", x) == None;
  }

  lemma PlainSchemeDetermines(y: string)
    requires |y| > 0 && (y[0] == 'w' || y[0] == 'm' || y[0] == 'y')
    ensures MatchScheme("http://" + y) == WithScheme("http://", MatchSubdomain(y))
  {
    var x := "http://" + y;
    assert x[..7] == "http://" && x[7..] == y;
    assert x[..8][4] == ':';
    assert SchemeAlt("https://", x) == None;
    assert SchemeAlt("http://", x) == WithScheme("http://", MatchSubdomain(y));
    assert x[..2][0] == 'h';
    assert SchemeAlt("//", x) == None;
    SubdomainNeedsLetter(x);
    assert x[..0] == "" && x[0..] == x;
    assert SchemeAlt("", x) == None;
  }

  lemma SlashesDetermines(y: string)
    requires |y| > 0 && (y[0] == 'w' || y[0] == 'm' || y[0] == 'y')
    ensures MatchScheme("//" + y) == WithScheme("//", MatchSubdomain(y))
  {
    var x := "//" + y;
    assert x[..2] == "//" && x[2..] == y;
    assert |x| >= 8 ==> x[..8][0] == '/';
    assert |x| >= 7 ==> x[..7][0] == '/';
    assert SchemeAlt("https://", x) == None;
    assert SchemeAlt("http://", x) == None;
    assert SchemeAlt("//", x) == WithScheme("//", MatchSubdomain(y));
    SubdomainNeedsLetter(x);
    assert x[..0] == "" && x[0..] == x;
    assert SchemeAlt("", x) == None;
  }

  lemma NoSchemeDetermines(y: string)
    requires |y| > 0 && (y[0] == 'w' || y[0] == 'm' || y[0] == 'y')
    ensures MatchScheme(y) == WithScheme("", MatchSubdomain(y))
  {
    assert |y| >= 8 ==> y[..8][0] == y[0];
    assert |y| >= 7 ==> y[..7][0] == y[0];
    assert |y| >= 2 ==> y[..2][0] == y[0];
    assert SchemeAlt("https://", y) == None;
    assert SchemeAlt("http://", y) == None;
    assert SchemeAlt("//", y) == None;
    assert y[..0] == "" && y[0..] == y;
    assert SchemeAlt("", y) == WithScheme("", MatchSubdomain(y));
  }

  lemma SchemeDetermines(sc: string, y: string)
    requires IsScheme(sc) && |y| > 0 && (y[0] == 'w' || y[0] == 'm' || y[0] == 'y')
    ensures MatchScheme(sc + y) == WithScheme(sc, MatchSubdomain(y))
  {
    if sc == "https://" {
      SecureSchemeDetermines(y);
    } else if sc == "http://" {
      PlainSchemeDetermines(y);
    } else if sc == "//" {
      SlashesDetermines(y);
    } else {
      assert sc + y == y;
      NoSchemeDetermines(y);
    }
  }

  /** Whatever scheme, subdomain and host a link starts with, the match and its
      group 5 are decided by the text after the host. */
  lemma PrefixDetermines(sc: string, sd: string, h: string, s: string)
    requires IsScheme(sc) && IsSubdomain(sd) && IsHost(h)
    ensures MatchUrl(sc + sd + h + s) == WithScheme(sc, WithSubdomain(sd, WithHost(h, MatchPath(s))))
  {
    var y := h + s;
    assert y[0] == h[0] == 'y';
    HostDetermines(h, s);
    SubdomainDetermines(sd, y);
    var z := sd + y;
    assert z[0] == 'w' || z[0] == 'm' || z[0] == 'y';
    SchemeDetermines(sc, z);
    assert MatchUrl(sc + z) == MatchScheme(sc + z);
    Assoc4(sc, sd, h, s);
    Assoc3(sd, h, s);
  }

  /** A link yields an identifier exactly when it splits into the pattern's groups:
      an optional `http:`/`https:` with `//` or a bare `//`, an optional `www.` or
      `m.`, `youtube.com` or `youtu` + one character + `be`, a path, an id run, and a
      rest without whitespace. Links of any other shape add nothing. */
  lemma YieldsIdIffWellformed(url: string)
    ensures ExtractVideoId(url).Some? <==> exists c :: Wellformed(c) && Joined(c) == url
  {
    if exists c :: Wellformed(c) && Joined(c) == url {
      var c :| Wellformed(c) && Joined(c) == url;
      var t := c.path + c.id + c.rest;
      PrefixDetermines(c.scheme, c.subdomain, c.host, t);
      PathSucceeds(c.path, c.id, c.rest);
      Assoc4(c.scheme + c.subdomain + c.host, c.path, c.id, c.rest);
    }
  }

  lemma NoSpaceJoin(a: string, b: string)
    requires NoSpace(a) && NoSpace(b)
    ensures NoSpace(a + b)
  {
    assert forall k :: 0 <= k < |a + b| ==> (a + b)[k] == (if k < |a| then a[k] else b[k - |a|]);
  }

  lemma PathNoSpace(p: string)
    requires IsPath(p)
    ensures NoSpace(p)
  {
    if IsWatchPath(p) && p != "/" && p != "/embed/" && p != "/v/" {
      var w := p[1..|p| - 3];
      assert p == "/" + w + "?v=";
      assert forall k :: 0 <= k < |w| ==> IsIdChar(w[k]);
      NoSpaceJoin("/", w);
      NoSpaceJoin("/" + w, "?v=");
    }
  }

  /** Groups 4 to 6 contain no whitespace, but for a newline ending the link. */
  lemma PathTextNoSpace(t: string, c: Captures)
    requires PathPart(t, c)
    ensures forall k :: 0 <= k < |t| - 1 ==> !IsSpace(t[k])
  {
    PathNoSpace(c.path);
    NoSpaceJoin(c.path, c.id);
    var head := c.path + c.id;
    if NoSpace(c.rest) {
      NoSpaceJoin(head, c.rest);
    } else {
      var r := c.rest[..|c.rest| - 1];
      NoSpaceJoin(head, r);
      assert c.rest == r + "\n";
      Assoc3(head, r, "\n");
      assert forall k :: 0 <= k < |t| - 1 ==> t[k] == (head + r)[k];
    }
  }

  /** The last character of groups 4 to 6 is whitespace only when it is a newline. */
  lemma PathTextLast(t: string, c: Captures)
    requires PathPart(t, c)
    ensures |t| > 0 && (IsSpace(t[|t| - 1]) ==> t[|t| - 1] == '\n')
  {
    var head := c.path + c.id;
    if c.rest == [] {
      assert t == head;
      assert t[|t| - 1] == c.id[|c.id| - 1];
    } else {
      assert t[|t| - 1] == c.rest[|c.rest| - 1];
    }
  }

  /** Whitespace anywhere after the host, except a newline ending the link, means
      the link yields nothing. */
  lemma WhitespaceYieldsNothing(sc: string, sd: string, h: string, t: string, i: int)
    requires IsScheme(sc) && IsSubdomain(sd) && IsHost(h)
    requires 0 <= i < |t| && IsSpace(t[i]) && (i == |t| - 1 ==> t[i] != '\n')
    ensures ExtractVideoId(sc + sd + h + t) == None
  {
    PrefixDetermines(sc, sd, h, t);
    if MatchPath(t).Some? {
      MatchPathSound(t, MatchPath(t).value);
      PathTextNoSpace(t, MatchPath(t).value);
      PathTextLast(t, MatchPath(t).value);
      assert false;
    }
  }

  // ---------------------------------------------------------------------------
  // The value of group 4 for each link form.
  // ---------------------------------------------------------------------------

  lemma WatchPathIs(w: string, id: string, rest: string)
    requires IsId(w) && IsId(id) && IsRest(rest) && EndsRun(rest)
    ensures MatchPath("/" + w + "?v=" + id + rest) == Some(Captures("", "", "", "/" + w + "?v=", id, rest))
  {
    var u := w + "?v=" + (id + rest);
    Assoc5("/", w, "?v=", id, rest);
    Assoc3(w + "?v=", id, rest);
    WatchTakesV(u, w, id + rest);
    MatchIdOn(id, rest);
    PathByWatch(u, Captures("", "", "", "/" + w + "?v=", id, rest));
  }

  lemma EmbedPathIs(id: string, rest: string)
    requires IsId(id) && IsRest(rest) && EndsRun(rest)
    ensures MatchPath("/embed/" + id + rest) == Some(Captures("", "", "", "/embed/", id, rest))
  {
    var u := "embed/" + (id + rest);
    assert "/embed/" == "/" + "embed/";
    Assoc4("/", "embed/", id, rest);
    Assoc3("embed/", id, rest);
    assert "embed/" + id + rest == "embed" + "/" + id + rest;
    Assoc4("embed", "/", id, rest);
    WatchSkips(u, "embed", "/" + id + rest);
    PathAltOn("embed/", id + rest);
    MatchIdOn(id, rest);
    PathByLiteral("embed/", u, Captures("", "", "", "/embed/", id, rest));
  }

  lemma SlashVPathIs(id: string, rest: string)
    requires IsId(id) && IsRest(rest) && EndsRun(rest)
    ensures MatchPath("/v/" + id + rest) == Some(Captures("", "", "", "/v/", id, rest))
  {
    var t := id + rest;
    var u := "v/" + t;
    SlashVSkipsWatch(t);
    SlashVSkipsEmbed(t);
    SlashVTaken(t);
    MatchIdOn(id, rest);
    assert "/v/" == "/" + "v/";
    Assoc4("/", "v/", id, rest);
    Assoc3("v/", id, rest);
    PathByLiteral("v/", u, Captures("", "", "", "/v/", id, rest));
  }

  /** After `/v/`, the watch form fails, */
  lemma SlashVSkipsWatch(t: string)
    ensures WatchFrom("v/" + t, IdRun("v/" + t)) == None
  {
    var u := "v/" + t;
    assert u == "v" + ("/" + t);
    WatchSkips(u, "v", "/" + t);
  }

  /** `embed/` fails, */
  lemma SlashVSkipsEmbed(t: string)
    ensures PathAlt("embed/", "v/" + t) == None
  {
    var u := "v/" + t;
    assert |u| >= 6 ==> u[..6][0] == 'v';
  }

  /** and `v/` is taken. */
  lemma SlashVTaken(t: string)
    ensures PathAlt("v/", "v/" + t) == WithPath("/v/", MatchId(t))
  {
    PathAltOn("v/", t);
    assert "/" + "v/" == "/v/";
  }

  lemma BarePathIs(id: string, rest: string)
    requires IsId(id) && IsRest(rest) && EndsRun(rest)
    requires !StartsWith(rest, "?v=")
    requires !(StartsWith(rest, "/") && (id == "embed" || id == "v"))
    ensures MatchPath("/" + id + rest) == Some(Captures("", "", "", "/", id, rest))
  {
    var u := id + rest;
    Assoc3("/", id, rest);
    WatchSkips(u, id, rest);
    LiteralAltsFail(u, id, rest);
    PathAltOn("", u);
    assert "" + u == u && "/" + "" == "/";
    MatchIdOn(id, rest);
    PathByLiteral("", u, Captures("", "", "", "/", id, rest));
  }

  /** With nothing usable after `?v=`, the watch alternative fails as a whole. */
  lemma EmptyWatchValueSkips(u: string, w: string, rest: string)
    requires IsId(w) && EndsRun(rest) && u == w + "?v=" + rest
    ensures WatchFrom(u, IdRun(u)) == None
  {
    WatchTakesV(u, w, rest);
    MatchIdIs(rest);
  }

  /** The bare alternative reads the path word, with `?v=` left to group 6. */
  lemma EmptyWatchValueBare(w: string, after: string)
    requires IsId(w) && IsRest(after) && EndsRun(after)
    ensures PathAlt("", w + after) == Some(Captures("", "", "", "/", w, after))
  {
    PathAltOn("", w + after);
    assert "" + (w + after) == w + after && "/" + "" == "/";
    MatchIdOn(w, after);
  }

  lemma EmptyWatchValuePath(w: string, rest: string)
    requires IsId(w) && IsRest(rest) && EndsRun(rest)
    ensures MatchPath("/" + w + "?v=" + rest) == Some(Captures("", "", "", "/", w, "?v=" + rest))
  {
    var after := "?v=" + rest;
    var u := w + after;
    Assoc4("/", w, "?v=", rest);
    Assoc3(w, "?v=", rest);
    EmptyWatchValueSkips(u, w, rest);
    assert after[0] == '?' && !IsIdChar(after[0]);
    assert after[..1] != "/";
    LiteralAltsFail(u, w, after);
    assert NoSpace("?v=");
    RestPrefixed("?v=", rest);
    EmptyWatchValueBare(w, after);
    PathByLiteral("", u, Captures("", "", "", "/", w, after));
  }

  // ---------------------------------------------------------------------------
  // The link forms and the identifier each of them yields.
  // ---------------------------------------------------------------------------

  /** `…/<word>?v=ID…`: the identifier is the run after `?v=`; what follows it, such
      as `&t=10`, does not change it. */
  lemma WatchLinkYieldsId(scheme: string, subdomain: string, host: string, w: string, id: string, rest: string)
    requires IsScheme(scheme) && IsSubdomain(subdomain) && IsHost(host)
    requires IsId(w) && IsId(id) && IsRest(rest) && EndsRun(rest)
    ensures ExtractVideoId(scheme + subdomain + host + "/" + w + "?v=" + id + rest) == Some(id)
  {
    var x := scheme + subdomain + host;
    Assoc6(x, "/", w, "?v=", id, rest);
    PrefixDetermines(scheme, subdomain, host, "/" + w + "?v=" + id + rest);
    WatchPathIs(w, id, rest);
  }

  /** `…/embed/ID…` */
  lemma EmbedLinkYieldsId(scheme: string, subdomain: string, host: string, id: string, rest: string)
    requires IsScheme(scheme) && IsSubdomain(subdomain) && IsHost(host)
    requires IsId(id) && IsRest(rest) && EndsRun(rest)
    ensures ExtractVideoId(scheme + subdomain + host + "/embed/" + id + rest) == Some(id)
  {
    var x := scheme + subdomain + host;
    Assoc4(x, "/embed/", id, rest);
    PrefixDetermines(scheme, subdomain, host, "/embed/" + id + rest);
    EmbedPathIs(id, rest);
  }

  /** `…/v/ID…` */
  lemma SlashVLinkYieldsId(scheme: string, subdomain: string, host: string, id: string, rest: string)
    requires IsScheme(scheme) && IsSubdomain(subdomain) && IsHost(host)
    requires IsId(id) && IsRest(rest) && EndsRun(rest)
    ensures ExtractVideoId(scheme + subdomain + host + "/v/" + id + rest) == Some(id)
  {
    var x := scheme + subdomain + host;
    Assoc4(x, "/v/", id, rest);
    PrefixDetermines(scheme, subdomain, host, "/v/" + id + rest);
    SlashVPathIs(id, rest);
  }

  /** The short link `youtu.be/ID…` (and any other host followed directly by the id):
      the identifier is the run after the slash, unless the link reads as one of the
      three longer forms. */
  lemma ShortLinkYieldsId(scheme: string, subdomain: string, host: string, id: string, rest: string)
    requires IsScheme(scheme) && IsSubdomain(subdomain) && IsHost(host)
    requires IsId(id) && IsRest(rest) && EndsRun(rest)
    requires !StartsWith(rest, "?v=")
    requires !(StartsWith(rest, "/") && (id == "embed" || id == "v"))
    ensures ExtractVideoId(scheme + subdomain + host + "/" + id + rest) == Some(id)
  {
    var x := scheme + subdomain + host;
    Assoc4(x, "/", id, rest);
    PrefixDetermines(scheme, subdomain, host, "/" + id + rest);
    BarePathIs(id, rest);
  }

  /** A watch link whose `v` value is empty still matches: the engine backs out of
      `[\w\-]+\?v=` and takes the path word itself as group 5. */
  lemma EmptyWatchValueYieldsPathWord(scheme: string, subdomain: string, host: string, w: string, rest: string)
    requires IsScheme(scheme) && IsSubdomain(subdomain) && IsHost(host)
    requires IsId(w) && IsRest(rest) && EndsRun(rest)
    ensures ExtractVideoId(scheme + subdomain + host + "/" + w + "?v=" + rest) == Some(w)
  {
    var x := scheme + subdomain + host;
    Assoc5(x, "/", w, "?v=", rest);
    PrefixDetermines(scheme, subdomain, host, "/" + w + "?v=" + rest);
    EmptyWatchValuePath(w, rest);
  }
}
