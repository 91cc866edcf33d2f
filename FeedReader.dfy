/** Reading a subreddit listing and collecting the video identifiers its submission
    links carry (main.py:29-49). */
module FeedReader {
  import opened Wrappers
  import opened Text
  import opened UrlMatcher

  /** The five listings a subreddit offers. */
  datatype Ranking = Hot | New | Top | Controversial | Rising

  /** The ordering names the command line accepts (main.py:23). */
  const SearchOptions: seq<string> := ["hot", "new", "top", "controversial", "rising"]

  /** The conditional chain of main.py:38-42: four names pick their own listing and
      every other value, `hot` included, falls through to the hot listing. */
  function Endpoint(mode: string): (r: Ranking)
    ensures r == Top <==> mode == "top"
    ensures r == New <==> mode == "new"
    ensures r == Controversial <==> mode == "controversial"
    ensures r == Rising <==> mode == "rising"
    ensures r == Hot <==> mode != "top" && mode != "new" && mode != "controversial" && mode != "rising"
  {
    if mode == "top" then Top
    else if mode == "new" then New
    else if mode == "controversial" then Controversial
    else if mode == "rising" then Rising
    else Hot
  }

  /** The command-line name of each listing. */
  function Name(r: Ranking): string {
    match r
    case Hot => "hot"
    case New => "new"
    case Top => "top"
    case Controversial => "controversial"
    case Rising => "rising"
  }

  /** Each accepted option selects a different listing, and together they reach all
      five: the option names and the listings correspond one to one. */
  lemma OptionsSelectOwnEndpoint(r: Ranking)
    ensures Name(r) in SearchOptions && Endpoint(Name(r)) == r
    ensures forall i :: 0 <= i < |SearchOptions| && Endpoint(SearchOptions[i]) == r ==> SearchOptions[i] == Name(r)
  {
  }

  /** The submissions the listing service hands back for `limit` (main.py:38-42): at
      most the first `limit` entries of the chosen listing. */
  function Fetch(listing: Ranking -> seq<string>, mode: string, limit: nat): (s: seq<string>)
    ensures |s| <= limit && |s| <= |listing(Endpoint(mode))|
    ensures s == listing(Endpoint(mode))[..|s|]
    ensures |s| == limit || s == listing(Endpoint(mode))
  {
    var all := listing(Endpoint(mode));
    if |all| <= limit then all else all[..limit]
  }

  /** The identifiers `extract` finds among `urls`: the set the loop of main.py:44-47
      builds, written as a fold over the list. The fold does not depend on how a link
      is matched, so it takes the extractor as a parameter. */
  function Candidates(urls: seq<string>, extract: string -> Option<string>): set<string>
    decreases |urls|
  {
    if urls == [] then {}
    else
      var prev := Candidates(urls[..|urls| - 1], extract);
      match extract(urls[|urls| - 1])
      case Some(id) => prev + {id}
      case None => prev
  }

  /** An identifier is a candidate exactly when some submission link yields it. */
  lemma {:induction false} CandidatesExact(urls: seq<string>, extract: string -> Option<string>, id: string)
    ensures id in Candidates(urls, extract) <==> exists i :: 0 <= i < |urls| && extract(urls[i]) == Some(id)
    decreases |urls|
  {
    if urls != [] {
      var init := urls[..|urls| - 1];
      CandidatesExact(init, extract, id);
      if id in Candidates(init, extract) {
        var i :| 0 <= i < |init| && extract(init[i]) == Some(id);
        assert urls[i] == init[i];
      }
      if exists i :: 0 <= i < |urls| && extract(urls[i]) == Some(id) {
        var i :| 0 <= i < |urls| && extract(urls[i]) == Some(id);
        if i < |init| {
          assert init[i] == urls[i];
        }
      }
    }
  }

  /** Every candidate is a non-empty `[\w\-]` run copied out of one of the links. */
  lemma CandidatesAreIds(urls: seq<string>, id: string)
    requires id in Candidates(urls, ExtractVideoId)
    ensures IsId(id) && exists i :: 0 <= i < |urls| && Contains(urls[i], id)
  {
    CandidatesExact(urls, ExtractVideoId, id);
    var i :| 0 <= i < |urls| && ExtractVideoId(urls[i]) == Some(id);
  }

  /** Duplicates collapse: there are never more candidates than submissions. */
  lemma {:induction false} CandidatesBound(urls: seq<string>, extract: string -> Option<string>)
    ensures |Candidates(urls, extract)| <= |urls|
    decreases |urls|
  {
    if urls != [] {
      CandidatesBound(urls[..|urls| - 1], extract);
    }
  }

  /** Links that yield nothing leave the candidates as they are. */
  lemma {:induction false} CandidatesSkipUnmatched(urls: seq<string>, junk: seq<string>, extract: string -> Option<string>)
    requires forall i :: 0 <= i < |junk| ==> extract(junk[i]) == None
    ensures Candidates(urls + junk, extract) == Candidates(urls, extract)
    decreases |junk|
  {
    if junk == [] {
      assert urls + junk == urls;
    } else {
      var k := |junk| - 1;
      assert (urls + junk)[..|urls + junk| - 1] == urls + junk[..k];
      assert (urls + junk)[|urls + junk| - 1] == junk[k];
      assert extract(junk[k]) == None;
      assert Candidates(urls + junk, extract) == Candidates(urls + junk[..k], extract);
      CandidatesSkipUnmatched(urls, junk[..k], extract);
    }
  }

  /** `reddit_retrieve_submissions` (main.py:29-49): fetch the listing the mode picks
      and add the group-5 identifier of every matching link to a set. */
  method RetrieveSubmissions(mode: string, listing: Ranking -> seq<string>, limit: nat)
    returns (ids: set<string>)
    ensures ids == Candidates(Fetch(listing, mode, limit), ExtractVideoId)
    ensures |ids| <= limit
    ensures forall id :: id in ids <==>
      exists i :: 0 <= i < |Fetch(listing, mode, limit)| && ExtractVideoId(Fetch(listing, mode, limit)[i]) == Some(id)
  {
    var submissions := Fetch(listing, mode, limit);
    ids := {};
    for i := 0 to |submissions|
      invariant ids == Candidates(submissions[..i], ExtractVideoId)
    {
      assert submissions[..i + 1][..i] == submissions[..i];
      match ExtractVideoId(submissions[i]) {
        case Some(id) =>
          ids := ids + {id};
        case None =>
      }
    }
    assert submissions[..|submissions|] == submissions;
    CandidatesBound(submissions, ExtractVideoId);
    forall id | true
      ensures id in ids <==> exists i :: 0 <= i < |submissions| && ExtractVideoId(submissions[i]) == Some(id)
    {
      CandidatesExact(submissions, ExtractVideoId, id);
    }
  }
}
