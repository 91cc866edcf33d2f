# youddit, modelled in Dafny

youddit copies YouTube links from a subreddit into a YouTube playlist. One run
(`build_playlist`) reads every video id already in the playlist, page by page;
reads the first `MAX_VIDEOS` submissions of the subreddit in the chosen ordering
(hot, new, top, controversial or rising); pulls a video id out of each submission
link with one regular expression; and inserts, at position 0 of the playlist, every
id the playlist does not hold yet. An `HttpError` on an insert is logged and
skipped, except a 403 whose reason mentions `quota`, which ends the run with exit
status 1.

The model follows `main.py` (`youddit.py` is the same file). Its modules follow the
functions of the program:

- `Text` — ASCII character classes (`\w`, `\s`), `str.strip`, substring search.
- `UrlMatcher` — the regular expression of main.py:33 as a backtracking matcher,
  one function per group and alternative. The alternatives are tried in the
  engine's order and the greedy runs longest first. `ExtractVideoId` is
  `re.match(...).group(5)`.
- `UrlForms` — what the matcher accepts and which identifier it returns for each
  link form.
- `FeedReader` — `reddit_retrieve_submissions`: the choice of ordering, the
  `limit`, and the loop that collects the ids (a method proved against the fold
  `Candidates`).
- `PlaylistReader` — `get_current_playlist_videos`: the loop over continuation
  tokens (a method proved against the ghost `Chain` of pages the service hands out).
- `PlaylistWriter` — `insert_playlist_videos`: one insert and the quota test.
- `Synchronizer` — `build_playlist`: the set difference and the insert loop (a
  method proved against the fold `Applied`).

The two web services are inputs to the model. The subreddit is a function from
ordering to its list of submission links. The playlist's list endpoint is a
`Service` value: the first answer, and the page each token leads to. The insert
endpoint is an oracle giving the outcome of the k-th insert.

In a few places the pattern accepts more than the link forms it is aimed at. The
model follows the code:

- The dot in `youtu.be` is not escaped, so `youtuXbe` for any X but a newline is
  accepted as a host.
- The watch form accepts any `[\w\-]+` word before `?v=`, not only `watch`.
- A watch link whose `v` value is empty matches anyway, with the path word as the
  identifier.
- An ordering name outside the five falls through to the hot listing.

## Model

| member | source | states |
|---|---|---|
| Text.StripShape | main.py:129 | `str.strip()` (the function `Text.Strip`) keeps a slice of its input and removes only whitespace, before and after that slice |
| Text.StripEnds | main.py:129 | what `str.strip()` keeps neither starts nor ends with whitespace |
| Text.StripKeepsWord | main.py:129 | for a word without whitespace, finding it in `reason.strip()` is the same as finding it in `reason` |
| Text.IdRun | main.py:33 | the greedy `[\w\-]` run is maximal: every character before its end is an id character, and the one at its end is not |
| Text.IdRunIs | main.py:33 | any length with those two properties is the run's length, so the run is unique |
| Text.NonSpaceRun | main.py:33 | the greedy `\S` run is maximal in the same sense |
| Text.NonSpaceRunIs | main.py:33 | any length with the maximal-run properties is the `\S` run's length |
| UrlMatcher.ExtractVideoId | main.py:45-47 | a matched id is a non-empty `[\w\-]` run that occurs in the link, with case preserved |
| UrlMatcher.MatchUrl | main.py:33-45 | `re.match` of the pattern: every match splits the link into the six groups; each group has the shape its sub-pattern allows, and group 5 cannot be extended into group 6 |
| UrlMatcher.RestMatchesIff | main.py:33 | `(\S+)?$` accepts exactly a whitespace-free rest, or one whose only whitespace is a final newline |
| UrlMatcher.MatchIdIs | main.py:33 | backtracking in `([\w\-]+)(\S+)?$` never yields a shorter id: group 5 is the whole run, or the match fails |
| UrlMatcher.WatchFromIs | main.py:33 | `[\w\-]+\?v=` can only succeed with the whole run before `?v=` |
| UrlForms.YieldsIdIffWellformed | main.py:33-47 | a link yields an id exactly when it splits into the groups the pattern describes |
| UrlForms.PathSucceeds | main.py:33 | any of the four path forms followed by an id and a valid rest matches |
| UrlForms.PrefixDetermines | main.py:33 | the scheme, subdomain and host alternatives exclude one another, so the text after the host alone decides the match |
| UrlForms.WhitespaceYieldsNothing | main.py:33 | whitespace anywhere after the host, the last character included, makes the link yield nothing, unless it is a newline ending the link |
| UrlForms.WatchLinkYieldsId | main.py:33-47 | a `/<word>?v=ID` link yields ID, whatever text follows it, provided that text has no whitespace (bar a final newline) and does not start with an id character |
| UrlForms.EmbedLinkYieldsId | main.py:33-47 | a `/embed/ID` link yields ID, under the same condition on the text after ID |
| UrlForms.SlashVLinkYieldsId | main.py:33-47 | a `/v/ID` link yields ID, under the same condition on the text after ID |
| UrlForms.ShortLinkYieldsId | main.py:33-47 | a `youtu.be/ID` link yields ID, under the same condition on the text after ID, unless it reads as one of the longer forms |
| UrlForms.EmptyWatchValueYieldsPathWord | main.py:33-47 | a watch link with an empty `v` value yields the path word |
| FeedReader.Endpoint | main.py:38-42 | each of `top`, `new`, `controversial` and `rising` selects its own listing, and every other value selects hot |
| FeedReader.OptionsSelectOwnEndpoint | main.py:38-42 | the five command-line orderings (main.py:23) correspond one to one with the five listings |
| FeedReader.Fetch | main.py:38-42 | the submissions read are the first `limit` entries of the chosen listing, or all of them when the listing is shorter |
| FeedReader.CandidatesExact | main.py:44-47 | an id is collected exactly when some submission link yields it |
| FeedReader.CandidatesAreIds | main.py:44-47 | every collected id is an id run found in one of the links |
| FeedReader.CandidatesBound | main.py:44-47 | duplicates collapse, so there are never more ids than submissions |
| FeedReader.CandidatesSkipUnmatched | main.py:45-46 | links that do not match add nothing |
| FeedReader.RetrieveSubmissions | main.py:29-49 | the loop returns the ids of the fetched links: at most `limit` of them, each yielded by some fetched link, and each fetched link's id included |
| PlaylistReader.Follow | main.py:97-105 | following tokens makes at most as many requests as the fuel allows; which pages it reads is stated by `FollowLinks` and `FollowEnds` |
| PlaylistReader.FollowFuel | main.py:97-105 | the pages read, and the token that fails, do not depend on the fuel chosen |
| PlaylistReader.UnionItemsExact | main.py:95-104 | an id is in the result exactly when it is an item of one of the pages read |
| PlaylistReader.FollowLinks | main.py:97-105 | each page read is the one its predecessor's token names |
| PlaylistReader.FollowEnds | main.py:97-105 | following stops at the first missing or empty token, or at a non-empty token whose request raises |
| PlaylistReader.ChainFollowsTokens | main.py:90-105 | the pages read start with the first answer, and each later one is the page named by the token of the page before it |
| PlaylistReader.ChainEnds | main.py:96-105 | reading ends at a page without a non-empty token; when it ends early, the last page's token is the one whose request raised |
| PlaylistReader.GetCurrentPlaylistVideos | main.py:88-108 | the loop returns the ids of all pages read, or the request that raised; it makes one request per page read, plus the one that raised |
| PlaylistWriter.IsQuotaError | main.py:129 | the quota test (status 403 and `quota` in the stripped reason) is the same as status 403 and `quota` anywhere in the raw reason |
| PlaylistWriter.InsertPlaylistVideo | main.py:111-131 | a successful insert puts the id on top of the playlist and the run goes on; a failed one leaves the playlist unchanged and stops the run exactly for status 403 with `quota` in the reason |
| PlaylistWriter.QuotaIsCaseSensitive | main.py:129 | example: a reason of `QUOTA` does not stop the run (the general rule is the contract of `IsQuotaError`) |
| PlaylistWriter.PaddedQuotaReasonStops | main.py:129 | example: a reason of ` quotaExceeded` plus a newline stops the run (the general rule is `Text.StripKeepsWord`) |
| Synchronizer.ToAdd | main.py:140 | the videos to add are candidates, none is already in the playlist, and no candidate missing from the playlist is left out |
| Synchronizer.StopsAnywhere | main.py:129-131 | whether an insert outcome ends the run depends on the outcome alone |
| Synchronizer.AppliedStacks | main.py:113-125 | inserting at position 0 stacks the added videos on top of the old playlist, latest first; failed inserts leave no trace |
| Synchronizer.AddedAll | main.py:143-145 | when every insert succeeds, every attempted video is added |
| Synchronizer.AddedAttempted | main.py:143-145 | only attempted videos are added |
| Synchronizer.FullRunLeavesNothing | main.py:140-145 | after a run where every insert succeeded, a second run has nothing to add |
| Synchronizer.OnlyMissingCandidatesAdded | main.py:140-145 | every video new in the playlist was one of the videos to add |
| Synchronizer.InsertVideos | main.py:143-145 | each video to add is attempted at most once; no answer before the last stops the loop; the loop stops early exactly on a quota answer; otherwise every video is attempted; the final playlist is the stack of the successful inserts |
| Synchronizer.BuildPlaylist | main.py:134-146 | a failing playlist read inserts nothing; otherwise the run attempts only candidates the playlist lacks and stops only on quota, and it attempts them all unless it stops |

## Left out

- Credentials, OAuth and client construction (main.py:52-85) are not modelled.
  They are file I/O and interactive login.
- The command line (main.py:149-162) and its global variables are not modelled.
  The ordering and the `limit` are parameters of the model instead.
- The HTTP traffic done through praw and googleapiclient is not modelled. The
  subreddit listings, the playlist list endpoint and the insert endpoint are
  inputs, so any exception other than `HttpError` is outside the model.
- Only the status and the reason text of an `HttpError` are kept.
- `time.sleep`, `print` and logging are not modelled. They have no effect on the
  result.
- `sys.exit(1)` becomes the run end `QuotaExhausted`. The process exit status
  itself is not modelled.
- `\w` and `\s` are restricted to ASCII. Python's `str` patterns also count
  non-ASCII letters, digits and spaces.
- FeedReader.Fetch: praw's `limit` is modelled as taking a prefix of the listing.
  praw's own paging of the listing is not modelled.
- PlaylistReader.GetCurrentPlaylistVideos: a page is given as the list of its
  video ids. The item JSON and the page size of 50 are not modelled.
- PlaylistReader.GetCurrentPlaylistVideos: the service is required to stop
  handing out new tokens at some point (`Terminates`). The program does not
  guard against a service that never stops.
- Synchronizer.InsertVideos: the iteration order of the Python set is left open.
  The method picks any remaining video, and its contract holds for every order.
- Synchronizer.BuildPlaylist: the remote playlist after the inserts is modelled
  as a list of ids separate from the pages of the list endpoint.
