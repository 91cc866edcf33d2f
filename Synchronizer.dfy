/** `build_playlist` (main.py:134-146): read the playlist, collect the candidates,
    and insert every candidate the playlist lacks until the quota runs out. */
module Synchronizer {
  import opened Wrappers
  import opened UrlMatcher
  import opened FeedReader
  import opened PlaylistReader
  import opened PlaylistWriter

  /** The videos still to add (main.py:140): candidates not already in the playlist. */
  function ToAdd(candidates: set<string>, current: set<string>): (r: set<string>)
    ensures r <= candidates && r !! current
    ensures forall v :: v in candidates ==> v in r || v in current
  {
    candidates - current
  }

  /** The insert answer that ends the run. */
  predicate Stops(outcome: InsertOutcome) {
    outcome.Rejected? && IsQuotaError(outcome.error)
  }

  /** The playlist after inserting `attempted` in order, the k-th insert (counted
      from 0) being answered by `oracle(k, id)`. */
  function Applied(playlist: seq<string>, attempted: seq<string>, oracle: (nat, string) -> InsertOutcome): seq<string>
    decreases |attempted|
  {
    if attempted == [] then playlist
    else
      var k := |attempted| - 1;
      InsertPlaylistVideo(Applied(playlist, attempted[..k], oracle), attempted[k], oracle(k, attempted[k])).0
  }

  /** Whether an answer stops the run does not depend on the playlist or the id. */
  lemma StopsAnywhere(playlist: seq<string>, id: string, outcome: InsertOutcome)
    ensures InsertPlaylistVideo(playlist, id, outcome).1 == QuotaStop <==> Stops(outcome)
  {
  }

  /** The ids whose insert succeeded, most recent first. */
  function Added(attempted: seq<string>, oracle: (nat, string) -> InsertOutcome): seq<string>
    decreases |attempted|
  {
    if attempted == [] then []
    else
      var k := |attempted| - 1;
      (if oracle(k, attempted[k]).Inserted? then [attempted[k]] else []) + Added(attempted[..k], oracle)
  }

  /** Inserting at position 0 stacks the new videos on top of the old playlist, the
      latest one first; failed inserts leave no trace. */
  lemma {:induction false} AppliedStacks(playlist: seq<string>, attempted: seq<string>, oracle: (nat, string) -> InsertOutcome)
    ensures Applied(playlist, attempted, oracle) == Added(attempted, oracle) + playlist
    decreases |attempted|
  {
    if attempted != [] {
      var k := |attempted| - 1;
      AppliedStacks(playlist, attempted[..k], oracle);
      if oracle(k, attempted[k]).Inserted? {
        assert [attempted[k]] + (Added(attempted[..k], oracle) + playlist)
            == ([attempted[k]] + Added(attempted[..k], oracle)) + playlist;
      } else {
        assert [] + Added(attempted[..k], oracle) == Added(attempted[..k], oracle);
      }
    }
  }

  /** When every insert succeeds, each attempted id is added. */
  lemma {:induction false} AddedAll(attempted: seq<string>, oracle: (nat, string) -> InsertOutcome, v: string)
    requires forall i :: 0 <= i < |attempted| ==> oracle(i, attempted[i]).Inserted?
    requires v in attempted
    ensures v in Added(attempted, oracle)
    decreases |attempted|
  {
    var k := |attempted| - 1;
    if v != attempted[k] {
      var i :| 0 <= i < |attempted| && attempted[i] == v;
      assert attempted[..k][i] == v;
      AddedAll(attempted[..k], oracle, v);
    }
  }

  /** Only attempted ids are ever added. */
  lemma {:induction false} AddedAttempted(attempted: seq<string>, oracle: (nat, string) -> InsertOutcome, v: string)
    requires v in Added(attempted, oracle)
    ensures v in attempted
    decreases |attempted|
  {
    var k := |attempted| - 1;
    if v != attempted[k] {
      AddedAttempted(attempted[..k], oracle, v);
      var i :| 0 <= i < k && attempted[..k][i] == v;
      assert attempted[i] == v;
    }
  }

  /** After a run in which every insert succeeded and every missing candidate was
      attempted, computing the difference again against the grown playlist leaves
      nothing to add. */
  lemma FullRunLeavesNothing(candidates: set<string>, current: set<string>, playlist: seq<string>,
                             attempted: seq<string>, oracle: (nat, string) -> InsertOutcome)
    requires forall i :: 0 <= i < |attempted| ==> oracle(i, attempted[i]).Inserted?
    requires forall v :: v in ToAdd(candidates, current) ==> v in attempted
    ensures ToAdd(candidates, current + set v | v in Applied(playlist, attempted, oracle)) == {}
  {
    AppliedStacks(playlist, attempted, oracle);
    forall v | v in ToAdd(candidates, current)
      ensures v in Applied(playlist, attempted, oracle)
    {
      AddedAll(attempted, oracle, v);
    }
  }

  /** Whatever is new in the playlist after the run was one of the videos to add. */
  lemma OnlyMissingCandidatesAdded(toAdd: set<string>, playlist: seq<string>,
                                   attempted: seq<string>, oracle: (nat, string) -> InsertOutcome, v: string)
    requires forall i :: 0 <= i < |attempted| ==> attempted[i] in toAdd
    requires v in Applied(playlist, attempted, oracle) && v !in playlist
    ensures v in toAdd
  {
    AppliedStacks(playlist, attempted, oracle);
    AddedAttempted(attempted, oracle, v);
  }

  /** No id is attempted twice. */
  predicate Distinct(s: seq<string>) {
    forall i, j :: 0 <= i < j < |s| ==> s[i] != s[j]
  }

  /** No answer before the last one stopped the run, and `stopped` records whether
      the last one did. */
  predicate StopsOnlyLast(attempted: seq<string>, oracle: (nat, string) -> InsertOutcome, stopped: bool) {
    (forall i :: 0 <= i < |attempted| - 1 ==> !Stops(oracle(i, attempted[i]))) &&
    (stopped <==> |attempted| > 0 && Stops(oracle(|attempted| - 1, attempted[|attempted| - 1])))
  }

  /** The bookkeeping of the insert loop: `attempted` lists without repeats the
      videos taken out of `toAdd`, and `remaining` holds the others. */
  predicate Offered(toAdd: set<string>, remaining: set<string>, attempted: seq<string>) {
    remaining <= toAdd &&
    (forall v :: v in toAdd ==> (v in remaining <==> v !in attempted)) &&
    Distinct(attempted) &&
    (forall i :: 0 <= i < |attempted| ==> attempted[i] in toAdd)
  }

  lemma OfferedStep(toAdd: set<string>, remaining: set<string>, attempted: seq<string>, v: string)
    requires Offered(toAdd, remaining, attempted) && v in remaining
    ensures Offered(toAdd, remaining - {v}, attempted + [v])
  {
    var next := attempted + [v];
    assert forall i :: 0 <= i < |attempted| ==> next[i] == attempted[i];
    assert v !in attempted;
  }

  lemma StopsStep(attempted: seq<string>, oracle: (nat, string) -> InsertOutcome, v: string)
    requires StopsOnlyLast(attempted, oracle, false)
    ensures StopsOnlyLast(attempted + [v], oracle, Stops(oracle(|attempted|, v)))
  {
    var next := attempted + [v];
    forall i | 0 <= i < |next| - 1
      ensures !Stops(oracle(i, next[i]))
    {
      assert next[i] == attempted[i];
    }
    assert next[|next| - 1] == v;
  }

  lemma AppliedStep(playlist: seq<string>, attempted: seq<string>, oracle: (nat, string) -> InsertOutcome, v: string)
    ensures Applied(playlist, attempted + [v], oracle) ==
      InsertPlaylistVideo(Applied(playlist, attempted, oracle), v, oracle(|attempted|, v)).0
  {
    assert (attempted + [v])[..|attempted|] == attempted;
  }

  /** One turn of the insert loop keeps its bookkeeping. */
  lemma InsertStep(toAdd: set<string>, remaining: set<string>, attempted: seq<string>,
                   oracle: (nat, string) -> InsertOutcome, playlist: seq<string>, v: string)
    requires Offered(toAdd, remaining, attempted) && v in remaining
    requires StopsOnlyLast(attempted, oracle, false)
    ensures var step := InsertPlaylistVideo(Applied(playlist, attempted, oracle), v, oracle(|attempted|, v));
      Offered(toAdd, remaining - {v}, attempted + [v]) &&
      StopsOnlyLast(attempted + [v], oracle, step.1 == QuotaStop) &&
      step.0 == Applied(playlist, attempted + [v], oracle)
  {
    StopsAnywhere(Applied(playlist, attempted, oracle), v, oracle(|attempted|, v));
    OfferedStep(toAdd, remaining, attempted, v);
    StopsStep(attempted, oracle, v);
    AppliedStep(playlist, attempted, oracle, v);
  }

  /** The loop of main.py:143-145 over the set of videos to add, in an order the
      model leaves open: each video is offered once to the insert step, and a quota
      stop ends the loop at once (`sys.exit(1)` at main.py:131). */
  method InsertVideos(toAdd: set<string>, oracle: (nat, string) -> InsertOutcome, playlist: seq<string>)
    returns (attempted: seq<string>, final: seq<string>, stopped: bool)
    ensures Distinct(attempted)
    ensures forall i :: 0 <= i < |attempted| ==> attempted[i] in toAdd
    ensures StopsOnlyLast(attempted, oracle, stopped)
    ensures !stopped ==> forall v :: v in toAdd ==> v in attempted
    ensures final == Applied(playlist, attempted, oracle)
  {
    attempted := [];
    final := playlist;
    stopped := false;
    var remaining := toAdd;
    while remaining != {} && !stopped
      invariant Offered(toAdd, remaining, attempted)
      invariant StopsOnlyLast(attempted, oracle, stopped)
      invariant final == Applied(playlist, attempted, oracle)
      decreases |remaining|
    {
      var v :| v in remaining;
      var step := InsertPlaylistVideo(final, v, oracle(|attempted|, v));
      InsertStep(toAdd, remaining, attempted, oracle, playlist, v);
      attempted := attempted + [v];
      final := step.0;
      stopped := step.1 == QuotaStop;
      remaining := remaining - {v};
    }
  }

  /** How a run ends. */
  datatype RunEnd = Completed | QuotaExhausted | ListFailed(error: ListError)

  /** `build_playlist` (main.py:134-146). Reading the playlist comes first: if a list
      request raises, nothing is inserted. Otherwise the videos to add are the
      candidates the playlist does not yet hold, and each is offered to the insert
      step until one hits the quota. */
  method BuildPlaylist(svc: Service, mode: string, listing: Ranking -> seq<string>, limit: nat,
                       oracle: (nat, string) -> InsertOutcome, playlist: seq<string>)
    returns (end: RunEnd, attempted: seq<string>, final: seq<string>)
    requires Terminates(svc)
    ensures Failed(svc).Some? ==> end == ListFailed(Failed(svc).value) && attempted == [] && final == playlist
    ensures Failed(svc).None? ==> !end.ListFailed?
    ensures Failed(svc).None? ==>
      var toAdd := ToAdd(Candidates(Fetch(listing, mode, limit), ExtractVideoId), UnionItems(Chain(svc)));
      Distinct(attempted) &&
      (forall i :: 0 <= i < |attempted| ==> attempted[i] in toAdd) &&
      (forall i :: 0 <= i < |attempted| - 1 ==> !Stops(oracle(i, attempted[i]))) &&
      (end == QuotaExhausted <==> |attempted| > 0 && Stops(oracle(|attempted| - 1, attempted[|attempted| - 1]))) &&
      (end == Completed ==> forall v :: v in toAdd ==> v in attempted)
    ensures final == Applied(playlist, attempted, oracle)
  {
    var current, _ := GetCurrentPlaylistVideos(svc);
    if current.Failure? {
      return ListFailed(current.error), [], playlist;
    }
    var candidates := RetrieveSubmissions(mode, listing, limit);
    var toAdd := ToAdd(candidates, current.value);
    var stopped;
    attempted, final, stopped := InsertVideos(toAdd, oracle, playlist);
    end := if stopped then QuotaExhausted else Completed;
  }
}
