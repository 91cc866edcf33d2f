/** Adding one video to the top of a playlist and deciding whether a failure ends
    the run (main.py:111-131). */
module PlaylistWriter {
  import opened Text

  /** The part of `googleapiclient.errors.HttpError` the code looks at: the HTTP
      status and the reason text. */
  datatype HttpError = HttpError(status: int, reason: string)

  /** What the insert request did: it succeeded, or it raised `HttpError`. */
  datatype InsertOutcome = Inserted | Rejected(error: HttpError)

  /** Whether the run goes on after this insert or ends with exit status 1. */
  datatype Verdict = Proceed | QuotaStop

  /** The test of main.py:129: status 403 and `quota` inside the stripped reason,
      matched case-sensitively. `quota` has no whitespace in it, so stripping the
      reason first makes no difference. */
  predicate IsQuotaError(e: HttpError)
    ensures IsQuotaError(e) <==> e.status == 403 && Contains(e.reason, "quota")
  {
    assert NoSpace("quota");
    StripKeepsWord(e.reason, "quota");
    e.status == 403 && Contains(Strip(e.reason), "quota")
  }

  /** `insert_playlist_videos` (main.py:111-131) on a playlist modelled as the list of
      its video ids. A successful insert puts the id at position 0; a failure leaves
      the playlist as it was and ends the run only for a quota error. */
  function InsertPlaylistVideo(playlist: seq<string>, id: string, outcome: InsertOutcome): (r: (seq<string>, Verdict))
    ensures outcome.Inserted? ==> r.0 == [id] + playlist && r.1 == Proceed
    ensures outcome.Rejected? ==> r.0 == playlist
    ensures r.1 == QuotaStop <==>
      outcome.Rejected? && outcome.error.status == 403 && Contains(outcome.error.reason, "quota")
  {
    match outcome
    case Inserted => ([id] + playlist, Proceed)
    case Rejected(e) =>
      (playlist, if IsQuotaError(e) then QuotaStop else Proceed)
  }

  /** Matching is case-sensitive: a reason that spells the word in capitals only does
      not stop the run. */
  lemma QuotaIsCaseSensitive(playlist: seq<string>, id: string)
    ensures InsertPlaylistVideo(playlist, id, Rejected(HttpError(403, "QUOTA"))).1 == Proceed
  {
    var s := "QUOTA";
    forall i | 0 <= i <= |s| - 5
      ensures !OccursAt(s, "quota", i)
    {
      assert s[i..i + 5][0] == 'Q';
    }
  }

  /** Leading and trailing whitespace around the reason does not matter. */
  lemma PaddedQuotaReasonStops(playlist: seq<string>, id: string)
    ensures InsertPlaylistVideo(playlist, id, Rejected(HttpError(403, " quotaExceeded\n"))).1 == QuotaStop
  {
    var s := " quotaExceeded\n";
    assert s[1..6] == "quota";
    assert OccursAt(s, "quota", 1);
  }
}
