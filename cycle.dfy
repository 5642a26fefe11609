/**
 * One run of the program: load the state file, fetch the feed, run the pass,
 * and write the table back when something was sent.
 */
module Cycle {
  import opened Wrappers
  import opened Incidents
  import opened Dedup
  import opened StateFile

  /** The outcome of fetching the feed and decoding its body. */
  datatype FeedResult =
    | GetFailed(reason: string)
    | BodyUnreadable(reason: string)
    | Unparsable(reason: string)
    | Fetched(incidents: seq<Incident>)

  /** Why a run stops before the pass. */
  datatype Fatal = StateLoadFailed(error: LoadError) | FeedFailed(feed: FeedResult)

  /**
   * How a run ends: stopped before the pass; or the pass ran and the table was
   * written back or not; or, with a nil table, the run panicked storing the
   * first alerted key, after notifying that incident and before saving.
   */
  datatype RunOutcome =
    | Aborted(cause: Fatal)
    | Finished(newAlertsSent: nat, alerted: seq<Incident>, saved: Option<map<string, bool>>)
    | Crashed(notified: Incident)

  /** What a run does, given the state-file read, the feed and the time-zone lookups. */
  function Run(read: ReadResult, feed: FeedResult, zoneLoaded: seq<bool>): (o: RunOutcome)
    requires feed.Fetched? ==> |zoneLoaded| == |feed.incidents|
    // a state file that cannot be loaded, or a feed that cannot be had, stops the run
    ensures o.Aborted? <==> LoadSentIncidents(read).Err? || !feed.Fetched?
    ensures LoadSentIncidents(read).Err? ==> o == Aborted(StateLoadFailed(LoadSentIncidents(read).error))
    // a finished run notified the pass's alerts, counted them, and saved the pass's table iff it sent any
    ensures o.Finished? ==>
              && feed.Fetched? && LoadSentIncidents(read).Ok?
              && o.alerted == Alerts(feed.incidents, zoneLoaded, Entries(LoadSentIncidents(read).value))
              && o.newAlertsSent == |o.alerted|
              && (o.saved.Some? <==> o.newAlertsSent > 0)
              && (o.saved.Some? ==>
                    o.saved.value == Marked(feed.incidents, zoneLoaded, Entries(LoadSentIncidents(read).value)))
    // a state file holding `null` makes the run panic at the first MVC whose lookup succeeds
    ensures o.Crashed? <==>
              && feed.Fetched? && LoadSentIncidents(read) == Ok(NilTable)
              && Candidates(feed.incidents, zoneLoaded) != []
    ensures o.Crashed? ==> o.notified == Candidates(feed.incidents, zoneLoaded)[0]
  {
    match LoadSentIncidents(read)
    case Err(e) => Aborted(StateLoadFailed(e))
    case Ok(loaded) =>
      if !feed.Fetched? then Aborted(FeedFailed(feed))
      else
        var entries := Entries(loaded);
        var alerts := Alerts(feed.incidents, zoneLoaded, entries);
        AlertsFromEmptyTable(feed.incidents, zoneLoaded);
        if loaded.NilTable? && alerts != [] then Crashed(alerts[0])
        else
          var saved := if |alerts| > 0 then Some(Marked(feed.incidents, zoneLoaded, entries)) else None;
          Finished(|alerts|, alerts, saved)
  }

  /** The body of `main` after configuration has been read. */
  method RunOnce(read: ReadResult, feed: FeedResult, zoneLoaded: seq<bool>) returns (outcome: RunOutcome)
    requires feed.Fetched? ==> |zoneLoaded| == |feed.incidents|
    ensures outcome == Run(read, feed, zoneLoaded)
  {
    var loaded := LoadSentIncidents(read);
    if loaded.Err? {
      return Aborted(StateLoadFailed(loaded.error));
    }
    if !feed.Fetched? {
      return Aborted(FeedFailed(feed));
    }
    var sent, newAlertsSent, alerted := RunPass(feed.incidents, zoneLoaded, Entries(loaded.value));
    if loaded.value.NilTable? && newAlertsSent > 0 {
      // the first alert's store into the nil map panics; nothing is saved
      return Crashed(alerted[0]);
    }
    var saved: Option<map<string, bool>> := None;
    if newAlertsSent > 0 {
      saved := Some(sent);
    }
    return Finished(newAlertsSent, alerted, saved);
  }

  /**
   * A second run right after a finished one, over the same feed and lookup
   * outcomes, reading back the file the first run left (the saved table, or
   * the untouched file when nothing was saved), sends nothing and saves nothing.
   */
  lemma {:induction false} RerunSendsNothing(read: ReadResult, incidents: seq<Incident>, zoneLoaded: seq<bool>, length: nat)
    requires |zoneLoaded| == |incidents|
    requires Run(read, Fetched(incidents), zoneLoaded).Finished?
    requires length > 0
    ensures var first := Run(read, Fetched(incidents), zoneLoaded);
            var reread := if first.saved.Some? then Contents(length, Parsed(first.saved.value)) else read;
            Run(reread, Fetched(incidents), zoneLoaded) == Finished(0, [], None)
  {
    var first := Run(read, Fetched(incidents), zoneLoaded);
    var loaded := Entries(LoadSentIncidents(read).value);
    if first.saved.Some? {
      var after := Marked(incidents, zoneLoaded, loaded);
      LoadReturnsSavedTable(after, length);
      PassIsIdempotent(incidents, zoneLoaded, loaded);
    }
  }
}
