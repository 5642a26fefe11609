# RWECC MVC alert job — Dafny model of the deduplicate-and-mark cycle

The program polls the Raleigh-Wake ECC incident feed once per run. It looks for
motor-vehicle-collision (MVC) incidents that it has not yet announced. It posts
one Discord webhook message per new incident and records each announced
incident's key in a JSON state file (`sent_rwecc_incidents.json`). The next run
then does not announce the same incident again.

This project models the core of `main.go`:

- `incidents.dfy` (module `Incidents`): the incident record and the
  de-duplication key, which is the timestamp, one space, and the address. It
  also holds the case-sensitive `strings.Contains(problem, "MVC")` filter.
- `dedup.dfy` (module `Dedup`): the loop of `main` over the fetched incidents.
  `RunPass` is an imperative method with a `for` loop that updates the
  sent-incidents table (`map<string, bool>`) and the alert counter, and appends
  every notified incident to a log. It is proved against `Pass`, a
  one-incident-at-a-time specification. `Pass` is in turn proved equal to an
  independent reference definition. The reference is `FirstNew` applied to
  `Candidates`: it keeps the first incident of each not-yet-sent key among the
  MVC incidents whose time-zone lookup succeeded. The properties of the pass are
  proved from the reference.
- `state_file.dfy` (module `StateFile`): the branch logic of
  `loadSentIncidents`, over an abstract read result. The result is one of: file
  missing, other read error, or `length` bytes read together with what they
  decode to: a table, the JSON literal `null` (a nil map), or a decoding failure.
- `discord.dfy` (module `Discord`): the webhook payload `sendToDiscord` builds.
  `ReadAlert` reads an alert back out of a payload, and is proved to invert
  `BuildPayload`.
- `cycle.dfy` (module `Cycle`): one run of the program. It loads the state,
  fetches the feed, runs the pass, and saves only when the count is positive.
- `wrappers.dfy` (module `Wrappers`): `Option` and `Result`.

The notifier is modelled as appending the incident to the `alerted` log. The
time-zone lookup `time.LoadLocation("America/New_York")` becomes the boolean
input `zoneLoaded[n]`, one per incident. The source performs the lookup afresh
in every iteration that passes the filter and the table check of main.go:158,
and only there; `zoneLoaded[n]` is the outcome that lookup would have, and it
is not consulted for any other incident. When it is false, the `continue`
branch skips the incident.

A state file holding the JSON literal `null` decodes without an error to a nil
Go map. Reading a nil map gives `false` for every key, but storing into it
panics. Such a run therefore notifies the first MVC incident whose lookup
succeeds and then panics at main.go:178, before anything is saved. The program
never writes `null` itself. The model keeps this outcome (`StateFile.SentTable`,
`Cycle.RunOutcome.Crashed`).

In `main.go:158` a key stored with value `false` reads as "not sent", because
Go's map lookup yields the zero value and the test is on the value, not on the
key's presence. The model follows the code (`Dedup.IsSent`).

## Model

| member | source | states |
|---|---|---|
| `Incidents.Key` | main.go:156 | The key is the timestamp, then a single space, then the address: its length is their total plus one and each part can be read back at its position. |
| `Incidents.KeyIdentifiesTimestampAndAddress` | main.go:156 | For timestamps of equal length (the feed's fixed format), two incidents share a key exactly when they share timestamp and address; jurisdiction, problem and coordinates play no part. |
| `Incidents.Contains` | main.go:158 | `strings.Contains` holds exactly when the pattern occurs at some position of the text, character for character. |
| `Incidents.NoUpperCaseMNeverMatches` | main.go:158 | The filter is case-sensitive: a problem text without an upper-case `M` (such as "mvc" or "Vehicle Fire") never passes. |
| `Incidents.IsMvc` | main.go:158 | An incident passes the filter exactly when "MVC" occurs in its problem text at some position, case-sensitively. |
| `Dedup.IsSent` | main.go:158 | Go's map read: a missing key reads as not sent, and a present key is sent exactly when its value is `true`. |
| `Dedup.Step` | main.go:156-180 | One iteration: the incident's key is sent afterwards iff it was before or the incident is an MVC whose lookup succeeded; no other entry changes; nothing is removed or set to false; the log grows by this incident exactly when it was a new MVC with a successful lookup; an iteration that sends no alert leaves the table unchanged; a failed lookup changes nothing. |
| `Dedup.Pass` | main.go:155-181 | The loop from any state: the log only grows at its end, by at most one incident per feed incident, and the table keeps every key and every sent entry. |
| `Dedup.RunPass` | main.go:153-181 | The loop's final table and log equal the step-by-step specification `Pass` and the reference (`Alerts`, `Marked`); the counter equals the number of notified incidents. |
| `Dedup.PassMatchesReference` | main.go:155-181 | From any state, the loop notifies exactly the first incident of each not-yet-sent key among the MVC incidents with a successful lookup, in feed order, and sets exactly those keys to `true`. |
| `Dedup.Marked` | main.go:176-181 | The final table only gains `true` entries: every loaded key remains, an entry either keeps its loaded value or is `true`, a key is sent afterwards iff it was sent before or was alerted on, and keys not alerted on are untouched. |
| `Dedup.AlertsInFeedOrder` | main.go:155-180 | The alerts form a subsequence of the feed (feed order), and each alerted incident is an MVC, was not sent at load time, and sits at a position whose time-zone lookup succeeded. |
| `Dedup.AlertsOncePerKey` | main.go:155-179 | Incidents that share a key give at most one alert: the keys in the log are pairwise distinct. |
| `Dedup.MarkedCoversEveryMvc` | main.go:158-179 | Every MVC incident whose lookup succeeded has its key sent in the final table. |
| `Dedup.FailedLookupsAreSkipped` | main.go:162-166 | A key whose every occurrence met a failed time-zone lookup is not notified, and its table entry is unchanged. |
| `Dedup.PassIsIdempotent` | main.go:155-181 | Re-running the pass on the same incidents and lookup outcomes, starting from the table the first pass produced, alerts on nothing and leaves that table unchanged. |
| `Dedup.FirstNewProperties` | main.go:155-179 | The reference selection avoids already-seen keys, yields distinct keys, covers every candidate's key, and keeps candidate order. |
| `Dedup.AlertsFromEmptyTable` | main.go:155-176 | From a table that holds nothing, the pass alerts iff some MVC incident has a successful lookup, and its first alert is the first such incident. |
| `Dedup.CandidatesProperties` | main.go:158-166 | The candidates are exactly the MVC incidents whose lookup succeeded, in feed order. |
| `StateFile.LoadSentIncidents` | main.go:52-65 | Load fails exactly on a read error other than "not exist" (returned as is) or a non-empty file that does not decode. A missing or empty file gives an empty table, a non-empty file holding an object gives its table, and one holding `null` gives a nil map. |
| `StateFile.Entries` | main.go:63 | A nil map reads as the empty table; any other map reads as its entries. |
| `StateFile.LoadReturnsSavedTable` | main.go:60-64 | A non-empty file that decodes to a table loads as exactly that table. |
| `Discord.BuildPayload` | main.go:80-98 | The payload reads back as the alert it was built from: the incident's problem, address and jurisdiction, the map link and the display timestamp, under the fixed title, colour 3447003, footer and bot name. |
| `Discord.ReadAlertOnlyAcceptsBuilt` | main.go:80-98 | Conversely, every payload that reads as an alert is exactly the payload built for an incident with those fields. |
| `Cycle.Run` | main.go:131-187 | A run stops iff the state cannot be loaded or the feed cannot be fetched or decoded. With a `null` state file it panics exactly when some MVC incident has a successful lookup, after notifying the first such incident and saving nothing. Otherwise it finishes: the alerts are those of the pass over the loaded table, the count is their number, and the pass's final table is saved iff the count is positive. |
| `Cycle.RunOnce` | main.go:131-187 | The imperative run computes `Run`. |
| `Cycle.RerunSendsNothing` | main.go:131-187 | A second run over the same feed and lookup outcomes, reading back the file the first run left, sends nothing and saves nothing. |

## Left out

- Fetching the feed and posting to the webhook (HTTP GET and POST, reading the body, status checks, main.go:106-115, 136-145) are network I/O. The feed is the input `FeedResult`. The POST outcome is logged and ignored by the source, so the `alerted` log records delivery attempts. A failed POST still marks the key, as in the source.
- JSON encoding and decoding (main.go:63, 69, 100, 148) are library code. Decoding is the abstract `Decoded` and `FeedResult` outcomes. The indented encoding written by `saveSentIncidents` is not modelled, and `RerunSendsNothing` assumes the saved file decodes back to the saved table.
- Reading and writing the state file (main.go:54, 73) is I/O. `Cycle.Run` records the table handed to `saveSentIncidents`, not whether the write succeeded. The source only logs a write error, but `os.WriteFile` truncates before writing. After a failed write the file may be the old one, which leads to re-announcements next run, or a truncated one. A file truncated to zero bytes loads as an empty table without error (main.go:60-61), so the next run re-announces every MVC incident still in the feed. Only a partly written, non-empty file fails to load.
- Cycle.RerunSendsNothing: assumes the first run's save succeeded, so the second run reads back exactly the saved table. It promises nothing after a failed or partial write.
- Cycle.RunOnce: with a nil table it runs the whole pass over the empty table and reports its first alert. The source stops at that alert. The outcome is the same, but the model does not follow the source's control flow there.
- `.env` loading, environment lookups and the fatal exit when a URL is unset (main.go:119-129) are process plumbing.
- `time.LoadLocation` is the boolean input `zoneLoaded`. `time.Parse` with its fallback to `time.Now`, the conversion to US Eastern time and RFC 3339 formatting (main.go:169-174, 92) are reduced to the display timestamp, an opaque string argument of `BuildPayload`.
- The `%.6f` map link (main.go:78) is an opaque string argument of `BuildPayload`. Latitude and longitude are kept as `real` fields and otherwise unused.
- Log messages are not modelled.
- Go strings are byte sequences, and the model's strings are character sequences. For the ASCII pattern "MVC" the substring test gives the same answer either way.
- The table is modelled as a value reassigned by the loop. In the source it is a Go map local to `main`, so nothing else aliases it.
