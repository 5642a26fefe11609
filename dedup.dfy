/**
 * The deduplicate-and-mark pass of `main`: for each incident in feed order,
 * alert on it when it is an MVC whose key the sent-incidents table does not
 * hold as `true`, then mark the key and count the alert.
 *
 * The pass is specified twice: `Pass` follows the loop one incident at a time,
 * and `FirstNew` of `Candidates` says, without any table, which incidents are
 * alerted. `PassMatchesReference` connects the two, and the properties of the
 * pass are proved from the reference.
 */
module Dedup {
  import opened Incidents

  /** Go's `sentIncidents[key]`: a missing key reads as `false`. */
  predicate IsSent(sent: map<string, bool>, key: string): (r: bool)
    ensures key !in sent ==> !r
    ensures key in sent ==> (r <==> sent[key])
  {
    key in sent && sent[key]
  }

  /** The keys the table counts as already announced. */
  function SentKeys(sent: map<string, bool>): (keys: set<string>)
    ensures forall k :: k in keys <==> IsSent(sent, k)
  {
    set k | k in sent && sent[k]
  }

  /** The keys of a sequence of incidents. */
  function KeysOf(incidents: seq<Incident>): (keys: set<string>)
    ensures forall x :: x in incidents ==> Key(x) in keys
  {
    set x | x in incidents :: Key(x)
  }

  /** The table after setting every key of `keys` to `true`. */
  function MarkAll(sent: map<string, bool>, keys: set<string>): (marked: map<string, bool>)
    ensures forall k :: k in marked <==> k in sent || k in keys
    ensures forall k :: k in keys ==> marked[k]
    ensures forall k :: k in sent && k !in keys ==> marked[k] == sent[k]
  {
    sent + map k | k in keys :: true
  }

  /** The table and the log of notified incidents, as the loop goes. */
  datatype PassState = PassState(sent: map<string, bool>, alerted: seq<Incident>)

  /**
   * One iteration of the loop. `zoneLoaded` is the outcome of the time-zone
   * lookup the iteration makes; when it fails the incident is skipped.
   */
  function Step(st: PassState, incident: Incident, zoneLoaded: bool): (r: PassState)
    // the incident's key is announced afterwards iff it was before or this
    // iteration alerts; and an alert happens only for a new MVC
    ensures IsSent(r.sent, Key(incident)) <==>
              IsSent(st.sent, Key(incident)) || (IsMvc(incident) && zoneLoaded)
    // no other entry of the table changes
    ensures forall k :: k != Key(incident) ==>
              (k in r.sent <==> k in st.sent) && (k in st.sent ==> r.sent[k] == st.sent[k])
    // no entry is removed or set to false
    ensures st.sent.Keys <= r.sent.Keys
    ensures forall k :: IsSent(st.sent, k) ==> IsSent(r.sent, k)
    // the log grows by this incident exactly when the key was newly announced
    ensures r.alerted == st.alerted || r.alerted == st.alerted + [incident]
    ensures r.alerted == st.alerted + [incident] <==>
              !IsSent(st.sent, Key(incident)) && IsMvc(incident) && zoneLoaded
    // an iteration that sends no alert leaves the table as it was
    ensures r.alerted == st.alerted ==> r.sent == st.sent
    // a failed time-zone lookup leaves everything as it was
    ensures !zoneLoaded ==> r == st
  {
    if IsMvc(incident) && !IsSent(st.sent, Key(incident)) && zoneLoaded then
      PassState(st.sent[Key(incident) := true], st.alerted + [incident])
    else
      st
  }

  /**
   * The whole loop, from state `st`, over the incidents in feed order. The log
   * only grows at its end, by at most one incident per incident of the feed,
   * and the table keeps every key and every sent entry.
   */
  function Pass(incidents: seq<Incident>, zoneLoaded: seq<bool>, st: PassState): (r: PassState)
    requires |zoneLoaded| == |incidents|
    ensures |st.alerted| <= |r.alerted| <= |st.alerted| + |incidents|
    ensures r.alerted[..|st.alerted|] == st.alerted
    ensures st.sent.Keys <= r.sent.Keys
    ensures forall k :: IsSent(st.sent, k) ==> IsSent(r.sent, k)
  {
    if incidents == [] then st
    else Pass(incidents[1..], zoneLoaded[1..], Step(st, incidents[0], zoneLoaded[0]))
  }

  /* ---------------- reference definition ---------------- */

  /** The incidents, in feed order, that pass the filter and whose lookup succeeded. */
  function Candidates(incidents: seq<Incident>, zoneLoaded: seq<bool>): seq<Incident>
    requires |zoneLoaded| == |incidents|
  {
    if incidents == [] then []
    else
      (if IsMvc(incidents[0]) && zoneLoaded[0] then [incidents[0]] else [])
      + Candidates(incidents[1..], zoneLoaded[1..])
  }

  /** The first incident of each key not in `seen`, in order. */
  function FirstNew(candidates: seq<Incident>, seen: set<string>): seq<Incident>
  {
    if candidates == [] then []
    else if Key(candidates[0]) in seen then FirstNew(candidates[1..], seen)
    else [candidates[0]] + FirstNew(candidates[1..], seen + {Key(candidates[0])})
  }

  /** `a` is `b` with some elements left out, the rest in the same order. */
  predicate IsSubsequence<T(==)>(a: seq<T>, b: seq<T>)
    decreases |b|
  {
    if a == [] then true
    else if b == [] then false
    else (a[0] == b[0] && IsSubsequence(a[1..], b[1..])) || IsSubsequence(a, b[1..])
  }

  /** The loop computes the reference: it alerts on `FirstNew` of the candidates. */
  lemma {:induction false} PassMatchesReference(incidents: seq<Incident>, zoneLoaded: seq<bool>, st: PassState)
    requires |zoneLoaded| == |incidents|
    ensures var news := FirstNew(Candidates(incidents, zoneLoaded), SentKeys(st.sent));
            Pass(incidents, zoneLoaded, st) == PassState(MarkAll(st.sent, KeysOf(news)), st.alerted + news)
  {
    var seen := SentKeys(st.sent);
    if incidents == [] {
      assert MarkAll(st.sent, KeysOf([])) == st.sent;
    } else {
      var incident, rest, restZone := incidents[0], incidents[1..], zoneLoaded[1..];
      var next := Step(st, incident, zoneLoaded[0]);
      var cands := Candidates(rest, restZone);
      assert Pass(incidents, zoneLoaded, st) == Pass(rest, restZone, next);
      PassMatchesReference(rest, restZone, next);
      if !(IsMvc(incident) && zoneLoaded[0]) {
        assert next == st;
        assert Candidates(incidents, zoneLoaded) == cands;
      } else if IsSent(st.sent, Key(incident)) {
        assert next == st;
        assert Candidates(incidents, zoneLoaded) == [incident] + cands;
        FirstNewSkipsSeen(incident, cands, seen);
      } else {
        assert Candidates(incidents, zoneLoaded) == [incident] + cands;
        AlertThenReference(st, incident, cands);
      }
    }
  }

  /** An alerting step followed by the reference on the rest is the reference on the whole. */
  lemma {:induction false} AlertThenReference(st: PassState, incident: Incident, cands: seq<Incident>)
    requires !IsSent(st.sent, Key(incident))
    ensures MarkAll(st.sent[Key(incident) := true], KeysOf(FirstNew(cands, SentKeys(st.sent[Key(incident) := true]))))
              == MarkAll(st.sent, KeysOf(FirstNew([incident] + cands, SentKeys(st.sent))))
    ensures st.alerted + [incident] + FirstNew(cands, SentKeys(st.sent[Key(incident) := true]))
              == st.alerted + FirstNew([incident] + cands, SentKeys(st.sent))
  {
    var k := Key(incident);
    var seen := SentKeys(st.sent);
    SentKeysAfterMark(st.sent, k);
    var news := FirstNew(cands, seen + {k});
    var all := FirstNew([incident] + cands, seen);
    FirstNewKeepsUnseen(incident, cands, seen);
    assert all == [incident] + news;
    KeysOfCons(incident, news);
    assert KeysOf(all) == {k} + KeysOf(news);
    MarkThenMarkAll(st.sent, k, KeysOf(news));
    assert MarkAll(st.sent[k := true], KeysOf(news)) == MarkAll(st.sent, KeysOf(all));
    assert st.alerted + [incident] + news == st.alerted + all;
  }

  lemma {:induction false} FirstNewSkipsSeen(c: Incident, rest: seq<Incident>, seen: set<string>)
    requires Key(c) in seen
    ensures FirstNew([c] + rest, seen) == FirstNew(rest, seen)
  {
    assert ([c] + rest)[1..] == rest;
  }

  lemma {:induction false} FirstNewKeepsUnseen(c: Incident, rest: seq<Incident>, seen: set<string>)
    requires Key(c) !in seen
    ensures FirstNew([c] + rest, seen) == [c] + FirstNew(rest, seen + {Key(c)})
  {
    assert ([c] + rest)[1..] == rest;
  }

  lemma {:induction false} KeysOfCons(x: Incident, rest: seq<Incident>)
    ensures KeysOf([x] + rest) == {Key(x)} + KeysOf(rest)
  {
    assert forall y :: y in [x] + rest <==> y == x || y in rest;
  }

  /** Marking one key and then a set of keys is marking them all at once. */
  lemma {:induction false} MarkThenMarkAll(sent: map<string, bool>, k: string, keys: set<string>)
    ensures MarkAll(sent[k := true], keys) == MarkAll(sent, {k} + keys)
  {
    var a, b := MarkAll(sent[k := true], keys), MarkAll(sent, {k} + keys);
    assert a.Keys == b.Keys;
    forall key | key in a
      ensures a[key] == b[key]
    {
      if key != k && key !in keys {
        assert a[key] == sent[key];
      }
    }
  }

  /** Marking a key announces it and nothing else. */
  lemma {:induction false} SentKeysAfterMark(sent: map<string, bool>, k: string)
    ensures SentKeys(sent[k := true]) == SentKeys(sent) + {k}
  {
    forall key
      ensures key in SentKeys(sent[k := true]) <==> key in SentKeys(sent) + {k}
    {
      if key == k {
        assert IsSent(sent[k := true], key);
      }
    }
  }

  /* ---------------- properties of the reference ---------------- */

  lemma {:induction false} FirstNewProperties(candidates: seq<Incident>, seen: set<string>)
    ensures var news := FirstNew(candidates, seen);
            && (forall x :: x in news ==> Key(x) !in seen)
            && (forall i, j :: 0 <= i < j < |news| ==> Key(news[i]) != Key(news[j]))
            && (forall x :: x in candidates ==> Key(x) in seen || Key(x) in KeysOf(news))
            && IsSubsequence(news, candidates)
  {
    if candidates != [] {
      var c := candidates[0];
      var rest := candidates[1..];
      if Key(c) in seen {
        FirstNewProperties(rest, seen);
        var news := FirstNew(rest, seen);
        SubsequenceOfTail(news, candidates);
      } else {
        FirstNewProperties(rest, seen + {Key(c)});
        var news := FirstNew(rest, seen + {Key(c)});
        assert FirstNew(candidates, seen) == [c] + news;
        assert ([c] + news)[1..] == news;
        forall i, j | 0 <= i < j < |[c] + news|
          ensures Key(([c] + news)[i]) != Key(([c] + news)[j])
        {
          if i == 0 {
            assert ([c] + news)[j] == news[j - 1];
            assert news[j - 1] in news;
          } else {
            assert ([c] + news)[i] == news[i - 1] && ([c] + news)[j] == news[j - 1];
          }
        }
        assert KeysOf([c] + news) == {Key(c)} + KeysOf(news);
      }
    }
  }

  /** Dropping the first element of `b` keeps `a` a subsequence of `b`. */
  lemma {:induction false} SubsequenceOfTail<T>(a: seq<T>, b: seq<T>)
    requires b != [] && IsSubsequence(a, b[1..])
    ensures IsSubsequence(a, b)
  {
  }

  lemma {:induction false} SubsequenceTransitive<T>(a: seq<T>, b: seq<T>, c: seq<T>)
    requires IsSubsequence(a, b) && IsSubsequence(b, c)
    ensures IsSubsequence(a, c)
    decreases |c|
  {
    if a != [] {
      assert b != [] && c != [];
      if b[0] == c[0] && IsSubsequence(b[1..], c[1..]) {
        if a[0] == b[0] && IsSubsequence(a[1..], b[1..]) {
          SubsequenceTransitive(a[1..], b[1..], c[1..]);
        } else {
          SubsequenceTransitive(a, b[1..], c[1..]);
        }
      } else {
        SubsequenceTransitive(a, b, c[1..]);
      }
    }
  }

  lemma {:induction false} SubsequenceMembers<T>(a: seq<T>, b: seq<T>)
    requires IsSubsequence(a, b)
    ensures forall x :: x in a ==> x in b
    decreases |b|
  {
    if a != [] {
      if a[0] == b[0] && IsSubsequence(a[1..], b[1..]) {
        SubsequenceMembers(a[1..], b[1..]);
        assert forall x :: x in a ==> x == a[0] || x in a[1..];
      } else {
        SubsequenceMembers(a, b[1..]);
      }
    }
  }

  lemma {:induction false} CandidatesProperties(incidents: seq<Incident>, zoneLoaded: seq<bool>)
    requires |zoneLoaded| == |incidents|
    ensures var cands := Candidates(incidents, zoneLoaded);
            && IsSubsequence(cands, incidents)
            && (forall x :: x in cands ==> IsMvc(x) && exists j :: 0 <= j < |incidents| && incidents[j] == x && zoneLoaded[j])
            && (forall j :: 0 <= j < |incidents| && IsMvc(incidents[j]) && zoneLoaded[j] ==> incidents[j] in cands)
  {
    if incidents != [] {
      var rest := Candidates(incidents[1..], zoneLoaded[1..]);
      CandidatesProperties(incidents[1..], zoneLoaded[1..]);
      forall x | x in rest
        ensures exists j :: 0 <= j < |incidents| && incidents[j] == x && zoneLoaded[j]
      {
        var j :| 0 <= j < |incidents[1..]| && incidents[1..][j] == x && zoneLoaded[1..][j];
        assert incidents[j + 1] == x && zoneLoaded[j + 1];
      }
      forall j | 0 <= j < |incidents| && IsMvc(incidents[j]) && zoneLoaded[j]
        ensures incidents[j] in Candidates(incidents, zoneLoaded)
      {
        if j > 0 {
          assert incidents[1..][j - 1] == incidents[j] && zoneLoaded[1..][j - 1] == zoneLoaded[j];
        }
      }
      if IsMvc(incidents[0]) && zoneLoaded[0] {
        assert Candidates(incidents, zoneLoaded) == [incidents[0]] + rest;
        assert ([incidents[0]] + rest)[1..] == rest;
      } else {
        assert Candidates(incidents, zoneLoaded) == rest;
        SubsequenceOfTail(rest, incidents);
      }
    }
  }

  /** Nothing is new when every candidate's key has been seen. */
  lemma {:induction false} FirstNewAllSeen(candidates: seq<Incident>, seen: set<string>)
    requires forall x :: x in candidates ==> Key(x) in seen
    ensures FirstNew(candidates, seen) == []
  {
    if candidates != [] {
      assert candidates[0] in candidates;
      FirstNewAllSeen(candidates[1..], seen);
    }
  }

  /* ---------------- properties of one pass ---------------- */

  /** The incidents one pass notifies, by the reference definition. */
  function Alerts(incidents: seq<Incident>, zoneLoaded: seq<bool>, loaded: map<string, bool>): seq<Incident>
    requires |zoneLoaded| == |incidents|
  {
    FirstNew(Candidates(incidents, zoneLoaded), SentKeys(loaded))
  }

  /**
   * The table one pass leaves, by the reference definition. The pass only adds
   * `true` entries: no key is removed, no entry is set to `false`, a key is
   * sent afterwards exactly when it was sent before or was alerted on, and the
   * entry of every key not alerted on is unchanged.
   */
  function Marked(incidents: seq<Incident>, zoneLoaded: seq<bool>, loaded: map<string, bool>): (after: map<string, bool>)
    requires |zoneLoaded| == |incidents|
    ensures loaded.Keys <= after.Keys
    ensures forall k :: k in after ==> after[k] || (k in loaded && after[k] == loaded[k])
    ensures forall k :: IsSent(after, k) <==>
              IsSent(loaded, k) || k in KeysOf(Alerts(incidents, zoneLoaded, loaded))
    ensures forall k :: k !in KeysOf(Alerts(incidents, zoneLoaded, loaded)) ==>
              (k in after <==> k in loaded) && (k in loaded ==> after[k] == loaded[k])
  {
    MarkAll(loaded, KeysOf(Alerts(incidents, zoneLoaded, loaded)))
  }

  /** From a table that holds nothing, the first alert is the first candidate. */
  lemma {:induction false} AlertsFromEmptyTable(incidents: seq<Incident>, zoneLoaded: seq<bool>)
    requires |zoneLoaded| == |incidents|
    ensures var alerts, cands := Alerts(incidents, zoneLoaded, map[]), Candidates(incidents, zoneLoaded);
            (alerts == [] <==> cands == []) && (alerts != [] ==> alerts[0] == cands[0])
  {
  }

  /**
   * The log lists, in feed order, incidents that are MVCs, that the loaded
   * table did not hold as sent, and whose time-zone lookup succeeded.
   */
  lemma {:induction false} AlertsInFeedOrder(incidents: seq<Incident>, zoneLoaded: seq<bool>, loaded: map<string, bool>)
    requires |zoneLoaded| == |incidents|
    ensures var alerts := Alerts(incidents, zoneLoaded, loaded);
            && IsSubsequence(alerts, incidents)
            && forall x :: x in alerts ==>
                 && IsMvc(x)
                 && !IsSent(loaded, Key(x))
                 && exists j :: 0 <= j < |incidents| && incidents[j] == x && zoneLoaded[j]
  {
    var cands := Candidates(incidents, zoneLoaded);
    var alerts := FirstNew(cands, SentKeys(loaded));
    CandidatesProperties(incidents, zoneLoaded);
    FirstNewProperties(cands, SentKeys(loaded));
    SubsequenceTransitive(alerts, cands, incidents);
    SubsequenceMembers(alerts, cands);
  }

  /** Incidents sharing a key give at most one alert: the logged keys are pairwise distinct. */
  lemma {:induction false} AlertsOncePerKey(incidents: seq<Incident>, zoneLoaded: seq<bool>, loaded: map<string, bool>)
    requires |zoneLoaded| == |incidents|
    ensures var alerts := Alerts(incidents, zoneLoaded, loaded);
            forall i, j :: 0 <= i < j < |alerts| ==> Key(alerts[i]) != Key(alerts[j])
  {
    FirstNewProperties(Candidates(incidents, zoneLoaded), SentKeys(loaded));
  }

  /** Every MVC whose lookup succeeded ends up sent, whether by this pass or an earlier run. */
  lemma {:induction false} MarkedCoversEveryMvc(incidents: seq<Incident>, zoneLoaded: seq<bool>, loaded: map<string, bool>)
    requires |zoneLoaded| == |incidents|
    ensures var after := Marked(incidents, zoneLoaded, loaded);
            forall j :: 0 <= j < |incidents| && IsMvc(incidents[j]) && zoneLoaded[j] ==>
              IsSent(after, Key(incidents[j]))
  {
    CandidatesProperties(incidents, zoneLoaded);
    FirstNewProperties(Candidates(incidents, zoneLoaded), SentKeys(loaded));
  }

  /**
   * A key whose every occurrence in the feed met a failed time-zone lookup is
   * neither notified nor marked.
   */
  lemma {:induction false} FailedLookupsAreSkipped(incidents: seq<Incident>, zoneLoaded: seq<bool>, loaded: map<string, bool>, k: string)
    requires |zoneLoaded| == |incidents|
    requires forall j :: 0 <= j < |incidents| && Key(incidents[j]) == k ==> !zoneLoaded[j]
    ensures k !in KeysOf(Alerts(incidents, zoneLoaded, loaded))
    ensures var after := Marked(incidents, zoneLoaded, loaded);
            (k in after <==> k in loaded) && (k in loaded ==> after[k] == loaded[k])
  {
    AlertsInFeedOrder(incidents, zoneLoaded, loaded);
  }

  /**
   * Running the pass again over the same feed, with the same lookup outcomes,
   * from the table the first run produced alerts on nothing and changes nothing.
   */
  lemma {:induction false} PassIsIdempotent(incidents: seq<Incident>, zoneLoaded: seq<bool>, loaded: map<string, bool>)
    requires |zoneLoaded| == |incidents|
    ensures var after := Marked(incidents, zoneLoaded, loaded);
            Alerts(incidents, zoneLoaded, after) == [] && Marked(incidents, zoneLoaded, after) == after
  {
    var cands := Candidates(incidents, zoneLoaded);
    var after := Marked(incidents, zoneLoaded, loaded);
    assert forall x :: x in cands ==> Key(x) in SentKeys(after) by {
      FirstNewProperties(cands, SentKeys(loaded));
    }
    FirstNewAllSeen(cands, SentKeys(after));
    assert MarkAll(after, KeysOf([])) == after;
  }

  /* ---------------- the loop ---------------- */

  /**
   * The loop of `main` over the fetched incidents. `loaded` is the table read
   * at start; `zoneLoaded[n]` is the outcome of the time-zone lookup made while
   * handling incident `n`. Returns the final table, the number of alerts sent
   * and the incidents handed to the notifier, in order.
   */
  method RunPass(incidents: seq<Incident>, zoneLoaded: seq<bool>, loaded: map<string, bool>)
    returns (sent: map<string, bool>, newAlertsSent: nat, alerted: seq<Incident>)
    requires |zoneLoaded| == |incidents|
    ensures PassState(sent, alerted) == Pass(incidents, zoneLoaded, PassState(loaded, []))
    ensures alerted == Alerts(incidents, zoneLoaded, loaded)
    ensures sent == Marked(incidents, zoneLoaded, loaded)
    ensures newAlertsSent == |alerted|
  {
    sent, newAlertsSent, alerted := loaded, 0, [];
    for n := 0 to |incidents|
      invariant Pass(incidents[n..], zoneLoaded[n..], PassState(sent, alerted))
                  == Pass(incidents, zoneLoaded, PassState(loaded, []))
      invariant newAlertsSent == |alerted|
    {
      assert incidents[n..][1..] == incidents[n + 1..] && zoneLoaded[n..][1..] == zoneLoaded[n + 1..];
      var incident := incidents[n];
      var incidentKey := Key(incident);
      if IsMvc(incident) && !IsSent(sent, incidentKey) {
        if !zoneLoaded[n] {
          continue;
        }
        sent := sent[incidentKey := true];
        alerted := alerted + [incident];
        newAlertsSent := newAlertsSent + 1;
      }
    }
    assert incidents[|incidents|..] == [];
    PassMatchesReference(incidents, zoneLoaded, PassState(loaded, []));
  }
}
