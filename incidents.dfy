/**
 * Incident records of the feed, the de-duplication key derived from them and
 * the case-sensitive "MVC" filter.
 */
module Incidents {

  /** One element of the JSON array the feed returns. */
  datatype Incident = Incident(
    jurisdiction: string,
    problem: string,
    address: string,
    lat: real,
    long: real,
    timestamp: string)

  /** The de-duplication identity: the timestamp, one space, the address. */
  function Key(incident: Incident): (k: string)
    ensures |k| == |incident.timestamp| + 1 + |incident.address|
    ensures k[..|incident.timestamp|] == incident.timestamp
    ensures k[|incident.timestamp|] == ' '
    ensures k[|incident.timestamp| + 1..] == incident.address
  {
    incident.timestamp + " " + incident.address
  }

  /**
   * Two incidents whose timestamps have the same length (the feed's fixed
   * "YYYY-MM-DD HH:MM:SS.mmm" format) share a key exactly when they share
   * timestamp and address; every other field is ignored by the identity.
   */
  lemma KeyIdentifiesTimestampAndAddress(a: Incident, b: Incident)
    requires |a.timestamp| == |b.timestamp|
    ensures Key(a) == Key(b) <==> a.timestamp == b.timestamp && a.address == b.address
  {
    if Key(a) == Key(b) {
      var n := |a.timestamp|;
      assert a.timestamp == Key(a)[..n] == Key(b)[..n] == b.timestamp;
      assert a.address == Key(a)[n + 1..] == Key(b)[n + 1..] == b.address;
    }
  }

  /** `sub` occurs in `s` starting at position `i`. */
  predicate OccursAt(s: string, sub: string, i: nat)
  {
    i + |sub| <= |s| && s[i..i + |sub|] == sub
  }

  /** Go's `strings.Contains`: a case-sensitive substring test. */
  function Contains(s: string, sub: string): (r: bool)
    ensures r <==> exists i: nat :: OccursAt(s, sub, i)
    decreases |s|
  {
    if |sub| > |s| then
      assert forall i: nat :: !OccursAt(s, sub, i);
      false
    else if s[..|sub|] == sub then
      assert OccursAt(s, sub, 0);
      true
    else
      assert forall i: nat :: OccursAt(s, sub, i + 1) == OccursAt(s[1..], sub, i);
      assert !OccursAt(s, sub, 0);
      var r := Contains(s[1..], sub);
      assert r ==> exists i: nat :: OccursAt(s, sub, i) by {
        if r {
          var i: nat :| OccursAt(s[1..], sub, i);
          assert OccursAt(s, sub, i + 1);
        }
      }
      assert (exists i: nat :: OccursAt(s, sub, i)) ==> r by {
        if exists i: nat :: OccursAt(s, sub, i) {
          var i: nat :| OccursAt(s, sub, i);
          assert i > 0;
          assert OccursAt(s[1..], sub, i - 1);
        }
      }
      r
  }

  /** The alert filter: the problem text names a motor-vehicle collision. */
  predicate IsMvc(incident: Incident): (r: bool)
    ensures r <==> exists i: nat :: OccursAt(incident.problem, "MVC", i)
  {
    Contains(incident.problem, "MVC")
  }

  /**
   * The filter is case-sensitive: a problem text with no upper-case 'M' in it
   * (say "mvc rollover" or "Vehicle Fire") never passes it.
   */
  lemma NoUpperCaseMNeverMatches(problem: string)
    requires forall i :: 0 <= i < |problem| ==> problem[i] != 'M'
    ensures !Contains(problem, "MVC")
  {
    forall i: nat | i + 3 <= |problem|
      ensures !OccursAt(problem, "MVC", i)
    {
      assert problem[i..i + 3][0] == problem[i] != 'M';
    }
  }
}
