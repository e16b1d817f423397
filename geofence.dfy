/**
 * The geofence monitor of `GeofenceCheck` (src/components/geofence.tsx).
 *
 * The React state `geofence`, `status`, `lastNotified` and `distance` is a class whose
 * methods are the three callbacks that write it: the handler of the fetched geofence,
 * the success callback of `setupGeofence`, and the `watchPosition` callback. The
 * haversine distance and the clock are inputs of the watch callback; the backend
 * requests are left out, except that the callback reports whether it sent the alert.
 */
module Geofence {
  import opened Common

  /** Radius of the safe zone, in metres. */
  const Radius: real := 200.0
  /** Minimum time between two alerts, in milliseconds (10 minutes). */
  const Cooldown: int := 10 * 60 * 1000

  datatype Coordinates = Coordinates(lat: real, lng: real)

  /** The `Status` union: "not-set" | "set" | "outside". */
  datatype Status = NotSet | Set | Outside

  /** A snapshot of the monitor's state. */
  datatype Monitor = Monitor(
    geofence: Option<Coordinates>,
    status: Status,
    lastNotified: Option<int>,
    distance: Option<real>)

  /** `!lastNotified`: null, and also a stored 0, mean "never notified". */
  predicate NeverNotified(lastNotified: Option<int>)
  {
    lastNotified.None? || lastNotified.value == 0
  }

  /** The rate limit: may an alert be sent at time `now`? */
  predicate AlertDue(lastNotified: Option<int>, now: int)
  {
    NeverNotified(lastNotified) || now - lastNotified.value > Cooldown
  }

  function Initial(): (m: Monitor)
    ensures m.status == NotSet && m.geofence == None
  {
    Monitor(None, NotSet, None, None)
  }

  /** A geofence becomes known (fetched from storage or captured here). */
  function Establish(m: Monitor, center: Coordinates): (r: Monitor)
    ensures r.geofence == Some(center) && r.status == Set && r.distance == Some(0.0)
    ensures r.lastNotified == m.lastNotified
  {
    m.(geofence := Some(center), status := Set, distance := Some(0.0))
  }

  /** The fetch handler: only a non-null geofence in the response changes anything. */
  function Loaded(m: Monitor, fetched: Option<Coordinates>): (r: Monitor)
    ensures fetched.None? ==> r == m
    ensures fetched.Some? ==> r.status == Set && r.distance == Some(0.0) && r.geofence == fetched
  {
    match fetched
    case None => m
    case Some(c) => Establish(m, c)
  }

  /**
   * One position sample at distance `dist` from the centre, taken at time `now`.
   * Returns the new state and whether an alert was sent.
   */
  function Sample(m: Monitor, dist: real, now: int): (r: (Monitor, bool))
    ensures m.geofence.None? ==> r == (m, false)
    ensures m.geofence.Some? ==> r.0.geofence == m.geofence && r.0.distance == Some(dist)
    ensures m.geofence.Some? ==> (r.0.status == Outside <==> dist > Radius)
    ensures m.geofence.Some? ==> (r.0.status == Set <==> dist <= Radius)
    ensures r.1 <==> m.geofence.Some? && dist > Radius && AlertDue(m.lastNotified, now)
    ensures r.0.lastNotified == if r.1 then Some(now) else m.lastNotified
  {
    if m.geofence.None? then (m, false)
    else
      var m' := m.(distance := Some(dist));
      if dist > Radius then
        if AlertDue(m.lastNotified, now) then
          (m'.(status := Outside, lastNotified := Some(now)), true)
        else
          (m'.(status := Outside), false)
      else
        (m'.(status := Set), false)
  }

  /** A position sample: a distance from the centre and a time stamp. */
  datatype Reading = Reading(dist: real, now: int)

  /**
   * Feeds the samples in order; returns the final state and the times at which
   * alerts were sent.
   */
  function Run(m: Monitor, rs: seq<Reading>): (Monitor, seq<int>)
  {
    if rs == [] then (m, [])
    else
      var prev := Run(m, rs[..|rs| - 1]);
      var last := rs[|rs| - 1];
      var next := Sample(prev.0, last.dist, last.now);
      (next.0, if next.1 then prev.1 + [last.now] else prev.1)
  }

  predicate Positive(rs: seq<Reading>)
  {
    forall i :: 0 <= i < |rs| ==> rs[i].now > 0
  }

  /** Feeding one more sample extends the run by one step. */
  lemma RunSnoc(m: Monitor, rs: seq<Reading>, r: Reading)
    ensures Run(m, rs + [r]).0 == Sample(Run(m, rs).0, r.dist, r.now).0
    ensures Run(m, rs + [r]).1 ==
      if Sample(Run(m, rs).0, r.dist, r.now).1 then Run(m, rs).1 + [r.now] else Run(m, rs).1
  {
    assert (rs + [r])[..|rs|] == rs;
  }

  /**
   * What a run remembers: the last alert it sent, or the stored time stamp if
   * it sent none; the geofence never changes.
   */
  lemma {:induction false} RunRemembersLastAlert(m: Monitor, rs: seq<Reading>)
    ensures Run(m, rs).0.geofence == m.geofence
    ensures Run(m, rs).0.lastNotified ==
      if Run(m, rs).1 == [] then m.lastNotified else Some(Run(m, rs).1[|Run(m, rs).1| - 1])
  {
    if rs != [] {
      var init, last := rs[..|rs| - 1], rs[|rs| - 1];
      assert rs == init + [last];
      RunRemembersLastAlert(m, init);
      RunSnoc(m, init, last);
    }
  }

  /** Every alert of a run is the time stamp of one of its samples. */
  lemma {:induction false} AlertsComeFromSamples(m: Monitor, rs: seq<Reading>)
    ensures forall k :: 0 <= k < |Run(m, rs).1| ==> exists i :: 0 <= i < |rs| && rs[i].now == Run(m, rs).1[k]
  {
    if rs != [] {
      var init, last := rs[..|rs| - 1], rs[|rs| - 1];
      assert rs == init + [last];
      AlertsComeFromSamples(m, init);
      RunSnoc(m, init, last);
      var alerts := Run(m, init).1;
      var all := Run(m, rs).1;
      assert all == alerts || all == alerts + [last.now];
      forall k | 0 <= k < |all|
        ensures exists i :: 0 <= i < |rs| && rs[i].now == all[k]
      {
        if k < |alerts| {
          var i :| 0 <= i < |init| && init[i].now == alerts[k];
          assert rs[i].now == all[k];
        } else {
          assert rs[|rs| - 1].now == all[k];
        }
      }
    } else {
      assert Run(m, rs).1 == [];
    }
  }

  /**
   * The rate limit over a whole stream of samples with positive time stamps,
   * in whatever order they come: any two consecutive alerts are more than ten
   * minutes apart, and the first is more than ten minutes after an earlier
   * recorded alert.
   */
  lemma {:induction false} AlertsAreSpaced(m: Monitor, rs: seq<Reading>)
    requires Positive(rs)
    ensures Spaced(Run(m, rs).1)
    ensures SpacedFromStored(m.lastNotified, Run(m, rs).1)
  {
    if rs != [] {
      var init, last := rs[..|rs| - 1], rs[|rs| - 1];
      assert rs == init + [last];
      AlertsAreSpaced(m, init);
      AlertStep(m, init, last);
    } else {
      assert Run(m, rs).1 == [];
    }
  }

  /** The first alert is more than a cooldown after a recorded earlier one. */
  predicate SpacedFromStored(stored: Option<int>, alerts: seq<int>)
  {
    stored.Some? && stored.value > 0 && alerts != [] ==> alerts[0] - stored.value > Cooldown
  }

  /** One more sample, no earlier than the others, keeps the alerts spaced. */
  lemma AlertStep(m: Monitor, init: seq<Reading>, last: Reading)
    requires Spaced(Run(m, init).1) && SpacedFromStored(m.lastNotified, Run(m, init).1)
    requires Positive(init)
    ensures Spaced(Run(m, init + [last]).1) && SpacedFromStored(m.lastNotified, Run(m, init + [last]).1)
  {
    RunRemembersLastAlert(m, init);
    LastAlertPositive(m, init);
    RunSnoc(m, init, last);
    var prev := Run(m, init);
    var next := Sample(prev.0, last.dist, last.now);
    SpacingStep(prev.1, m.lastNotified, prev.0.lastNotified, last.now, next.1);
  }

  /** Every alert of a run over positive time stamps is positive; so is the last. */
  lemma LastAlertPositive(m: Monitor, rs: seq<Reading>)
    requires Positive(rs)
    ensures Run(m, rs).1 != [] ==> Run(m, rs).1[|Run(m, rs).1| - 1] > 0
  {
    AlertsComeFromSamples(m, rs);
    var alerts := Run(m, rs).1;
    if alerts != [] {
      var i :| 0 <= i < |rs| && rs[i].now == alerts[|alerts| - 1];
      assert rs[i].now > 0;
    }
  }

  /**
   * The step on the alert list alone: with `lastNotified` the last alert (or
   * the stored stamp before the first), an alert sent only when due keeps the
   * list spaced.
   */
  lemma SpacingStep(alerts: seq<int>, stored: Option<int>, lastNotified: Option<int>, t: int, sent: bool)
    requires Spaced(alerts) && SpacedFromStored(stored, alerts)
    requires lastNotified == if alerts == [] then stored else Some(alerts[|alerts| - 1])
    requires alerts != [] ==> alerts[|alerts| - 1] > 0
    requires sent ==> AlertDue(lastNotified, t)
    ensures Spaced(if sent then alerts + [t] else alerts)
    ensures SpacedFromStored(stored, if sent then alerts + [t] else alerts)
  {
    if sent {
      SpacedSnoc(alerts, t);
      if alerts != [] {
        assert (alerts + [t])[0] == alerts[0];
      }
    }
  }

  /** More than a cooldown between consecutive alerts. */
  predicate Spaced(alerts: seq<int>)
  {
    forall k :: 0 < k < |alerts| ==> alerts[k] - alerts[k - 1] > Cooldown
  }

  lemma SpacedSnoc(alerts: seq<int>, t: int)
    requires Spaced(alerts)
    requires alerts != [] ==> t - alerts[|alerts| - 1] > Cooldown
    ensures Spaced(alerts + [t])
  {
  }

  /**
   * The scenario of the cooldown: after an alert at `t1`, a second sample outside
   * within ten minutes sends nothing, and a third one after the cooldown sends a
   * second alert.
   */
  lemma OneAlertPerCooldown(m: Monitor, d1: real, d2: real, d3: real, t1: int, t2: int, t3: int)
    requires m.geofence.Some? && NeverNotified(m.lastNotified)
    requires d1 > Radius && d2 > Radius && d3 > Radius
    requires 0 < t1 <= t2 <= t1 + Cooldown < t3
    ensures Run(m, [Reading(d1, t1), Reading(d2, t2), Reading(d3, t3)]).1 == [t1, t3]
  {
    var r1, r2, r3 := Reading(d1, t1), Reading(d2, t2), Reading(d3, t3);
    RunSnoc(m, [], r1);
    assert [] + [r1] == [r1];
    var s1 := Sample(m, d1, t1);
    assert Run(m, []) == (m, []);
    assert s1.1;
    assert Run(m, [r1]).1 == [] + [t1] == [t1];
    assert Run(m, [r1]).0 == s1.0;
    RunSnoc(m, [r1], r2);
    assert [r1] + [r2] == [r1, r2];
    assert s1.0.lastNotified == Some(t1);
    var s2 := Sample(s1.0, d2, t2);
    assert !s2.1 && s2.0.lastNotified == Some(t1);
    assert Run(m, [r1, r2]) == (s2.0, [t1]);
    RunSnoc(m, [r1, r2], r3);
    assert [r1, r2] + [r3] == [r1, r2, r3];
  }

  /** The React component's state, updated by its callbacks. */
  class GeofenceCheck {
    var geofence: Option<Coordinates>
    var status: Status
    var lastNotified: Option<int>
    var distance: Option<real>

    function View(): Monitor
      reads this
    {
      Monitor(geofence, status, lastNotified, distance)
    }

    /** The initial `useState` values. */
    constructor ()
      ensures View() == Initial()
    {
      geofence := None;
      status := NotSet;
      lastNotified := None;
      distance := None;
    }

    /** The handler of the `/geofence/get` response. */
    method OnFetched(fetched: Option<Coordinates>)
      modifies this
      ensures fetched.None? ==> View() == old(View())
      ensures fetched.Some? ==>
        geofence == fetched && status == Set && distance == Some(0.0) && lastNotified == old(lastNotified)
    {
      if fetched.Some? {
        geofence := fetched;
        status := Set;
        distance := Some(0.0);
      }
    }

    /** The success callback of `setupGeofence`: the current position becomes the centre. */
    method SetupGeofence(latitude: real, longitude: real)
      modifies this
      ensures View() == Establish(old(View()), Coordinates(latitude, longitude))
    {
      geofence := Some(Coordinates(latitude, longitude));
      status := Set;
      distance := Some(0.0);
    }

    /**
     * The `watchPosition` callback; it is only registered while a geofence exists.
     * `dist` is the haversine distance to the centre and `now` is `Date.now()`.
     */
    method OnPosition(dist: real, now: int) returns (alertSent: bool)
      modifies this
      ensures (View(), alertSent) == Sample(old(View()), dist, now)
    {
      alertSent := false;
      if geofence.None? {
        return;
      }
      distance := Some(dist);
      if dist > Radius {
        status := Outside;
        if lastNotified.None? || lastNotified.value == 0 || now - lastNotified.value > Cooldown {
          alertSent := true;
          lastNotified := Some(now);
        }
      } else {
        status := Set;
      }
    }
  }
}
