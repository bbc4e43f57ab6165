/**
 The heartbeat of a claimed job: after every interval it looks at the cancel flag, stops if the flag is
 set, and otherwise renews the lease. When does it keep the lease of a worker open until the job ends?
 */
module Heartbeat {
  import opened Common
  import opened JobQueue

  /**
   Worker `w` has job `id` from its claim at `at[0]` to the completion at `to`, and `at` lists its beats:
   the events that set the lease, each for `lease` seconds from its own time.
   */
  ghost predicate Beating(events: seq<Event>, clock: seq<Time>, id: JobId, w: WorkerId, at: seq<nat>, to: nat,
                          lease: nat)
  {
    && |clock| == |events| && to < |events| && at != [] && Finishes(events[to], id)
    && (forall k :: 0 <= k < |at| ==> at[k] < to)
    && (forall k, l :: 0 <= k < l < |at| ==> at[k] < at[l])
    && (forall k :: 0 <= k < |at| ==> Leases(events[at[k]], id, w) && events[at[k]].leasedUntil == clock[at[k]] + lease)
    && (forall i :: at[0] <= i < to && Leases(events[i], id, w) ==> i in at)
    && (forall i :: at[0] <= i < to ==> !Finishes(events[i], id))
  }

  /** The time from a beat to the next one, or to the end of the job. */
  function Gap(clock: seq<Time>, at: seq<nat>, to: nat, k: nat): int
    requires k < |at| && to < |clock| && forall j :: 0 <= j < |at| ==> at[j] < to
  {
    (if k + 1 < |at| then clock[at[k+1]] else clock[to]) - clock[at[k]]
  }

  /** Whatever comes after a beat and counts as acting in time is the next beat or comes later. */
  lemma NextActIsNextBeat(events: seq<Event>, clock: seq<Time>, id: JobId, w: WorkerId, at: seq<nat>, to: nat,
                          lease: nat, k: nat, n: nat)
    requires Beating(events, clock, id, w, at, to, lease) && k < |at|
    requires at[k] < n <= to && (Leases(events[n], id, w) || Finishes(events[n], id))
    ensures (if k + 1 < |at| then at[k+1] else to) <= n
  {
    if n < to {
      assert n in at;
      var j :| 0 <= j < |at| && at[j] == n;
      assert k < j;
    }
  }

  /** A worker is punctual exactly when no two beats, and not the last beat and the end, are more than a lease apart. */
  lemma PunctualIff(events: seq<Event>, clock: seq<Time>, id: JobId, w: WorkerId, at: seq<nat>, to: nat, lease: nat)
    requires ClockOk(events, clock) && Beating(events, clock, id, w, at, to, lease)
    ensures Punctual(events, clock, id, w, at[0], to) <==> forall k :: 0 <= k < |at| ==> Gap(clock, at, to, k) <= lease
  {
    if Punctual(events, clock, id, w, at[0], to) {
      forall k | 0 <= k < |at| ensures Gap(clock, at, to, k) <= lease {
        GapOfPunctual(events, clock, id, w, at, to, lease, k);
      }
    }
    if forall k :: 0 <= k < |at| ==> Gap(clock, at, to, k) <= lease {
      forall i | at[0] <= i < to && Leases(events[i], id, w)
        ensures exists n: nat :: ActsInTime(events, clock, id, w, i, n, to, events[i].leasedUntil)
      {
        var k :| 0 <= k < |at| && at[k] == i;
        var n := if k + 1 < |at| then at[k+1] else to;
        assert Gap(clock, at, to, k) <= lease;
        assert ActsInTime(events, clock, id, w, i, n, to, events[i].leasedUntil);
      }
    }
  }

  lemma GapOfPunctual(events: seq<Event>, clock: seq<Time>, id: JobId, w: WorkerId, at: seq<nat>, to: nat,
                      lease: nat, k: nat)
    requires ClockOk(events, clock) && Beating(events, clock, id, w, at, to, lease)
    requires Punctual(events, clock, id, w, at[0], to) && k < |at|
    ensures Gap(clock, at, to, k) <= lease
  {
    var i := at[k];
    var next := if k + 1 < |at| then at[k+1] else to;
    assert Leases(events[i], id, w) && at[0] <= i;
    if clock[to] > events[i].leasedUntil {
      var n: nat :| ActsInTime(events, clock, id, w, i, n, to, events[i].leasedUntil);
      NextActIsNextBeat(events, clock, id, w, at, to, lease, k, n);
      assert clock[next] <= clock[n];
    } else {
      assert clock[next] <= clock[to];
    }
  }

  /** The loop's own timing: a beat comes an interval, and some delay, after the one before. */
  ghost predicate Timed(clock: seq<Time>, at: seq<nat>, to: nat, interval: nat, delays: seq<nat>)
    requires to < |clock| && forall j :: 0 <= j < |at| ==> at[j] < to
  {
    && |delays| == |at|
    && forall k :: 0 <= k < |at| - 1 ==> Gap(clock, at, to, k) == interval + delays[k]
  }

  /** While no cancel is seen the job ends before the beat after the last one would have come. */
  ghost predicate Unstopped(clock: seq<Time>, at: seq<nat>, to: nat, interval: nat, delays: seq<nat>)
    requires to < |clock| && at != [] && |delays| == |at| && forall j :: 0 <= j < |at| ==> at[j] < to
  {
    Gap(clock, at, to, |at| - 1) <= interval + delays[|at|-1]
  }

  /** If no cancel stops the heartbeat and interval and delay stay within the lease, the worker is punctual. */
  lemma HeartbeatIsPunctual(events: seq<Event>, clock: seq<Time>, id: JobId, w: WorkerId, at: seq<nat>, to: nat,
                            interval: nat, lease: nat, delays: seq<nat>)
    requires ClockOk(events, clock) && Beating(events, clock, id, w, at, to, lease)
    requires Timed(clock, at, to, interval, delays) && Unstopped(clock, at, to, interval, delays)
    requires forall k :: 0 <= k < |delays| ==> interval + delays[k] <= lease
    ensures Punctual(events, clock, id, w, at[0], to)
  {
    PunctualIff(events, clock, id, w, at, to, lease);
  }

  /**
   In general, and so for a job whose cancel stopped the heartbeat after its last beat: punctual exactly when
   the delays stayed within the lease and the job ends within the lease of that beat.
   */
  lemma HeartbeatPunctualIff(events: seq<Event>, clock: seq<Time>, id: JobId, w: WorkerId, at: seq<nat>, to: nat,
                             interval: nat, lease: nat, delays: seq<nat>)
    requires ClockOk(events, clock) && Beating(events, clock, id, w, at, to, lease)
    requires Timed(clock, at, to, interval, delays)
    ensures Punctual(events, clock, id, w, at[0], to) <==>
            (forall k :: 0 <= k < |at| - 1 ==> interval + delays[k] <= lease) && clock[to] <= clock[at[|at|-1]] + lease
  {
    PunctualIff(events, clock, id, w, at, to, lease);
    if (forall k :: 0 <= k < |at| - 1 ==> interval + delays[k] <= lease) && clock[to] <= clock[at[|at|-1]] + lease {
      forall k | 0 <= k < |at| ensures Gap(clock, at, to, k) <= lease {
        if k < |at| - 1 { assert interval + delays[k] <= lease; }
      }
    }
    if forall k :: 0 <= k < |at| ==> Gap(clock, at, to, k) <= lease {
      assert Gap(clock, at, to, |at| - 1) <= lease;
      forall k | 0 <= k < |at| - 1 ensures interval + delays[k] <= lease { assert Gap(clock, at, to, k) <= lease; }
    }
  }

  /** A job cancelled before its first beat, which sees the request and renews once more. */
  lemma LastBeat(id: JobId, a: WorkerId, p: Policy) returns (h: History, j: Job)
    ensures Legal(h, p) && |h.events| == 4 && h.tables[4] == map[id := j]
    ensures h.events[1].Claim? && h.events[1].worker == a && h.events[1].leasedUntil == p.leaseDurationSecs
    ensures CancelVisible(h.tables[3], id)
    ensures h.events[3] == Renew(id, a, p.heartbeatIntervalSecs, p.heartbeatIntervalSecs + p.leaseDurationSecs)
    ensures forall i :: 0 <= i < 4 ==> !Finishes(h.events[i], id)
    ensures j.status == Running && j.worker == Some(a) && j.attempts == 1
    ensures j.leasedUntil == Some(p.heartbeatIntervalSecs + p.leaseDurationSecs)
  {
    var beat, lease := p.heartbeatIntervalSecs, p.leaseDurationSecs;
    var h2, j2 := FirstClaim(id, a, lease, p);
    var j3 := After(id, j2, FlagCancel(id), p);
    j := After(id, j3, Renew(id, a, beat, beat + lease), p);
    var h3 := ExtendOneRow(h2, id, j2, FlagCancel(id), j3, p);
    h := ExtendOneRow(h3, id, j3, Renew(id, a, beat, beat + lease), j, p);
  }

  /**
   The job the loop fails: no beat follows the one that saw the cancel. If the work goes on past that
   lease, the job is handed to another worker while the first still runs it.
   */
  lemma CancelledJobIsHandedOut(id: JobId, a: WorkerId, b: WorkerId, p: Policy) returns (h: History)
    requires p.Limit() >= 2
    ensures Legal(h, p) && |h.events| == 6 && CancelVisible(h.tables[3], id)
    ensures h.events[1].Claim? && h.events[1].worker == a && h.events[1].leasedUntil == p.leaseDurationSecs
    ensures h.events[3] == Renew(id, a, p.heartbeatIntervalSecs, p.heartbeatIntervalSecs + p.leaseDurationSecs)
    ensures forall i :: 0 <= i < 6 ==> !Finishes(h.events[i], id)
    ensures Held(h.tables[4], id, a, 1) && Held(h.tables[6], id, b, 2)
  {
    var h4, j4 := LastBeat(id, a, p);
    var late := p.heartbeatIntervalSecs + p.leaseDurationSecs + 1;
    var e4, e5 := Recover(late), Claim(Some(id), b, late, late, late + p.leaseDurationSecs);
    var j5 := After(id, j4, e4, p);
    var h5 := ExtendOneRow(h4, id, j4, e4, j5, p);
    h := ExtendOneRow(h5, id, j5, e5, After(id, j5, e5, p), p);
  }
}
