/** The stall watermark: sampling a lane counts each sustained full episode exactly once. */
module StallSampler {
  datatype Sample = Sample(full: bool, now: int)

  const DEFAULT_THRESHOLD: int := 5000

  // A zero time is the unset mark.
  datatype Watermark = Watermark(since: int, logged: bool)

  predicate AllFull(ss: seq<Sample>, i: int, k: int)
    requires 0 <= i && k < |ss|
  {
    forall j :: i <= j <= k ==> ss[j].full
  }

  // A maximal full run begins at i.
  predicate RunStarts(ss: seq<Sample>, i: int)
    requires 0 <= i < |ss|
  {
    ss[i].full && (i == 0 || !ss[i-1].full)
  }

  // The maximal full run that begins at i is still going.
  predicate OpenRun(ss: seq<Sample>, i: int)
    requires 0 <= i < |ss|
  {
    RunStarts(ss, i) && AllFull(ss, i, |ss|-1)
  }

  predicate Reaches(ss: seq<Sample>, i: int, threshold: int)
    requires 0 <= i < |ss|
  {
    exists k :: i <= k < |ss| && AllFull(ss, i, k) && ss[k].now - ss[i].now >= threshold
  }

  // The maximal full runs that last at least the threshold, named by where they begin.
  ghost function Episodes(ss: seq<Sample>, threshold: int): set<int> {
    set i | 0 <= i < |ss| && RunStarts(ss, i) && Reaches(ss, i, threshold)
  }

  // One lane's sampler: its watermark and the stall counter.
  class Sampler {
    const threshold: int
    var mark: Watermark
    var stalled: nat
    ghost var seen: seq<Sample>

    ghost predicate Valid() reads this {
      && threshold > 0
      && (forall s :: s in seen ==> s.now != 0)
      && stalled == |Episodes(seen, threshold)|
      && (if seen == [] || !seen[|seen|-1].full then mark == Watermark(0, false)
          else exists i :: 0 <= i < |seen| && OpenRun(seen, i) &&
                           mark == Watermark(seen[i].now, Reaches(seen, i, threshold)))
    }

    /** A threshold of zero or less means the default, five seconds in milliseconds. */
    constructor (configured: int)
      ensures Valid() && seen == [] && stalled == 0
      ensures threshold == if configured <= 0 then DEFAULT_THRESHOLD else configured
    {
      threshold := if configured <= 0 then DEFAULT_THRESHOLD else configured;
      mark := Watermark(0, false);
      stalled := 0;
      seen := [];
      new;
      assert Episodes([], threshold) == {};
    }

    /** Whatever the run of samples, the counter is the number of maximal full runs in it that
        last at least the threshold. No sample has the zero time. */
    method Take(full: bool, now: int)
      requires Valid() && now != 0
      modifies this
      ensures Valid() && seen == old(seen) + [Sample(full, now)]
      ensures stalled == |Episodes(seen, threshold)|
    {
      ghost var before := seen;
      seen := seen + [Sample(full, now)];
      if !full {
        mark := Watermark(0, false);
        NotFullAddsNone(before, now, threshold);
        return;
      }
      if mark.since == 0 {
        mark := Watermark(now, false);
        FirstFullAddsNone(before, now, threshold);
        assert OpenRun(seen, |before|);
        return;
      }
      ghost var i :| 0 <= i < |before| && OpenRun(before, i) &&
        mark == Watermark(before[i].now, Reaches(before, i, threshold));
      MoreFull(before, i, now, threshold);
      assert OpenRun(seen, i);
      if mark.logged || now - mark.since < threshold {
        return;
      }
      stalled := stalled + 1;
      mark := mark.(logged := true);
    }
  }

  lemma ReachesAppend(ss: seq<Sample>, s: Sample, i: int, threshold: int)
    requires 0 <= i < |ss|
    ensures Reaches(ss + [s], i, threshold) <==>
      Reaches(ss, i, threshold) ||
      (s.full && AllFull(ss, i, |ss|-1) && s.now - ss[i].now >= threshold)
  {
    var tt := ss + [s];
    forall k | i <= k < |ss| ensures AllFull(tt, i, k) <==> AllFull(ss, i, k) {
      if AllFull(tt, i, k) { forall j | i <= j <= k ensures ss[j].full { assert tt[j].full; } }
    }
    if Reaches(tt, i, threshold) {
      var k :| i <= k < |tt| && AllFull(tt, i, k) && tt[k].now - tt[i].now >= threshold;
      if k < |ss| { assert AllFull(ss, i, k) && ss[k].now - ss[i].now >= threshold; }
      else { forall j | i <= j <= |ss|-1 ensures ss[j].full { assert tt[j].full; } assert tt[k].full; }
    }
    if Reaches(ss, i, threshold) {
      var k :| i <= k < |ss| && AllFull(ss, i, k) && ss[k].now - ss[i].now >= threshold;
      assert AllFull(tt, i, k) && tt[k].now - tt[i].now >= threshold;
    }
    if s.full && AllFull(ss, i, |ss|-1) && s.now - ss[i].now >= threshold {
      assert AllFull(tt, i, |ss|) && tt[|ss|].now - tt[i].now >= threshold;
    }
  }

  lemma NotFullAddsNone(ss: seq<Sample>, now: int, threshold: int)
    ensures Episodes(ss + [Sample(false, now)], threshold) == Episodes(ss, threshold)
  {
    forall i | 0 <= i < |ss| ensures
      Reaches(ss + [Sample(false, now)], i, threshold) == Reaches(ss, i, threshold) &&
      RunStarts(ss + [Sample(false, now)], i) == RunStarts(ss, i)
    { ReachesAppend(ss, Sample(false, now), i, threshold); }
  }

  lemma FirstFullAddsNone(ss: seq<Sample>, now: int, threshold: int)
    requires threshold > 0 && (ss == [] || !ss[|ss|-1].full)
    ensures var tt := ss + [Sample(true, now)];
      Episodes(tt, threshold) == Episodes(ss, threshold) && !Reaches(tt, |ss|, threshold)
  {
    var tt := ss + [Sample(true, now)];
    forall i | 0 <= i < |ss| ensures Reaches(tt, i, threshold) == Reaches(ss, i, threshold) &&
      RunStarts(tt, i) == RunStarts(ss, i)
    {
      ReachesAppend(ss, Sample(true, now), i, threshold);
      assert !AllFull(ss, i, |ss|-1) by { assert !ss[|ss|-1].full; }
    }
  }

  // The later of two open runs would begin inside the earlier one.
  lemma OneOpenRun(ss: seq<Sample>, i: int, j: int)
    requires 0 <= i < |ss| && 0 <= j < |ss|
    ensures OpenRun(ss, i) && OpenRun(ss, j) ==> i == j
  {
    if i < j { assert ss[j-1].full ==> !RunStarts(ss, j); }
    if j < i { assert ss[i-1].full ==> !RunStarts(ss, i); }
  }

  // Another full sample counts a new episode exactly when the open run newly reaches.
  lemma MoreFull(ss: seq<Sample>, i: int, now: int, threshold: int)
    requires 0 <= i < |ss| && OpenRun(ss, i)
    ensures var tt := ss + [Sample(true, now)];
      OpenRun(tt, i) &&
      Reaches(tt, i, threshold) == (Reaches(ss, i, threshold) || now - ss[i].now >= threshold) &&
      |Episodes(tt, threshold)| == |Episodes(ss, threshold)| +
        if Reaches(tt, i, threshold) && !Reaches(ss, i, threshold) then 1 else 0
  {
    var tt := ss + [Sample(true, now)];
    forall j | 0 <= j < |ss| ensures
      RunStarts(tt, j) == RunStarts(ss, j) &&
      (j != i && RunStarts(ss, j) ==> Reaches(tt, j, threshold) == Reaches(ss, j, threshold))
    {
      ReachesAppend(ss, Sample(true, now), j, threshold);
      OneOpenRun(ss, i, j);
    }
    ReachesAppend(ss, Sample(true, now), i, threshold);
    assert ss[|ss|-1].full;
    assert !RunStarts(tt, |ss|);
    if Reaches(tt, i, threshold) && !Reaches(ss, i, threshold) {
      assert Episodes(tt, threshold) == Episodes(ss, threshold) + {i};
    } else {
      assert Episodes(tt, threshold) == Episodes(ss, threshold);
    }
  }
}
