// Splits.py: piecewise-constant split profiles (Profile2D) and the split
// matrix of one in-link, which samples the next link of a vehicle.

/** Link2Split: out-link ids and the split of each, aligned by position. */
datatype Link2Split = Link2Split(linkIds: seq<int>, splits: seq<real>)

/** One out-link's series of split values, as parsed from the scenario. */
type SplitSeries = (int, seq<real>)

/**
 * The series the constructor's loop keeps from the first n entries: the
 * first one given for each out-link id (a later duplicate only prints a
 * warning).
 */
function FirstSeries(entries: seq<SplitSeries>, n: nat): (m: map<int, seq<real>>)
  requires n <= |entries|
  ensures forall i :: 0 <= i < n ==> entries[i].0 in m
{
  if n == 0 then map[]
  else
    var m := FirstSeries(entries, n - 1);
    var last := entries[n - 1];
    if last.0 in m then m else m[last.0 := last.1]
}

/** The out-link ids of the first n entries in the order they were first seen (`linkoutlist`). */
function FirstIds(entries: seq<SplitSeries>, n: nat): seq<int>
  requires n <= |entries|
{
  if n == 0 then []
  else
    var ids := FirstIds(entries, n - 1);
    var last := entries[n - 1];
    if last.0 in FirstSeries(entries, n - 1) then ids else ids + [last.0]
}

/** The out-link order lists each kept id exactly once. */
lemma {:induction false} FirstIdsListsKeys(entries: seq<SplitSeries>, n: nat)
  requires n <= |entries|
  ensures forall i :: 0 <= i < |FirstIds(entries, n)| ==> FirstIds(entries, n)[i] in FirstSeries(entries, n)
  ensures forall k :: k in FirstSeries(entries, n) ==> k in FirstIds(entries, n)
  ensures forall i, j :: 0 <= i < j < |FirstIds(entries, n)| ==> FirstIds(entries, n)[i] != FirstIds(entries, n)[j]
{
  if n > 0 {
    FirstIdsListsKeys(entries, n - 1);
    var ids := FirstIds(entries, n - 1);
    var last := entries[n - 1];
    if last.0 !in FirstSeries(entries, n - 1) {
      var ids' := ids + [last.0];
      assert FirstIds(entries, n) == ids';
      assert last.0 !in ids;
      forall i | 0 <= i < |ids'|
        ensures ids'[i] in FirstSeries(entries, n)
      {
        if i < |ids| {
          assert ids'[i] == ids[i];
        }
      }
      forall k | k in FirstSeries(entries, n)
        ensures k in ids'
      {
        if k != last.0 {
          assert k in ids;
        }
      }
      forall i, j | 0 <= i < j < |ids'|
        ensures ids'[i] != ids'[j]
      {
        assert ids'[i] == ids[i] && ids[i] in ids;
        if j < |ids| {
          assert ids'[j] == ids[j];
        }
      }
    }
  }
}

/** Each kept series is the series of an entry with that id. */
lemma {:induction false} FirstSeriesValues(entries: seq<SplitSeries>, n: nat)
  requires n <= |entries|
  ensures forall k :: k in FirstSeries(entries, n) ==>
    exists i :: 0 <= i < n && entries[i].0 == k && FirstSeries(entries, n)[k] == entries[i].1
{
  if n > 0 {
    FirstSeriesValues(entries, n - 1);
  }
}

/** A duplicate out-link id keeps the series of its first occurrence. */
lemma {:induction false} FirstSeriesKeepsFirst(entries: seq<SplitSeries>, n: nat, i: nat)
  requires i < n <= |entries|
  requires forall j :: 0 <= j < i ==> entries[j].0 != entries[i].0
  ensures FirstSeries(entries, n)[entries[i].0] == entries[i].1
{
  if i < n - 1 {
    FirstSeriesKeepsFirst(entries, n - 1, i);
  } else {
    FirstSeriesValues(entries, n - 1);
  }
}

/** Profile2D: a split series per out-link, all of the same length num_times. */
datatype Profile2D = Profile2D(dt: Option<real>, values: map<int, seq<real>>, linksout: seq<int>, numTimes: int)
{
  /** What the constructor establishes. */
  ghost predicate Valid()
  {
    numTimes >= 1 &&
    (forall i :: 0 <= i < |linksout| ==> linksout[i] in values && |values[linksout[i]]| == numTimes) &&
    (forall k :: k in values ==> k in linksout && |values[k]| == numTimes)
  }
}

/** Every kept series has the same length. */
predicate SameLengths(values: map<int, seq<real>>, n: int)
{
  forall k :: k in values ==> |values[k]| == n
}

/**
 * Profile2D(splitjson, dt): keeps the first series of each out-link id and
 * raises unless all kept series have one common length, which becomes
 * num_times.  Parsing a comma-separated string always yields at least one
 * value, so every series is non-empty.
 */
method MakeProfile2D(entries: seq<SplitSeries>, dt: Option<real>) returns (r: Result<Profile2D>)
  requires forall i :: 0 <= i < |entries| ==> |entries[i].1| >= 1
  ensures r.Ok? <==> |entries| > 0 && SameLengths(FirstSeries(entries, |entries|), |entries[0].1|)
  ensures r.Err? ==> r.error == BadSplitValues
  ensures r.Ok? ==> r.value.Valid() && r.value.dt == dt && r.value.numTimes == |entries[0].1|
  ensures r.Ok? ==> r.value.values == FirstSeries(entries, |entries|) && r.value.linksout == FirstIds(entries, |entries|)
{
  var values: map<int, seq<real>> := map[];
  var linkoutlist: seq<int> := [];
  var i := 0;
  while i < |entries|
    invariant 0 <= i <= |entries|
    invariant values == FirstSeries(entries, i)
    invariant linkoutlist == FirstIds(entries, i)
  {
    var linkoutid := entries[i].0;
    var vals := entries[i].1;
    if linkoutid !in values {
      values := values[linkoutid := vals];
      linkoutlist := linkoutlist + [linkoutid];
    }
    i := i + 1;
  }
  if |entries| == 0 {
    return Err(BadSplitValues);
  }
  FirstSeriesKeepsFirst(entries, |entries|, 0);
  FirstIdsListsKeys(entries, |entries|);
  var n := |entries[0].1|;
  if forall k | k in values :: |values[k]| == n {
    r := Ok(Profile2D(dt, values, linkoutlist, n));
  } else {
    r := Err(BadSplitValues);
  }
}

/**
 * get_ith_value as a value: the out-links with, for each, its series at the
 * clamped index max(0, min(i, num_times - 1)).
 */
function IthValue(p: Profile2D, i: int): (r: Link2Split)
  requires p.Valid()
  ensures r.linkIds == p.linksout && |r.splits| == |p.linksout|
{
  var step := ClampIndex(i, p.numTimes);
  Link2Split(p.linksout, seq(|p.linksout|, k requires 0 <= k < |p.linksout| => p.values[p.linksout[k]][step]))
}

/** Indices before the first or after the last time step read that step's values. */
lemma IthValueClamps(p: Profile2D, i: int)
  requires p.Valid()
  ensures i <= 0 ==> IthValue(p, i) == IthValue(p, 0)
  ensures i >= p.numTimes - 1 ==> IthValue(p, i) == IthValue(p, p.numTimes - 1)
  ensures forall k :: 0 <= k < |p.linksout| ==>
    IthValue(p, i).splits[k] == p.values[p.linksout[k]][ClampIndex(i, p.numTimes)]
{
}

/** get_ith_value: fills the split array one out-link at a time. */
method GetIthValue(p: Profile2D, i: int) returns (r: Link2Split)
  requires p.Valid()
  ensures r == IthValue(p, i)
{
  var step := ClampIndex(i, p.numTimes);
  var splits: seq<real> := [];
  var k := 0;
  while k < |p.linksout|
    invariant 0 <= k <= |p.linksout|
    invariant splits == IthValue(p, i).splits[..k]
  {
    splits := splits + [p.values[p.linksout[k]][step]];
    k := k + 1;
  }
  r := Link2Split(p.linksout, splits);
}

/** The time index get_value_for_time reads: 0 for a static profile, else int(time / dt). */
function TimeIndex(dt: Option<real>, time: real): int
{
  if dt.None? || dt.value == 0.0 then 0 else Trunc(time / dt.value)
}

/** get_value_for_time. */
method GetValueForTime(p: Profile2D, time: real) returns (r: Link2Split)
  requires p.Valid()
  ensures r == IthValue(p, TimeIndex(p.dt, time))
  ensures p.dt.None? || p.dt == Some(0.0) ==> r == IthValue(p, 0)
{
  if p.dt.None? || p.dt.value == 0.0 {
    r := GetIthValue(p, 0);
  } else {
    r := GetIthValue(p, Trunc(time / p.dt.value));
  }
}

/** The index get_change_following computes: int((now + dt) / dt). */
function NextIndex(now: real, dt: real): int
  requires dt != 0.0
{
  Trunc((now + dt) / dt)
}

/** For a non-negative clock and a positive step, the next change lies strictly after now. */
lemma NextChangeIsLater(now: real, dt: real)
  requires now >= 0.0 && dt > 0.0
  ensures NextIndex(now, dt) >= 1
  ensures NextIndex(now, dt) as real * dt > now
{
  var q := (now + dt) / dt;
  calc {
    q;
    now / dt + dt / dt;
    now / dt + 1.0;
  }
  FloorBounds(q);
  assert now / dt >= 0.0;
  assert (NextIndex(now, dt) as real) > now / dt;
  assert (NextIndex(now, dt) as real) * dt > (now / dt) * dt;
}

/** The sum of a list of weights. */
function Sum(p: seq<real>): real
{
  if p == [] then 0.0 else p[0] + Sum(p[1..])
}

/**
 * np.random.choice's draw for a uniform u in [0, 1): the first index whose
 * cumulative weight exceeds u (a right-sided search of the cumulative sums).
 * The chosen weight is always positive.
 */
function InverseCdf(p: seq<real>, u: real): (k: nat)
  requires |p| > 0 && 0.0 <= u < Sum(p)
  ensures k < |p| && p[k] > 0.0
  ensures Sum(p[..k]) <= u < Sum(p[..k + 1])
{
  if u < p[0] then
    assert p[..1][1..] == [];
    0
  else
    assert Sum(p) == p[0] + Sum(p[1..]);
    var k := 1 + InverseCdf(p[1..], u - p[0]);
    assert p[..k][1..] == p[1..][..k - 1];
    assert p[..k + 1][1..] == p[1..][..k];
    k
}

predicate NonNegative(p: seq<real>)
{
  forall i :: 0 <= i < |p| ==> p[i] >= 0.0
}

/**
 * np.random.choice(ids, p=splits) for a uniform draw u: no ids is an error,
 * and so are weights that are not aligned, not non-negative or not summing
 * to one; otherwise an id with positive weight.
 */
function ChooseLink(s: Link2Split, u: real): (r: Result<int>)
  requires 0.0 <= u < 1.0
  ensures |s.linkIds| == 0 ==> r == Err(EmptySequence)
  ensures r.Ok? <==> |s.linkIds| > 0 && |s.splits| == |s.linkIds| && NonNegative(s.splits) && Sum(s.splits) == 1.0
  ensures r.Ok? ==> exists k :: 0 <= k < |s.linkIds| && s.linkIds[k] == r.value && s.splits[k] > 0.0
{
  if |s.linkIds| == 0 then Err(EmptySequence)
  else if |s.splits| != |s.linkIds| || !NonNegative(s.splits) || Sum(s.splits) != 1.0 then Err(BadProbabilities)
  else
    var k := InverseCdf(s.splits, u);
    Ok(s.linkIds[k])
}

/** SplitMatrixProfile: the split profile of one in-link and the split in force. */
class SplitMatrixProfile {
  const dt: Option<real>
  const profile: Profile2D
  var outlink2split: Option<Link2Split>   // None until the first split change

  ghost predicate Valid()
  {
    profile.Valid() && profile.dt == dt
  }

  /** The profile is built with the matrix's own dt. */
  constructor (profile: Profile2D)
    requires profile.Valid()
    ensures Valid() && this.profile == profile && outlink2split.None?
  {
    dt := profile.dt;
    this.profile := profile;
    outlink2split := None;
  }

  /** set_all_current_splits. */
  method SetAllCurrentSplits(newsplit: Link2Split)
    modifies this`outlink2split
    ensures outlink2split == Some(newsplit)
  {
    outlink2split := Some(newsplit);
  }

  /**
   * get_change_following: nothing for a static profile or past the last time
   * step; otherwise the next step's start time and values.
   */
  method GetChangeFollowing(now: real) returns (r: Option<(real, Link2Split)>)
    requires Valid()
    ensures dt.None? || dt == Some(0.0) ==> r.None?
    ensures dt.Some? && dt.value != 0.0 ==>
      (r.None? <==> NextIndex(now, dt.value) >= profile.numTimes)
    ensures r.Some? ==> (dt.Some? && dt.value != 0.0 &&
      r.value == (NextIndex(now, dt.value) as real * dt.value, IthValue(profile, NextIndex(now, dt.value))))
  {
    if dt.None? || dt.value == 0.0 {
      return None;
    }
    var index := Trunc((now + dt.value) / dt.value);
    if index >= profile.numTimes {
      return None;
    }
    var v := GetIthValue(profile, index);
    r := Some((index as real * dt.value, v));
  }

  /** sample_output_link: a draw from the split in force. */
  function SampleOutputLink(u: real): (r: Result<int>)
    requires 0.0 <= u < 1.0
    reads this
    ensures outlink2split.None? ==> r == Err(MissingAttribute)
    ensures outlink2split.Some? ==> r == ChooseLink(outlink2split.value, u)
  {
    if outlink2split.None? then Err(MissingAttribute) else ChooseLink(outlink2split.value, u)
  }

  /** register_next_change: a split change is registered only for a split value. */
  method RegisterNextChange(dispatcher: Dispatcher, time: real, splitvalue: Option<Link2Split>)
    modifies dispatcher`events
    ensures splitvalue.None? ==> dispatcher.events == old(dispatcher.events)
    ensures splitvalue.Some? && time >= dispatcher.currentTime ==>
      dispatcher.Pending() == old(dispatcher.Pending()) + multiset{SplitChangeEvent(time, this, splitvalue.value)}
    ensures splitvalue.Some? && time < dispatcher.currentTime ==> dispatcher.events == old(dispatcher.events)
    ensures old(dispatcher.Valid()) ==> dispatcher.Valid()
  {
    if splitvalue.Some? {
      dispatcher.RegisterEvent(SplitChangeEvent(time, this, splitvalue.value));
    }
  }
}
