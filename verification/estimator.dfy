/** The map->odom estimator: two buffers of timed poses that are pruned behind their newest sample, and the transform
    computed from them. Everything is compared with the whole, never pruned history of accepted samples. */
module Estimator {
  import opened Frames
  import opened Poses

  datatype Sample = Sample(t: real, pose: Pose)

  /** interpolate(p0, t0, p1, t1, t): Poses.Interpolate with the square root the code takes. */
  type Lerp = (Pose, real, Pose, real, real) -> Pose

  function Last(s: seq<Sample>): Sample
    requires s != []
  {
    s[|s| - 1]
  }

  ghost predicate Increasing(s: seq<Sample>) {
    forall i, j :: 0 <= i < j < |s| ==> s[i].t < s[j].t
  }

  /** The history with one more sample, unless it is out of order or repeated. */
  function Accept(s: seq<Sample>, x: Sample): seq<Sample> {
    if s != [] && x.t <= Last(s).t then s else s + [x]
  }

  function Prune(s: seq<Sample>, limit: real): seq<Sample> {
    if s != [] && s[0].t < limit then Prune(s[1..], limit) else s
  }

  /** One arrival at a buffer that keeps span behind its newest sample. */
  function Push(s: seq<Sample>, x: Sample, span: real): seq<Sample> {
    if s != [] && x.t <= Last(s).t then s else Prune(s + [x], x.t - span)
  }

  /** What a buffer should hold: the samples of the history within span of the newest. */
  function Recent(s: seq<Sample>, span: real): seq<Sample> {
    if s == [] then [] else Prune(s, Last(s).t - span)
  }

  /** The index of the first sample from i on that is not before t. */
  function FirstFrom(s: seq<Sample>, t: real, i: nat): (k: nat)
    requires i < |s| && t <= Last(s).t
    ensures i <= k < |s| && t <= s[k].t
    ensures forall j :: i <= j < k ==> s[j].t < t
    decreases |s| - i
  {
    if s[i].t >= t then i else FirstFrom(s, t, i + 1)
  }

  /** The pose at time t: None outside the samples. */
  function At(s: seq<Sample>, t: real, lerp: Lerp): Option<Pose> {
    if s == [] || t < s[0].t || t > Last(s).t then None
    else
      var k := FirstFrom(s, t, 0);
      if s[k].t == t then Some(s[k].pose)
      else Some(lerp(s[k - 1].pose, s[k - 1].t, s[k].pose, s[k].t, t))
  }

  class OdomBuffer {
    const span: real
    var items: seq<Sample>

    constructor (span: real)
      ensures this.span == span && items == []
    {
      this.span := span;
      items := [];
    }

    method Add(x: Sample)
      modifies this
      ensures items == Push(old(items), x, span)
    {
      if items != [] && x.t <= Last(items).t {
        return;
      }
      items := items + [x];
      while items != [] && items[0].t < x.t - span
        invariant Prune(items, x.t - span) == Push(old(items), x, span)
        decreases |items|
      {
        items := items[1..];
      }
    }

    function Newest(): Option<real>
      reads this
    {
      if items == [] then None else Some(Last(items).t)
    }

    method PoseAt(t: real, lerp: Lerp) returns (r: Option<Pose>)
      ensures r == At(items, t, lerp)
    {
      if items == [] || t < items[0].t || t > Last(items).t {
        return None;
      }
      var prev := items[0];
      var i := 0;
      while i < |items|
        invariant 0 <= i <= |items|
        invariant prev == if i == 0 then items[0] else items[i - 1]
        invariant i < |items| && FirstFrom(items, t, 0) == FirstFrom(items, t, i)
      {
        if items[i].t >= t {
          return if items[i].t == t then Some(items[i].pose)
                 else Some(lerp(prev.pose, prev.t, items[i].pose, items[i].t, t));
        }
        prev := items[i];
        i := i + 1;
      }
      return None;
    }
  }

  // ----- the estimator

  datatype State = State(odom: seq<Sample>, ekf: seq<Sample>, mapOdom: Option<Pose>, mapOdomTime: Option<real>)

  datatype Event = Odometry(x: Sample) | EkfPose(x: Sample) | Reset

  const EMPTY := State([], [], None, None)

  function Usable(s: seq<Sample>, limit: real): seq<Sample> {
    if s == [] then []
    else (if s[0].t <= limit then [s[0]] else []) + Usable(s[1..], limit)
  }

  function Compute(st: State, x: Sample, lerp: Lerp): State {
    match At(st.odom, x.t, lerp)
    case None => st
    case Some(odomBase) => st.(mapOdom := Some(MapOdom(x.pose, odomBase)), mapOdomTime := Some(x.t))
  }

  function AfterOdometry(st: State, x: Sample, span: real, lerp: Lerp): State {
    var st1 := st.(odom := Push(st.odom, x, span));
    if st1.odom == [] then st1
    else
      var usable := Usable(st1.ekf, Last(st1.odom).t);
      if usable != [] && (st1.mapOdomTime.None? || Last(usable).t > st1.mapOdomTime.value)
      then Compute(st1, Last(usable), lerp)
      else st1
  }

  function AfterEkf(st: State, x: Sample, span: real, lerp: Lerp): State {
    if st.ekf != [] && x.t <= Last(st.ekf).t then st
    else
      var st1 := st.(ekf := Push(st.ekf, x, span));
      if st1.odom != [] && x.t <= Last(st1.odom).t then Compute(st1, x, lerp) else st1
  }

  function Next(st: State, e: Event, span: real, lerp: Lerp): State {
    match e
    case Odometry(x) => AfterOdometry(st, x, span, lerp)
    case EkfPose(x) => AfterEkf(st, x, span, lerp)
    case Reset => EMPTY
  }

  class MapOdomEstimator {
    var odom: OdomBuffer
    var ekf: seq<Sample>
    var mapOdom: Option<Pose>
    var mapOdomTime: Option<real>
    const span: real
    const lerp: Lerp

    ghost predicate Valid()
      reads this
    {
      span >= 0.0 && odom.span == span
    }

    ghost function View(): State
      reads this, odom
    {
      State(odom.items, ekf, mapOdom, mapOdomTime)
    }

    constructor (span: real, lerp: Lerp)
      requires span >= 0.0
      ensures Valid() && fresh(odom) && this.span == span && this.lerp == lerp && View() == EMPTY
    {
      this.span := span;
      this.lerp := lerp;
      odom := new OdomBuffer(span);
      ekf := [];
      mapOdom := None;
      mapOdomTime := None;
    }

    method OnOdometry(x: Sample)
      requires Valid()
      modifies this, odom
      ensures Valid() && odom == old(odom)
      ensures View() == Next(old(View()), Odometry(x), span, lerp)
    {
      odom.Add(x);
      PushKeeps(old(odom.items), x, span);
      var usable := Usable(ekf, odom.Newest().value);
      if usable != [] && (mapOdomTime.None? || Last(usable).t > mapOdomTime.value) {
        ComputeAt(Last(usable));
      }
    }

    method OnEkfPose(x: Sample)
      requires Valid()
      modifies this
      ensures Valid() && odom == old(odom)
      ensures View() == Next(old(View()), EkfPose(x), span, lerp)
    {
      if ekf != [] && x.t <= Last(ekf).t {
        return;
      }
      ekf := ekf + [x];
      while ekf != [] && ekf[0].t < x.t - span
        invariant Prune(ekf, x.t - span) == Push(old(ekf), x, span)
        invariant odom == old(odom) && mapOdom == old(mapOdom) && mapOdomTime == old(mapOdomTime)
        decreases |ekf|
      {
        ekf := ekf[1..];
      }
      if odom.Newest().Some? && x.t <= odom.Newest().value {
        ComputeAt(x);
      }
    }

    method ComputeAt(x: Sample)
      modifies this`mapOdom, this`mapOdomTime
      ensures View() == Compute(old(View()), x, lerp)
    {
      var odomBase := odom.PoseAt(x.t, lerp);
      if odomBase.None? {
        return;
      }
      mapOdom := Some(Compose(x.pose, Inverse(odomBase.value)));
      mapOdomTime := Some(x.t);
    }

    method DoReset()
      requires Valid()
      modifies this
      ensures Valid() && fresh(odom)
      ensures View() == Next(old(View()), Reset, span, lerp)
    {
      odom := new OdomBuffer(odom.span);
      ekf := [];
      mapOdom := None;
      mapOdomTime := None;
    }
  }

  lemma PushKeeps(s: seq<Sample>, x: Sample, span: real)
    requires span >= 0.0
    ensures Push(s, x, span) != []
  {
    var _ := PruneIsSuffix(s + [x], x.t - span);
  }

  // ----- what pruning keeps

  /** Pruning drops exactly the leading samples before the limit, if the last one is not before it. */
  lemma {:induction false} PruneIsSuffix(s: seq<Sample>, limit: real) returns (k: nat)
    requires s != [] && Last(s).t >= limit
    ensures k < |s| && Prune(s, limit) == s[k..] && s[k].t >= limit && forall i :: 0 <= i < k ==> s[i].t < limit
  {
    k := 0;
    if s[0].t < limit {
      var rest := s[1..];
      var j := PruneIsSuffix(rest, limit);
      k := j + 1;
      assert forall i :: 0 <= i < |rest| ==> rest[i] == s[i + 1];
      assert rest[j..] == s[k..];
    }
  }

  lemma {:induction false} PruneSkips(s: seq<Sample>, k: nat, limit: real)
    requires k <= |s| && forall i :: 0 <= i < k ==> s[i].t < limit
    ensures Prune(s[k..], limit) == Prune(s, limit)
  {
    if k > 0 {
      PruneSkips(s[1..], k - 1, limit);
      assert s[1..][k - 1..] == s[k..];
    } else {
      assert s[k..] == s;
    }
  }

  lemma AcceptIncreases(h: seq<Sample>, x: Sample)
    requires Increasing(h)
    ensures Increasing(Accept(h, x))
  {
  }

  /** The history's buffer is a tail of it that starts at the first sample within span of the newest. */
  lemma RecentIsTail(h: seq<Sample>, span: real) returns (k: nat)
    requires h != [] && span >= 0.0
    ensures k < |h| && Recent(h, span) == h[k..] && Recent(h, span) != [] && Last(Recent(h, span)) == Last(h)
    ensures h[k].t >= Last(h).t - span && forall i :: 0 <= i < k ==> h[i].t < Last(h).t - span
  {
    k := PruneIsSuffix(h, Last(h).t - span);
  }

  /** A pruned buffer always holds what the whole history would leave of itself. */
  lemma RecentOfAccept(h: seq<Sample>, x: Sample, span: real)
    requires Increasing(h) && span >= 0.0
    ensures Push(Recent(h, span), x, span) == Recent(Accept(h, x), span)
  {
    if h != [] {
      var k := RecentIsTail(h, span);
      if x.t > Last(h).t {
        assert h[k..] + [x] == (h + [x])[k..];
        PruneSkips(h + [x], k, x.t - span);
      }
    }
  }

  // ----- looking a pose up

  lemma FirstFromUnique(s: seq<Sample>, t: real, k: nat)
    requires k < |s| && t <= s[k].t && t <= Last(s).t && forall j :: 0 <= j < k ==> s[j].t < t
    ensures FirstFrom(s, t, 0) == k
  {
  }

  /** The samples before the newest one that is not after t play no part. */
  lemma AtOfTail(s: seq<Sample>, k: nat, t: real, lerp: Lerp)
    requires Increasing(s) && k < |s| && s[k].t <= t
    ensures At(s[k..], t, lerp) == At(s, t, lerp)
  {
    var tail := s[k..];
    if t <= Last(s).t {
      var i := FirstFrom(tail, t, 0);
      assert forall j :: 0 <= j < k + i ==> s[j].t < t by {
        assert forall j :: k <= j < k + i ==> s[j] == tail[j - k];
      }
      FirstFromUnique(s, t, k + i);
    }
  }

  /** A sample that arrives later does not change a pose already known. */
  lemma AtOfLonger(s: seq<Sample>, x: Sample, t: real, lerp: Lerp)
    requires s != [] && t <= Last(s).t
    ensures At(Accept(s, x), t, lerp) == At(s, t, lerp)
  {
    if x.t > Last(s).t && t >= s[0].t {
      var i := FirstFrom(s, t, 0);
      var l := s + [x];
      assert l[i] == s[i] && forall j :: 0 <= j < i ==> l[j] == s[j];
      FirstFromUnique(l, t, i);
    }
  }

  /** The loop of at() is the piecewise interpolation: the sample itself at its time, the interpolation of its two
      neighbours between them, and nothing outside. */
  lemma AtIsPiecewise(s: seq<Sample>, t: real, lerp: Lerp)
    requires Increasing(s)
    ensures forall i :: 0 <= i < |s| && s[i].t == t ==> At(s, t, lerp) == Some(s[i].pose)
    ensures forall i :: 0 < i < |s| && s[i - 1].t < t < s[i].t ==>
      At(s, t, lerp) == Some(lerp(s[i - 1].pose, s[i - 1].t, s[i].pose, s[i].t, t))
    ensures At(s, t, lerp).None? <==> (forall i :: 0 <= i < |s| ==> s[i].t > t) || forall i :: 0 <= i < |s| ==> s[i].t < t
  {
    forall i | 0 <= i < |s| && s[i].t == t
      ensures At(s, t, lerp) == Some(s[i].pose)
    {
      FirstFromUnique(s, t, i);
    }
    forall i | 0 < i < |s| && s[i - 1].t < t < s[i].t
      ensures At(s, t, lerp) == Some(lerp(s[i - 1].pose, s[i - 1].t, s[i].pose, s[i].t, t))
    {
      FirstFromUnique(s, t, i);
    }
  }

  // ----- whole runs

  function Run(events: seq<Event>, span: real, lerp: Lerp): State {
    if events == [] then EMPTY
    else Next(Run(events[..|events| - 1], span, lerp), events[|events| - 1], span, lerp)
  }

  /** Every odometry sample accepted since the last reset. */
  function OdomHistory(events: seq<Event>): seq<Sample> {
    if events == [] then []
    else
      var h := OdomHistory(events[..|events| - 1]);
      match events[|events| - 1]
      case Odometry(x) => Accept(h, x)
      case EkfPose(_) => h
      case Reset => []
  }

  /** Every EKF pose accepted since the last reset. */
  function EkfHistory(events: seq<Event>): seq<Sample> {
    if events == [] then []
    else
      var h := EkfHistory(events[..|events| - 1]);
      match events[|events| - 1]
      case Odometry(_) => h
      case EkfPose(x) => Accept(h, x)
      case Reset => []
  }

  /** The published transform is the EKF pose of that time composed with the inverse of the odometry of that time. */
  ghost predicate Explained(st: State, h: seq<Sample>, e: seq<Sample>, lerp: Lerp) {
    && (st.mapOdom.Some? <==> st.mapOdomTime.Some?)
    && (st.mapOdomTime.Some? ==>
          && h != [] && st.mapOdomTime.value <= Last(h).t
          && exists i :: 0 <= i < |e| && Yields(e[i], st, h, lerp))
  }

  ghost predicate Yields(x: Sample, st: State, h: seq<Sample>, lerp: Lerp) {
    && st.mapOdom.Some? && st.mapOdomTime == Some(x.t)
    && At(h, x.t, lerp).Some? && st.mapOdom.value == MapOdom(x.pose, At(h, x.t, lerp).value)
  }

  /** A kept EKF pose the odometry has reached was used, or a newer one was, or it is older than the kept odometry. */
  ghost predicate Served(st: State) {
    forall i :: 0 <= i < |st.ekf| && st.odom != [] && st.ekf[i].t <= Last(st.odom).t
      ==> (st.mapOdomTime.Some? && st.ekf[i].t <= st.mapOdomTime.value) || st.ekf[i].t < st.odom[0].t
  }

  ghost predicate Inv(st: State, h: seq<Sample>, e: seq<Sample>, span: real, lerp: Lerp) {
    && Increasing(h) && Increasing(e)
    && st.odom == Recent(h, span) && st.ekf == Recent(e, span)
    && Explained(st, h, e, lerp) && Served(st)
  }

  lemma UsableIsPrefix(s: seq<Sample>, limit: real) returns (n: nat)
    requires Increasing(s)
    ensures n <= |s| && Usable(s, limit) == s[..n] && (forall i :: 0 <= i < n ==> s[i].t <= limit)
    ensures forall i :: n <= i < |s| ==> s[i].t > limit
  {
    if s == [] {
      n := 0;
    } else if s[0].t <= limit {
      var m := UsableIsPrefix(s[1..], limit);
      n := m + 1;
      assert s[..n] == [s[0]] + s[1..][..m];
      assert forall i :: 0 < i < |s| ==> s[i] == s[1..][i - 1];
    } else {
      n := 0;
      var m := UsableIsPrefix(s[1..], limit);
      assert forall i :: 0 < i < |s| ==> s[i] == s[1..][i - 1];
    }
  }

  lemma ComputeKeeps(st: State, h: seq<Sample>, e: seq<Sample>, i: nat, span: real, lerp: Lerp)
    requires span >= 0.0 && Increasing(h) && h != [] && st.odom == Recent(h, span)
    requires i < |e| && e[i].t <= Last(h).t && Explained(st, h, e, lerp) && st.odom != []
    ensures Explained(Compute(st, e[i], lerp), h, e, lerp)
    ensures (Compute(st, e[i], lerp) == st && e[i].t < st.odom[0].t) || Compute(st, e[i], lerp).mapOdomTime == Some(e[i].t)
  {
    var k := RecentIsTail(h, span);
    if e[i].t >= st.odom[0].t {
      AtOfTail(h, k, e[i].t, lerp);
      assert Yields(e[i], Compute(st, e[i], lerp), h, lerp);
    }
  }

  lemma LongerHistoryExplains(st: State, h: seq<Sample>, e: seq<Sample>, x: Sample, lerp: Lerp)
    requires Explained(st, h, e, lerp) && Increasing(h)
    ensures Explained(st, Accept(h, x), e, lerp) && Explained(st, h, Accept(e, x), lerp)
  {
    if st.mapOdomTime.Some? {
      var i :| 0 <= i < |e| && Yields(e[i], st, h, lerp);
      AtOfLonger(h, x, e[i].t, lerp);
      assert Yields(e[i], st, Accept(h, x), lerp);
      assert Accept(e, x)[i] == e[i];
    }
  }

  /** Using the newest EKF pose the odometry has reached serves all the others. */
  lemma ServedBy(st: State, st1: State, x: Sample)
    requires st.odom != [] && st1.odom == st.odom && st1.ekf == st.ekf
    requires forall i :: 0 <= i < |st.ekf| && st.ekf[i].t <= Last(st.odom).t ==> st.ekf[i].t <= x.t
    requires (st1 == st && x.t < st.odom[0].t) || st1.mapOdomTime == Some(x.t)
    ensures Served(st1)
  {
  }

  lemma OdometryKeeps(st: State, h: seq<Sample>, e: seq<Sample>, x: Sample, span: real, lerp: Lerp)
    requires Inv(st, h, e, span, lerp) && span >= 0.0
    ensures Inv(AfterOdometry(st, x, span, lerp), Accept(h, x), e, span, lerp)
  {
    AcceptIncreases(h, x);
    RecentOfAccept(h, x, span);
    LongerHistoryExplains(st, h, e, x, lerp);
    SameEnd(Accept(h, x), span);
    var m := 0;
    if e != [] {
      m := RecentIsTail(e, span);
    }
    NewOdometryKeeps(st.(odom := Push(st.odom, x, span)), Accept(h, x), e, m, span, lerp);
  }

  lemma NewOdometryKeeps(st: State, h: seq<Sample>, e: seq<Sample>, m: nat, span: real, lerp: Lerp)
    requires span >= 0.0 && Increasing(h) && st.odom == Recent(h, span) && Explained(st, h, e, lerp) && h != []
    requires Increasing(e) && m <= |e| && st.ekf == e[m..]
    requires st.odom != [] && Last(st.odom) == Last(h)
    ensures var usable := Usable(st.ekf, Last(h).t);
      var st1 := if usable != [] && (st.mapOdomTime.None? || Last(usable).t > st.mapOdomTime.value)
                 then Compute(st, Last(usable), lerp) else st;
      Explained(st1, h, e, lerp) && Served(st1) && st1.odom == st.odom && st1.ekf == st.ekf
  {
    hide Recent, At;
    var n := UsableIsPrefix(st.ekf, Last(h).t);
    if n > 0 {
      var x := e[m + n - 1];
      assert Last(Usable(st.ekf, Last(h).t)) == x;
      hide Explained;
      if st.mapOdomTime.None? || x.t > st.mapOdomTime.value {
        ComputeKeeps(st, h, e, m + n - 1, span, lerp);
        ServedBy(st, Compute(st, x, lerp), x);
      }
    }
  }

  lemma PushIsTail(s: seq<Sample>, x: Sample, span: real) returns (k: nat)
    requires span >= 0.0 && (s == [] || x.t > Last(s).t)
    ensures k <= |s| && Push(s, x, span) == s[k..] + [x]
  {
    k := PruneIsSuffix(s + [x], x.t - span);
    assert (s + [x])[k..] == s[k..] + [x];
  }

  lemma EkfKeeps(st: State, h: seq<Sample>, e: seq<Sample>, x: Sample, span: real, lerp: Lerp)
    requires Inv(st, h, e, span, lerp) && span >= 0.0
    ensures Inv(AfterEkf(st, x, span, lerp), h, Accept(e, x), span, lerp)
  {
    AcceptIncreases(e, x);
    RecentOfAccept(e, x, span);
    LongerHistoryExplains(st, h, e, x, lerp);
    SameEnd(e, span);
    SameEnd(h, span);
    if e == [] || x.t > Last(e).t {
      var k := PushIsTail(st.ekf, x, span);
      NewEkfKeeps(st, h, e, x, k, span, lerp);
    }
  }

  lemma SameEnd(h: seq<Sample>, span: real)
    requires span >= 0.0
    ensures Recent(h, span) == [] <==> h == []
    ensures h != [] ==> Last(Recent(h, span)) == Last(h)
    ensures Increasing(h) ==> Increasing(Recent(h, span))
  {
    if h != [] {
      var _ := RecentIsTail(h, span);
    }
  }

  lemma NewEkfKeeps(st: State, h: seq<Sample>, e: seq<Sample>, x: Sample, k: nat, span: real, lerp: Lerp)
    requires span >= 0.0 && Increasing(h) && st.odom == Recent(h, span) && Served(st) && Explained(st, h, e + [x], lerp)
    requires k <= |st.ekf| && Push(st.ekf, x, span) == st.ekf[k..] + [x]
    requires Increasing(st.ekf) && (st.ekf == [] || x.t > Last(st.ekf).t)
    requires h == [] <==> st.odom == []
    requires h != [] ==> Last(st.odom) == Last(h)
    ensures Explained(AfterEkf(st, x, span, lerp), h, e + [x], lerp) && Served(AfterEkf(st, x, span, lerp))
    ensures AfterEkf(st, x, span, lerp).odom == st.odom && AfterEkf(st, x, span, lerp).ekf == Push(st.ekf, x, span)
  {
    hide Push, Recent, At;
    var st1 := st.(ekf := st.ekf[k..] + [x]);
    assert forall i :: 0 <= i < |st1.ekf| - 1 ==> st1.ekf[i] == st.ekf[k + i];
    assert Explained(st1, h, e + [x], lerp);
    if h != [] && x.t <= Last(h).t {
      assert (e + [x])[|e|] == x;
      ComputeKeeps(st1, h, e + [x], |e|, span, lerp);
      ServedBy(st1, Compute(st1, x, lerp), x);
    }
  }

  /** In every run the buffers are what the whole histories leave of themselves, the published transform is computed from
      the whole histories, and every kept EKF pose the odometry has reached was served. */
  lemma {:induction false} RunKeeps(events: seq<Event>, span: real, lerp: Lerp)
    requires span >= 0.0
    ensures Inv(Run(events, span, lerp), OdomHistory(events), EkfHistory(events), span, lerp)
  {
    if events != [] {
      var before := events[..|events| - 1];
      RunKeeps(before, span, lerp);
      match events[|events| - 1]
      case Odometry(x) => OdometryKeeps(Run(before, span, lerp), OdomHistory(before), EkfHistory(before), x, span, lerp);
      case EkfPose(x) => EkfKeeps(Run(before, span, lerp), OdomHistory(before), EkfHistory(before), x, span, lerp);
      case Reset =>
    }
  }

  /** Between two resets the time of the published transform only moves forward, and a new transform has a later time. */
  lemma TimeMovesForward(events: seq<Event>, e: Event, span: real, lerp: Lerp)
    requires span >= 0.0 && e != Reset
    ensures var before, after := Run(events, span, lerp), Run(events + [e], span, lerp);
      && (before.mapOdomTime.Some? ==> after.mapOdomTime.Some? && after.mapOdomTime.value >= before.mapOdomTime.value)
      && (after.mapOdom != before.mapOdom && before.mapOdomTime.Some? && after.mapOdomTime.Some?
          ==> after.mapOdomTime.value > before.mapOdomTime.value)
  {
    hide At, Push, Recent;
    RunKeeps(events, span, lerp);
    assert (events + [e])[..|events|] == events;
    assert Run(events + [e], span, lerp) == Next(Run(events, span, lerp), e, span, lerp);
    hide Run;
    var st, ekf := Run(events, span, lerp), EkfHistory(events);
    SameEnd(ekf, span);
    if st.mapOdomTime.Some? {
      var i :| 0 <= i < |ekf| && Yields(ekf[i], st, OdomHistory(events), lerp);
      assert ekf[i].t <= Last(ekf).t;
    }
  }

  ghost predicate AllUnit(s: seq<Sample>) {
    forall i :: 0 <= i < |s| ==> Unit(s[i].pose.q)
  }

  /** Interpolating between two unit poses gives a unit pose. */
  ghost predicate KeepsUnit(lerp: Lerp) {
    forall p0: Pose, t0: real, p1: Pose, t1: real, t: real ::
      Unit(p0.q) && Unit(p1.q) && t0 <= t <= t1 ==> Unit(lerp(p0, t0, p1, t1, t).q)
  }

  lemma AtIsUnit(s: seq<Sample>, t: real, lerp: Lerp)
    requires AllUnit(s) && KeepsUnit(lerp) && At(s, t, lerp).Some?
    ensures Unit(At(s, t, lerp).value.q)
  {
    hide Unit;
    var k := FirstFrom(s, t, 0);
    if s[k].t != t {
      assert k > 0 && s[k - 1].t <= t <= s[k].t;
    }
  }

  /** math.sqrt: exact on what is not negative. */
  ghost predicate IsSquareRoot(sqrt: real -> real) {
    forall v: real :: v >= 0.0 ==> sqrt(v) >= 0.0 && sqrt(v) * sqrt(v) == v
  }

  /** interpolate() with its square root.  Where the code would divide by zero, the first pose stands for the exception. */
  function Interpolated(sqrt: real -> real, p0: Pose, t0: real, p1: Pose, t1: real, t: real): Pose {
    var root := sqrt(Norm2(Chord(p0.q, p1.q, Poses.Fraction(t0, t1, t))));
    if root == 0.0 then p0 else Interpolate(p0, t0, p1, t1, t, root)
  }

  function LerpOf(sqrt: real -> real): Lerp {
    (p0: Pose, t0: real, p1: Pose, t1: real, t: real) => Interpolated(sqrt, p0, t0, p1, t1, t)
  }

  /** The code's interpolation keeps unit rotations, and does not divide by zero between them. */
  lemma InterpolateKeepsUnit(sqrt: real -> real)
    requires IsSquareRoot(sqrt)
    ensures KeepsUnit(LerpOf(sqrt))
    ensures forall p0: Pose, t0: real, p1: Pose, t1: real, t: real :: Unit(p0.q) && Unit(p1.q) && t0 <= t <= t1 ==>
      sqrt(Norm2(Chord(p0.q, p1.q, Poses.Fraction(t0, t1, t)))) > 0.0
  {
    forall p0: Pose, t0: real, p1: Pose, t1: real, t: real | Unit(p0.q) && Unit(p1.q) && t0 <= t <= t1
      ensures Unit(LerpOf(sqrt)(p0, t0, p1, t1, t).q)
      ensures sqrt(Norm2(Chord(p0.q, p1.q, Poses.Fraction(t0, t1, t)))) > 0.0
    {
      InterpolatedIsUnit(sqrt, p0, t0, p1, t1, t);
    }
  }

  lemma InterpolatedIsUnit(sqrt: real -> real, p0: Pose, t0: real, p1: Pose, t1: real, t: real)
    requires IsSquareRoot(sqrt) && Unit(p0.q) && Unit(p1.q) && t0 <= t <= t1
    ensures Unit(Interpolated(sqrt, p0, t0, p1, t1, t).q)
    ensures sqrt(Norm2(Chord(p0.q, p1.q, Poses.Fraction(t0, t1, t)))) > 0.0
  {
    hide *;
    var norm := Norm2(Chord(p0.q, p1.q, Poses.Fraction(t0, t1, t)));
    FractionInside(t0, t1, t);
    ChordIsLong(p0.q, p1.q, Poses.Fraction(t0, t1, t));
    RootOf(sqrt, norm);
    InterpolateIsUnit(p0, t0, p1, t1, t, sqrt(norm));
    InterpolatedIs(sqrt, p0, t0, p1, t1, t);
  }

  lemma RootOf(sqrt: real -> real, v: real)
    requires IsSquareRoot(sqrt) && v >= 0.0
    ensures sqrt(v) >= 0.0 && sqrt(v) * sqrt(v) == v
  {
  }

  lemma InterpolatedIs(sqrt: real -> real, p0: Pose, t0: real, p1: Pose, t1: real, t: real)
    ensures var root := sqrt(Norm2(Chord(p0.q, p1.q, Poses.Fraction(t0, t1, t))));
      root != 0.0 ==> Interpolated(sqrt, p0, t0, p1, t1, t) == Interpolate(p0, t0, p1, t1, t, root)
  {
    hide Norm2, Chord, Poses.Fraction, Interpolate;
  }

  /** Between two neighbouring samples the odometry that is looked up is linear in the time, and its rotation a unit one. */
  lemma AtIsLinear(s: seq<Sample>, t: real, sqrt: real -> real, i: nat) returns (root: real)
    requires IsSquareRoot(sqrt) && Increasing(s) && AllUnit(s) && 0 < i < |s| && s[i - 1].t < t < s[i].t
    ensures At(s, t, LerpOf(sqrt)).Some? && root > 0.0
    ensures var a, b, r := s[i - 1], s[i], At(s, t, LerpOf(sqrt)).value;
      && Linear(a.pose.p.x, a.t, b.pose.p.x, b.t, r.p.x, t) && Linear(a.pose.p.y, a.t, b.pose.p.y, b.t, r.p.y, t)
      && Linear(a.pose.p.z, a.t, b.pose.p.z, b.t, r.p.z, t) && Unit(r.q)
      && var q0, q1 := a.pose.q, Near(a.pose.q, b.pose.q);
         && LinearTimes(q0.x, a.t, q1.x, b.t, r.q.x, t, root) && LinearTimes(q0.y, a.t, q1.y, b.t, r.q.y, t, root)
         && LinearTimes(q0.z, a.t, q1.z, b.t, r.q.z, t, root) && LinearTimes(q0.w, a.t, q1.w, b.t, r.q.w, t, root)
  {
    hide At, Interpolated, Interpolate, Norm2, Chord, Near, Poses.Fraction, Linear, LinearTimes, IsSquareRoot;
    var a, b := s[i - 1], s[i];
    AtIsPiecewise(s, t, LerpOf(sqrt));
    assert Unit(a.pose.q) && Unit(b.pose.q);
    root := sqrt(Norm2(Chord(a.pose.q, b.pose.q, Poses.Fraction(a.t, b.t, t))));
    hide Unit;
    InterpolatedIsUnit(sqrt, a.pose, a.t, b.pose, b.t, t);
    InterpolatedIs(sqrt, a.pose, a.t, b.pose, b.t, t);
    InterpolateIsLinear(a.pose, a.t, b.pose, b.t, t, root);
  }

  /** With unit quaternions, the published transform carries the odometry of its time, taken from the whole history, back
      to an EKF pose that was received with that time. */
  lemma EkfPoseIsRestored(events: seq<Event>, span: real, lerp: Lerp)
    requires span >= 0.0 && KeepsUnit(lerp) && AllUnit(OdomHistory(events)) && AllUnit(EkfHistory(events))
    ensures var st := Run(events, span, lerp);
      st.mapOdomTime.Some? ==>
        && st.mapOdom.Some?
        && exists i :: 0 <= i < |EkfHistory(events)| && Restores(EkfHistory(events)[i], st, OdomHistory(events), lerp)
  {
    RunKeeps(events, span, lerp);
    var st, h, ekf := Run(events, span, lerp), OdomHistory(events), EkfHistory(events);
    if st.mapOdomTime.Some? {
      var i :| 0 <= i < |ekf| && Yields(ekf[i], st, h, lerp);
      hide Run, Recent, Unit, MapOdom, Compose, At;
      AtIsUnit(h, ekf[i].t, lerp);
      PoseComesBackIff(ekf[i].pose, At(h, ekf[i].t, lerp).value);
      assert Restores(ekf[i], st, h, lerp);
    }
  }

  ghost predicate Restores(x: Sample, st: State, h: seq<Sample>, lerp: Lerp) {
    && st.mapOdom.Some? && st.mapOdomTime == Some(x.t) && At(h, x.t, lerp).Some?
    && Compose(st.mapOdom.value, At(h, x.t, lerp).value) == x.pose
  }

  /** The same for the code's own interpolation. */
  lemma EkfPoseIsRestoredByInterpolate(events: seq<Event>, span: real, sqrt: real -> real)
    requires span >= 0.0 && IsSquareRoot(sqrt) && AllUnit(OdomHistory(events)) && AllUnit(EkfHistory(events))
    ensures var st := Run(events, span, LerpOf(sqrt));
      st.mapOdomTime.Some? ==>
        && st.mapOdom.Some?
        && exists i :: 0 <= i < |EkfHistory(events)| && Restores(EkfHistory(events)[i], st, OdomHistory(events), LerpOf(sqrt))
  {
    InterpolateKeepsUnit(sqrt);
    hide *;
    EkfPoseIsRestored(events, span, LerpOf(sqrt));
  }
}
