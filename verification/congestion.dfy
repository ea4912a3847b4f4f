/** Turning a speed sample into a congestion value in [0, 1]. */
module Congestion {
  import opened Common

  /** The `flowSegmentData` part of a traffic feed; either field may be missing. */
  datatype FlowSegment = FlowSegment(currentSpeed: Option<real>, freeFlowSpeed: Option<real>)

  /** A whole feed response; `None` when it has no `flowSegmentData` key. */
  type Feed = Option<FlowSegment>

  /** The (current, free-flow) speed pair read from a feed, each missing field defaulting to 0. */
  function SpeedsOf(feed: Feed): (speeds: (real, real))
    ensures feed.None? ==> speeds == (0.0, 0.0)
    ensures feed.Some? ==> speeds.0 == feed.value.currentSpeed.GetOr(0.0)
    ensures feed.Some? ==> speeds.1 == feed.value.freeFlowSpeed.GetOr(0.0)
  {
    var segment := feed.GetOr(FlowSegment(None, None));
    (segment.currentSpeed.GetOr(0.0), segment.freeFlowSpeed.GetOr(0.0))
  }

  /**
   * The fraction of free-flow speed that is lost, clamped to [0, 1];
   * a non-positive free-flow speed fails safe to full congestion.
   */
  function ComputeCongestion(currentSpeed: real, freeFlowSpeed: real): (c: real)
    ensures freeFlowSpeed <= 0.0 ==> c == 1.0
    ensures freeFlowSpeed > 0.0 ==> 0.0 <= c <= 1.0
    ensures freeFlowSpeed > 0.0 && currentSpeed >= freeFlowSpeed ==> c == 0.0
    ensures freeFlowSpeed > 0.0 && currentSpeed <= 0.0 ==> c == 1.0
    ensures 0.0 <= currentSpeed <= freeFlowSpeed ==> c * freeFlowSpeed == freeFlowSpeed - currentSpeed
  {
    if freeFlowSpeed > 0.0 then
      var ratio := (freeFlowSpeed - currentSpeed) / freeFlowSpeed;
      Min(1.0, Max(0.0, ratio))
    else
      1.0
  }

  /** Congestion never rises when the current speed rises at a fixed free-flow speed. */
  lemma CongestionMonotone(slower: real, faster: real, freeFlowSpeed: real)
    requires slower <= faster
    ensures ComputeCongestion(faster, freeFlowSpeed) <= ComputeCongestion(slower, freeFlowSpeed)
  {
    if freeFlowSpeed > 0.0 {
      var d := (freeFlowSpeed - slower) / freeFlowSpeed - (freeFlowSpeed - faster) / freeFlowSpeed;
      assert d == (faster - slower) / freeFlowSpeed;
      assert (faster - slower) / freeFlowSpeed >= 0.0;
    }
  }

  /** A feed with no usable fields reads as zero free-flow speed and so as full congestion. */
  lemma EmptyFeedIsGridlock(feed: Feed)
    requires feed.None? || feed.value.freeFlowSpeed.None?
    ensures ComputeCongestion(SpeedsOf(feed).0, SpeedsOf(feed).1) == 1.0
  {
  }

  /** 10 km/h against a free flow of 60 km/h is five sixths congested. */
  lemma SlowTrafficExample()
    ensures ComputeCongestion(10.0, 60.0) == 5.0 / 6.0
  {
  }

  /** `min(1, max(0, x))`, applied to the online model's raw prediction. */
  function ClampUnit(x: real): (r: real)
    ensures 0.0 <= r <= 1.0
    ensures 0.0 <= x <= 1.0 ==> r == x
    ensures x < 0.0 ==> r == 0.0
    ensures x > 1.0 ==> r == 1.0
  {
    Min(1.0, Max(0.0, x))
  }

  /** The mean of measured and predicted congestion that drives the green-time policy. */
  function WeightedCongestion(current: real, predicted: real): (w: real)
    ensures Min(current, predicted) <= w <= Max(current, predicted)
    ensures w - current == predicted - w
  {
    (current + predicted) / 2.0
  }
}
