/**
 * The retraining schedule of `check_and_retrain_model`. The model type is a
 * parameter: fitting is done elsewhere and only its outcome matters here.
 */
module Retraining {
  import opened Common

  /**
   * The controller's model together with the persisted retrain timestamp;
   * `stamp` is `None` when the timestamp file is absent or does not parse.
   */
  datatype Schedule<M> = Schedule(model: M, stamp: Option<real>)

  /** The last retrain time as read back: an absent stamp, or one that does not parse as a number, counts as time 0. */
  function LastRetrain(stamp: Option<real>): real {
    stamp.GetOr(0.0)
  }

  /** A retrain is due once strictly more than `interval` seconds have passed. */
  predicate RetrainDue(now: real, last: real, interval: real) {
    now - last > interval
  }

  /**
   * One retrain check at time `now`. `refit` is what fitting on the history
   * produced, `None` when there was no history to fit. When due, the model is
   * replaced only by an actual refit, and the stamp is written either way;
   * otherwise nothing changes.
   */
  function CheckAndRetrain<M>(s: Schedule<M>, now: real, interval: real, refit: Option<M>): (r: Schedule<M>)
    ensures RetrainDue(now, LastRetrain(s.stamp), interval) ==> r.stamp == Some(now) && LastRetrain(r.stamp) == now
    ensures RetrainDue(now, LastRetrain(s.stamp), interval) && refit.Some? ==> r.model == refit.value
    ensures refit.None? ==> r.model == s.model
    ensures !RetrainDue(now, LastRetrain(s.stamp), interval) ==> r == s
  {
    if RetrainDue(now, LastRetrain(s.stamp), interval) then
      Schedule(refit.GetOr(s.model), Some(now))
    else
      s
  }

  /** A stamp one second older than the interval triggers a retrain; one second younger does not. */
  lemma RetrainBoundary<M>(s: Schedule<M>, now: real, interval: real, refit: Option<M>)
    ensures CheckAndRetrain(Schedule(s.model, Some(now - interval - 1.0)), now, interval, refit).stamp == Some(now)
    ensures CheckAndRetrain(Schedule(s.model, Some(now - interval + 1.0)), now, interval, refit)
      == Schedule(s.model, Some(now - interval + 1.0))
    ensures CheckAndRetrain(Schedule(s.model, Some(now - interval)), now, interval, refit)
      == Schedule(s.model, Some(now - interval))
  {
  }

  /** With a non-negative interval, a second check at the same instant does nothing. */
  lemma RecheckIsNoOp<M>(s: Schedule<M>, now: real, interval: real, refit: Option<M>, refit2: Option<M>)
    requires interval >= 0.0
    ensures var once := CheckAndRetrain(s, now, interval, refit);
      CheckAndRetrain(once, now, interval, refit2) == once
  {
  }

  /** The recorded retrain time never moves backwards when the interval is non-negative. */
  lemma StampNeverRegresses<M>(s: Schedule<M>, now: real, interval: real, refit: Option<M>)
    requires interval >= 0.0
    ensures LastRetrain(CheckAndRetrain(s, now, interval, refit).stamp) >= LastRetrain(s.stamp)
  {
  }
}
