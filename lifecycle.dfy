/**
 * The sensor lifecycle engine: the two constants of the domain, the
 * truthiness test the app applies to a stored start time, and the derived
 * boundaries and status of one tracked child at a given instant.
 * All instants are integer milliseconds since the epoch.
 */
module Lifecycle {
  import opened Wrappers

  /** Manufacturer-rated sensor lifetime: 10 days in ms. */
  const BaseDuration: int := 10 * 24 * 60 * 60 * 1000
  /** Extra wear allowed after the official end: 12 hours in ms. */
  const GracePeriod: int := 12 * 60 * 60 * 1000
  /** Below this much remaining time the card turns orange: 24 hours in ms. */
  const SoonWindow: int := 24 * 60 * 60 * 1000

  /**
   * A stored start time counts as a running sensor when it is truthy in
   * JavaScript: `null` is not, and neither is the number 0.
   */
  predicate HasStart(startTime: Option<int>)
  {
    startTime.Some? && startTime.value != 0
  }

  /** How far a running sensor is along its life. */
  datatype Level = Active | ExpiringSoon | Expired

  /** Position of a level on the way from Active to Expired. */
  function Rank(l: Level): nat
  {
    match l
    case Active => 0
    case ExpiringSoon => 1
    case Expired => 2
  }

  /** The values derived for one child at one instant. */
  datatype Status =
    | Idle
    | Running(start: int, officialEnd: int, finalEnd: int, remaining: int, level: Level)

  function LevelOf(remaining: int): Level
  {
    if remaining <= 0 then Expired
    else if remaining < SoonWindow then ExpiringSoon
    else Active
  }

  /**
   * Derived boundaries and status of a child whose stored start time is
   * `startTime`, evaluated at `now`. The level is stated in terms of how
   * long after the start `now` lies: expired from 10 days 12 hours on,
   * expiring soon during the 24 hours before that, active before.
   */
  function Classify(startTime: Option<int>, now: int): (r: Status)
    ensures r.Idle? <==> !HasStart(startTime)
    ensures r.Running? ==>
      && r.start == startTime.value
      && r.officialEnd == r.start + 10 * 24 * 3600 * 1000
      && r.finalEnd == r.officialEnd + 12 * 3600 * 1000
      && r.start < r.officialEnd < r.finalEnd
      && r.remaining == r.finalEnd - now
    ensures r.Running? ==> (r.level == Expired <==> now >= r.start + 907_200_000)
    ensures r.Running? ==>
      (r.level == ExpiringSoon <==> r.start + 820_800_000 < now < r.start + 907_200_000)
    ensures r.Running? ==> (r.level == Active <==> now <= r.start + 820_800_000)
  {
    if HasStart(startTime) then
      var start := startTime.value;
      var officialEnd := start + BaseDuration;
      var finalEnd := officialEnd + GracePeriod;
      var remaining := finalEnd - now;
      Running(start, officialEnd, finalEnd, remaining, LevelOf(remaining))
    else
      Idle
  }

  /** The boundaries do not depend on the instant of evaluation. */
  lemma BoundariesIndependentOfNow(startTime: Option<int>, now1: int, now2: int)
    requires HasStart(startTime)
    ensures Classify(startTime, now1).officialEnd == Classify(startTime, now2).officialEnd
    ensures Classify(startTime, now1).finalEnd == Classify(startTime, now2).finalEnd
    ensures Classify(startTime, now1).remaining - Classify(startTime, now2).remaining == now2 - now1
  {
  }

  /** As time passes a running sensor only moves towards Expired. */
  lemma LevelNeverGoesBack(startTime: Option<int>, now1: int, now2: int)
    requires HasStart(startTime) && now1 <= now2
    ensures Rank(Classify(startTime, now1).level) <= Rank(Classify(startTime, now2).level)
  {
  }

  /** A sensor started at `now` is active with the full 10 days 12 hours left. */
  lemma JustStartedIsActive(now: int)
    requires now != 0
    ensures Classify(Some(now), now) == Running(now, now + 864_000_000, now + 907_200_000, 907_200_000, Active)
  {
  }

  /** One hour before the official end, 13 hours remain: expiring soon. */
  lemma HourBeforeOfficialEnd(t: int)
    requires t != 0
    ensures Classify(Some(t), t + 864_000_000 - 3_600_000).remaining == 46_800_000
    ensures Classify(Some(t), t + 864_000_000 - 3_600_000).level == ExpiringSoon
  {
  }

  /** Thirteen hours after the official end the grace period is over. */
  lemma ThirteenHoursAfterOfficialEnd(t: int)
    requires t != 0
    ensures Classify(Some(t), t + 864_000_000 + 46_800_000).remaining == -3_600_000
    ensures Classify(Some(t), t + 864_000_000 + 46_800_000).level == Expired
  {
  }
}
