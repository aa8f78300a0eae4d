/**
 * The values updateUI derives for one child's card on each tick: badge and
 * button state, the remaining-time text and its colour, and the instants
 * behind the three date labels. DOM lookups and styling are not modelled;
 * formatDate is not part of this model, so a date label carries the instant
 * it would format.
 */
module Dashboard {
  import opened Wrappers
  import opened Lifecycle
  import opened TimeFormat

  datatype Color = TextPrimary | TextSecondary | AccentOrange | AccentRed

  /** A date label: "-" when there is no sensor, else formatDate(instant). */
  datatype DateLabel = Dash | At(instant: int)

  datatype Card = Card(
    badge: string,
    dataStatus: string,
    button: string,
    dataActive: bool,
    remainingText: string,
    color: Color,
    startLabel: DateLabel,
    officialEndLabel: DateLabel,
    finalEndLabel: DateLabel)

  /**
   * The card for a child whose stored start time is `startTime`, at `now`.
   * The remaining-time colour is set first by the 24-hour test and then
   * overridden, together with the text, when the sensor has expired.
   */
  function CardFor(startTime: Option<int>, now: int): (c: Card)
    ensures !HasStart(startTime) ==>
      && c.badge == "대기 중" && c.button == "센서 시작"
      && c.dataStatus == "idle" && !c.dataActive
      && c.remainingText == "--일 --시간 --분" && c.color == TextSecondary
      && c.startLabel == Dash && c.officialEndLabel == Dash && c.finalEndLabel == Dash
    ensures HasStart(startTime) ==>
      var st := Classify(startTime, now);
      && c.badge == "진행 중" && c.button == "센서 교체/재설정"
      && c.dataStatus == "active" && c.dataActive
      && c.startLabel == At(st.start)
      && c.officialEndLabel == At(st.officialEnd)
      && c.finalEndLabel == At(st.finalEnd)
      && (c.color == AccentRed <==> st.level == Expired)
      && (c.color == AccentOrange <==> st.level == ExpiringSoon)
      && (c.color == TextPrimary <==> st.level == Active)
      && (st.level == Expired ==> c.remainingText == "만료됨")
      && (st.level != Expired ==> c.remainingText == FormatRemaining(st.remaining))
  {
    if HasStart(startTime) then
      var st := Classify(startTime, now);
      var color := if st.remaining < 24 * 60 * 60 * 1000 then AccentOrange else TextPrimary;
      var text := FormatRemaining(st.remaining);
      var (text, color) := if st.remaining <= 0 then ("만료됨", AccentRed) else (text, color);
      Card("진행 중", "active", "센서 교체/재설정", true, text, color,
           At(st.start), At(st.officialEnd), At(st.finalEnd))
    else
      Card("대기 중", "idle", "센서 시작", false, "--일 --시간 --분", TextSecondary,
           Dash, Dash, Dash)
  }

  /**
   * While a sensor has not expired, its remaining-time text reads back as
   * the whole minutes left, so the card never shows a negative duration and
   * never loses a minute.
   */
  lemma RemainingTextIsExact(startTime: Option<int>, now: int)
    requires HasStart(startTime)
    requires Classify(startTime, now).level != Expired
    ensures var c := CardFor(startTime, now);
      var r := Classify(startTime, now).remaining;
      && r > 0
      && ParseRemaining(c.remainingText).Some?
      && TotalMinutes(ParseRemaining(c.remainingText).value) == r / 60000
  {
    var r := Classify(startTime, now).remaining;
    FormatRoundTrip(r);
    PartsMeaning(r);
  }
}
