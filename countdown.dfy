/** The page's deadline countdown: the signed seconds left until a deadline, the text that
    shows them, and the urgency colour; plus the small helpers beside them (`pad2`, the status
    labels and the priority order). "Now" is a parameter: each tick of the page's one-second
    timer recomputes these values from it. */
module Countdown {
  import opened Wrappers
  import opened Text
  import opened Duration
  import opened TodoEnums

  /** The largest distance from the epoch, in milliseconds, that a JavaScript Date can hold. */
  const MaxDateMs: int := 8_640_000_000_000_000

  /** A Date's `getTime()`: milliseconds since the Unix epoch, within the Date range. */
  type Ms = x: int | -MaxDateMs <= x <= MaxDateMs

  // ---------------------------------------------------------------------------
  // getDeadlineSeconds

  /** `getDeadlineSeconds`: no deadline gives null, otherwise the difference between the
      deadline and now, in whole seconds rounded down. */
  function DeadlineSeconds(deadlineMs: Option<Ms>, nowMs: int): (r: Option<int>)
    ensures r.None? <==> deadlineMs.None?
    ensures deadlineMs.Some? ==> r.value * 1000 <= deadlineMs.value - nowMs < r.value * 1000 + 1000
    ensures deadlineMs.Some? ==> (r.value < 0 <==> deadlineMs.value < nowMs)
  {
    match deadlineMs
    case None => None
    case Some(d) => Some((d - nowMs) / 1000)
  }

  // ---------------------------------------------------------------------------
  // formatRelativeTimeFromSeconds

  /** The tokens the page shows: leading zero units are left out, and once a unit is shown
      every smaller unit is shown too; the seconds are always shown. */
  function RelativeTokens(u: Units): (parts: seq<string>)
    ensures 1 <= |parts| <= 4 && parts == UnitTokens(u)[4 - |parts|..]
    ensures |parts| == 4 <==> u.days > 0
    ensures |parts| >= 3 <==> u.days > 0 || u.hours > 0
    ensures |parts| >= 2 <==> u.days > 0 || u.hours > 0 || u.minutes > 0
  {
    (if u.days > 0 then [NatToString(u.days) + "d"] else [])
    + (if u.hours > 0 || u.days > 0 then [NatToString(u.hours) + "h"] else [])
    + (if u.minutes > 0 || u.hours > 0 || u.days > 0 then [NatToString(u.minutes) + "m"] else [])
    + [NatToString(u.seconds) + "s"]
  }

  /** `formatRelativeTimeFromSeconds`: "No deadline" without a deadline; otherwise the shown
      tokens of |delta| joined by spaces, then " overdue" for a negative delta and " left"
      for any other. */
  function FormatRelative(secondsLeft: Option<int>): (text: string)
    ensures secondsLeft.None? ==> text == "No deadline"
    ensures secondsLeft.Some? ==> (EndsWith(text, " overdue") <==> secondsLeft.value < 0)
    ensures secondsLeft.Some? ==> (EndsWith(text, " left") <==> secondsLeft.value >= 0)
  {
    match secondsLeft
    case None => "No deadline"
    case Some(delta) =>
      WordEnding(Join(RelativeTokens(Decompose(Abs(delta))), " "), delta);
      Join(RelativeTokens(Decompose(Abs(delta))), " ") + " " + Word(delta)
  }

  /** The text loses nothing: reading it back gives the delta it was made from. */
  lemma FormatRelativeReadsBack(delta: int)
    ensures ParseCountdown(FormatRelative(Some(delta))) == Some(delta)
  {
    var u := Decompose(Abs(delta));
    CountdownReadsBack(delta, 4 - |RelativeTokens(u)|);
  }

  // ---------------------------------------------------------------------------
  // getTimerColor

  datatype Color = Gray | Red | Blue | Rgb(r: int, g: int, b: int)

  const Day: int := 86400

  /** The length of the gradient, two days, in seconds. */
  const Span: int := 2 * Day

  /** `c` is `Math.round` of start + (end - start) * t / Span, taking Math.round(x) as
      floor(x + 1/2): c - 1/2 <= x < c + 1/2, scaled by 2 * Span. */
  predicate RoundsInterpolation(c: int, start: int, end: int, t: int) {
    2 * Span * c - Span <= 2 * (Span * start + (end - start) * t) < 2 * Span * c + Span
  }

  /** One colour channel at `t` seconds into the gradient, in exact integer arithmetic. */
  function Channel(start: int, end: int, t: int): (c: int)
    ensures RoundsInterpolation(c, start, end, t)
  {
    start + (2 * (end - start) * t + Span) / (2 * Span)
  }

  lemma MulMonotone(k: int, t1: int, t2: int)
    requires k >= 0 && t1 <= t2
    ensures k * t1 <= k * t2
  {
  }

  /** Inside the gradient a channel stays between its two end values. */
  lemma ChannelBetween(start: int, end: int, t: int)
    requires 0 <= t <= Span
    ensures start <= end ==> start <= Channel(start, end, t) <= end
    ensures end <= start ==> end <= Channel(start, end, t) <= start
  {
    var c := Channel(start, end, t);
    if start <= end {
      MulMonotone(end - start, 0, t);
      MulMonotone(end - start, t, Span);
    } else {
      MulMonotone(start - end, 0, t);
      MulMonotone(start - end, t, Span);
    }
  }

  /** A channel moves towards its end value as `t` grows, never back. */
  lemma ChannelMonotone(start: int, end: int, t1: int, t2: int)
    requires t1 <= t2
    ensures start <= end ==> Channel(start, end, t1) <= Channel(start, end, t2)
    ensures end <= start ==> Channel(start, end, t1) >= Channel(start, end, t2)
  {
    if start <= end {
      MulMonotone(2 * (end - start), t1, t2);
    } else {
      MulMonotone(2 * (start - end), t1, t2);
    }
  }

  const RedStart: int := 239
  const GreenStart: int := 68
  const BlueStart: int := 68
  const RedEnd: int := 59
  const GreenEnd: int := 130
  const BlueEnd: int := 246

  /** `getTimerColor`: gray without a deadline, solid red up to one day (overdue included),
      solid blue from three days on, and in between each RGB channel the rounded linear
      interpolation from the red end towards the blue end. */
  function TimerColor(secondsLeft: Option<int>): (c: Color)
    ensures c == Gray <==> secondsLeft.None?
    ensures c == Red <==> secondsLeft.Some? && secondsLeft.value <= Day
    ensures c == Blue <==> secondsLeft.Some? && secondsLeft.value >= 3 * Day
    ensures c.Rgb? ==> secondsLeft.Some? && Day < secondsLeft.value < 3 * Day
    ensures c.Rgb? ==> var t := secondsLeft.value - Day;
      && RoundsInterpolation(c.r, RedStart, RedEnd, t)
      && RoundsInterpolation(c.g, GreenStart, GreenEnd, t)
      && RoundsInterpolation(c.b, BlueStart, BlueEnd, t)
  {
    match secondsLeft
    case None => Gray
    case Some(s) =>
      if s <= 0 then Red
      else if s <= Day then Red
      else if s >= 3 * Day then Blue
      else
        var t := s - Day;
        Rgb(Channel(RedStart, RedEnd, t), Channel(GreenStart, GreenEnd, t), Channel(BlueStart, BlueEnd, t))
  }

  /** In the gradient every channel lies between its red-end and blue-end values. */
  lemma GradientInRange(s: int)
    requires Day < s < 3 * Day
    ensures TimerColor(Some(s)).Rgb?
    ensures RedEnd <= TimerColor(Some(s)).r <= RedStart
    ensures GreenStart <= TimerColor(Some(s)).g <= GreenEnd
    ensures BlueStart <= TimerColor(Some(s)).b <= BlueEnd
  {
    ChannelBetween(RedStart, RedEnd, s - Day);
    ChannelBetween(GreenStart, GreenEnd, s - Day);
    ChannelBetween(BlueStart, BlueEnd, s - Day);
  }

  /** As the deadline gets nearer the gradient never turns bluer: red does not decrease and
      green and blue do not increase when fewer seconds are left. */
  lemma GradientMonotone(s1: int, s2: int)
    requires Day < s1 <= s2 < 3 * Day
    ensures TimerColor(Some(s1)).r >= TimerColor(Some(s2)).r
    ensures TimerColor(Some(s1)).g <= TimerColor(Some(s2)).g
    ensures TimerColor(Some(s1)).b <= TimerColor(Some(s2)).b
  {
    ChannelMonotone(RedStart, RedEnd, s1 - Day, s2 - Day);
    ChannelMonotone(GreenStart, GreenEnd, s1 - Day, s2 - Day);
    ChannelMonotone(BlueStart, BlueEnd, s1 - Day, s2 - Day);
  }

  /** The gradient starts at the solid red (#ef4444 is rgb(239 68 68)) one second after a day
      and ends at rgb(59 130 246) one second before three days. */
  lemma GradientEnds()
    ensures TimerColor(Some(Day + 1)) == Rgb(RedStart, GreenStart, BlueStart)
    ensures TimerColor(Some(3 * Day - 1)) == Rgb(RedEnd, GreenEnd, BlueEnd)
  {
  }

  /** The colour as the page writes it into the style attribute. */
  function ColorCss(c: Color): (css: string)
    requires c.Rgb? ==> c.r >= 0 && c.g >= 0 && c.b >= 0
    ensures |css| >= 7
    ensures c == Gray <==> css == "#a3a3a3"
    ensures c == Red <==> css == "#ef4444"
    ensures c == Blue <==> css == "hsl(210 90% 62%)"
    ensures c.Rgb? <==> css[..4] == "rgb("
  {
    match c
    case Gray => var css := "#a3a3a3"; assert css[..4][0] == '#'; css
    case Red => var css := "#ef4444"; assert css[..4][0] == '#'; css
    case Blue => var css := "hsl(210 90% 62%)"; assert css[..4][0] == 'h'; css
    case Rgb(r, g, b) =>
      var css := "rgb(" + NatToString(r) + " " + NatToString(g) + " " + NatToString(b) + ")";
      assert css[..4] == "rgb(" && css[0] == 'r';
      css
  }

  /** The text of a gradient colour reads back as its three channels: between "rgb(" and the
      closing ")" stand three numerals separated by single spaces, in the order red, green,
      blue. */
  lemma ColorCssReadsBack(c: Color)
    requires c.Rgb? && c.r >= 0 && c.g >= 0 && c.b >= 0
    ensures var css := ColorCss(c);
      && css[..4] == "rgb(" && css[|css| - 1] == ')'
      && var parts := Split(css[4..|css| - 1], ' ');
      && |parts| == 3 && AllDigits(parts[0]) && AllDigits(parts[1]) && AllDigits(parts[2])
      && DecimalValue(parts[0]) == c.r && DecimalValue(parts[1]) == c.g && DecimalValue(parts[2]) == c.b
  {
    var css := ColorCss(c);
    var numerals := [NatToString(c.r), NatToString(c.g), NatToString(c.b)];
    var inner := Join(numerals, " ");
    assert numerals[1..][1..] == [NatToString(c.b)];
    assert Join(numerals[1..], " ") == NatToString(c.g) + " " + NatToString(c.b);
    assert inner == NatToString(c.r) + " " + (NatToString(c.g) + " " + NatToString(c.b));
    assert css == "rgb(" + inner + ")";
    assert css[4..|css| - 1] == inner;
    forall i | 0 <= i < 3
      ensures ' ' !in numerals[i]
    {
      assert AllDigits(numerals[i]);
    }
    SplitJoin(numerals, ' ');
    DecimalRoundTrip(c.r);
    DecimalRoundTrip(c.g);
    DecimalRoundTrip(c.b);
  }

  // ---------------------------------------------------------------------------
  // Small helpers

  /** `pad2`: `String(value).padStart(2, '0')`, for the non-negative values it is given. */
  function Pad2(value: nat): (s: string)
    ensures AllDigits(s) && DecimalValue(s) == value
    ensures |s| >= 2 && (value < 100 ==> |s| == 2)
  {
    var digits := NatToString(value);
    DecimalRoundTrip(value);
    if |digits| < 2 then LeadingZero(digits); "0" + digits else digits
  }

  /** `statusLabel`. */
  function StatusLabel(status: Status): string {
    match status
    case NotStarted => "Not Started"
    case InProgress => "In Progress"
    case Finished => "Finished"
  }

  /** Different statuses get different labels. */
  lemma StatusLabelInjective(a: Status, b: Status)
    ensures StatusLabel(a) == StatusLabel(b) ==> a == b
  {
  }

  /** `PRIORITIES`: the order of the columns. */
  const Priorities: seq<Priority> := [Urgent, High, Medium, Low]

  /** `PRIORITY_ORDER`: a priority's rank is its position among the columns. */
  function PriorityRank(priority: Priority): (rank: nat)
    ensures rank < |Priorities| && Priorities[rank] == priority
  {
    match priority
    case Urgent => 0
    case High => 1
    case Medium => 2
    case Low => 3
  }

  /** Each priority has exactly one column. */
  lemma PrioritiesListEachOnce(p: Priority)
    ensures p in Priorities
    ensures forall i, j :: 0 <= i < j < |Priorities| ==> Priorities[i] != Priorities[j]
  {
  }

  // ---------------------------------------------------------------------------
  // Scenarios

  /** Five seconds are the single token "5s". */
  lemma OverdueTokens()
    ensures RelativeTokens(Decompose(Abs(-5))) == ["5s"]
  {
    assert Decompose(5) == Units(0, 0, 0, 5);
    assert NatToString(5) == "5";
    assert NatToString(5) + "s" == "5s";
  }

  /** Five seconds overdue read "5s overdue". */
  lemma OverdueText()
    ensures FormatRelative(Some(-5)) == "5s overdue"
  {
    OverdueTokens();
    assert Join(["5s"], " ") == "5s";
    assert "5s" + " " + "overdue" == "5s overdue";
  }

  /** A deadline five seconds ago reads "5s overdue", in red. */
  lemma ScenarioOverdue(nowMs: Ms)
    requires nowMs - 5000 >= -MaxDateMs
    ensures FormatRelative(DeadlineSeconds(Some(nowMs - 5000), nowMs)) == "5s overdue"
    ensures TimerColor(DeadlineSeconds(Some(nowMs - 5000), nowMs)) == Red
  {
    assert DeadlineSeconds(Some(nowMs - 5000), nowMs) == Some(-5);
    OverdueText();
  }

  /** 90000 seconds are one day and one hour: the tokens "1d", "1h", "0m", "0s". */
  lemma TomorrowTokens()
    ensures RelativeTokens(Decompose(Abs(90000))) == ["1d", "1h", "0m", "0s"]
  {
    assert Decompose(90000) == Units(1, 1, 0, 0);
    assert NatToString(1) == "1" && NatToString(0) == "0";
    assert NatToString(1) + "d" == "1d" && NatToString(1) + "h" == "1h";
    assert NatToString(0) + "m" == "0m" && NatToString(0) + "s" == "0s";
  }

  /** 90000 seconds ahead read "1d 1h 0m 0s left". */
  lemma TomorrowText()
    ensures FormatRelative(Some(90000)) == "1d 1h 0m 0s left"
  {
    TomorrowTokens();
    JoinFour("1d", "1h", "0m", "0s", " ");
    assert "1d" + " " + "1h" + " " + "0m" + " " + "0s" == "1d 1h 0m 0s";
    assert "1d 1h 0m 0s" + " " + "left" == "1d 1h 0m 0s left";
  }

  /** A deadline 25 hours ahead reads "1d 1h 0m 0s left". */
  lemma ScenarioTomorrowText(nowMs: Ms)
    requires nowMs + 90_000_000 <= MaxDateMs
    ensures FormatRelative(DeadlineSeconds(Some(nowMs + 90_000_000), nowMs)) == "1d 1h 0m 0s left"
  {
    assert DeadlineSeconds(Some(nowMs + 90_000_000), nowMs) == Some(90000);
    TomorrowText();
  }

  /** A deadline 25 hours ahead is already off solid red: rgb(235 69 72). */
  lemma ScenarioTomorrowColor(nowMs: Ms)
    requires nowMs + 90_000_000 <= MaxDateMs
    ensures TimerColor(DeadlineSeconds(Some(nowMs + 90_000_000), nowMs)) == Rgb(235, 69, 72)
  {
    assert DeadlineSeconds(Some(nowMs + 90_000_000), nowMs) == Some(90000);
  }

  /** A deadline about 3.47 days ahead is solid blue. */
  lemma ScenarioFarAhead(nowMs: Ms)
    requires nowMs + 300_000_000 <= MaxDateMs
    ensures TimerColor(DeadlineSeconds(Some(nowMs + 300_000_000), nowMs)) == Blue
  {
    assert DeadlineSeconds(Some(nowMs + 300_000_000), nowMs) == Some(300000);
  }
}
