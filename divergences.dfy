/** Where the server's countdown and the page's countdown disagree. The page drops leading
    zero units and rounds the seconds down; the server always shows four units and rounds the
    seconds toward zero. */
module Divergences {
  import opened Wrappers
  import opened Text
  import opened Duration
  import opened DateTimes
  import opened Countdown
  import opened TodoModel

  /** The two texts for the same seconds are equal exactly when at least a day is shown. */
  lemma TextsAgreeIffADayOrMore(seconds: int)
    ensures FormatTimeLeft(seconds) == FormatRelative(Some(seconds)) <==> Abs(seconds) >= SecondsPerDay
  {
    var u := Decompose(Abs(seconds));
    var parts := RelativeTokens(u);
    FormatTimeLeftTokens(seconds);
    if u.days > 0 {
      assert parts == UnitTokens(u);
    } else {
      JoinDropShorter(UnitTokens(u), " ", 4 - |parts|);
      assert |FormatTimeLeft(seconds)| > |FormatRelative(Some(seconds))|;
    }
  }

  /** The seconds left for deadlines and clocks of millisecond precision: the server's value
      equals the page's except whenever the deadline has passed by a number of seconds that
      is not whole, where the server's is one larger (5.5 s past, the page has -6 and the
      server -5); so the server calls a task overdue only when the page does, and the page
      alone calls it overdue during the first second after the deadline. */
  lemma SecondsLeftRounding(deadlineMs: Ms, nowMs: Ms)
    ensures var page := DeadlineSeconds(Some(deadlineMs), nowMs).value;
      var server := SecondsLeft(DateTime(deadlineMs * 1000, Utc), nowMs * 1000);
      && (deadlineMs >= nowMs || (nowMs - deadlineMs) % 1000 == 0 ==> server == page)
      && (deadlineMs < nowMs && (nowMs - deadlineMs) % 1000 != 0 ==> server == page + 1)
      && (server < 0 ==> page < 0)
      && (page < 0 && server >= 0 <==> nowMs - 1000 < deadlineMs < nowMs)
  {
    var page := DeadlineSeconds(Some(deadlineMs), nowMs).value;
    var diff := deadlineMs - nowMs;
    var server := SecondsLeft(DateTime(deadlineMs * 1000, Utc), nowMs * 1000);
    assert Instant(DateTime(deadlineMs * 1000, Utc)) - nowMs * 1000 == diff * 1000;
    assert server * 1000000 <= diff * 1000 < server * 1000000 + 1000000 || server * 1000000 - 1000000 < diff * 1000 <= server * 1000000;
  }

  /** Half a second after the deadline the page shows "overdue" while the server's text says
      "left" and its overdue flag is false. */
  lemma HalfSecondPastDeadline(nowMs: Ms)
    requires -MaxDateMs + 500 <= nowMs
    ensures EndsWith(FormatRelative(DeadlineSeconds(Some(nowMs - 500), nowMs)), " overdue")
    ensures var server := SecondsLeft(DateTime((nowMs - 500) * 1000, Utc), nowMs * 1000);
      server == 0 && EndsWith(FormatTimeLeft(server), " left")
  {
    SecondsLeftRounding(nowMs - 500, nowMs);
  }
}
