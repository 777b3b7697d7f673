/** Splitting a number of seconds into days, hours, minutes and seconds, the arithmetic that
    both countdown texts (the page's and the backend's) perform with floor division and
    remainder by 86400, 3600 and 60, and the unit tokens both texts are made of. */
module Duration {
  import opened Wrappers
  import opened Text

  const SecondsPerMinute: nat := 60
  const SecondsPerHour: nat := 3600
  const SecondsPerDay: nat := 86400

  datatype Units = Units(days: nat, hours: nat, minutes: nat, seconds: nat)

  /** `u` reassembles to `total` and every unit below days is within its range. */
  predicate IsDecompositionOf(u: Units, total: nat) {
    && u.days * SecondsPerDay + u.hours * SecondsPerHour + u.minutes * SecondsPerMinute + u.seconds == total
    && u.hours < 24 && u.minutes < 60 && u.seconds < 60
  }

  function Abs(x: int): (r: nat)
    ensures r == x || r == -x
  {
    if x < 0 then -x else x
  }

  /** Whole days, then whole hours of what is left, then whole minutes, then the rest. */
  function Decompose(total: nat): (u: Units)
    ensures IsDecompositionOf(u, total)
  {
    var days := total / SecondsPerDay;
    var afterDays := total % SecondsPerDay;
    var hours := afterDays / SecondsPerHour;
    var afterHours := afterDays % SecondsPerHour;
    Units(days, hours, afterHours / SecondsPerMinute, afterHours % SecondsPerMinute)
  }

  /** There is only one decomposition: whatever splits `total` within the unit ranges is
      what Decompose computes. */
  lemma DecompositionUnique(u: Units, total: nat)
    requires IsDecompositionOf(u, total)
    ensures u == Decompose(total)
  {
    var below := u.hours * SecondsPerHour + u.minutes * SecondsPerMinute + u.seconds;
    assert below < SecondsPerDay;
    assert u.days == total / SecondsPerDay;
    assert below == total % SecondsPerDay;
    assert u.hours == below / SecondsPerHour;
    assert u.minutes == (below % SecondsPerHour) / SecondsPerMinute;
  }

  // ---------------------------------------------------------------------------
  // Unit tokens ("3d", "4h", "0m", "12s") and reading a countdown text back

  /** All four unit tokens, largest unit first. */
  function UnitTokens(u: Units): seq<string> {
    [NatToString(u.days) + "d", NatToString(u.hours) + "h",
     NatToString(u.minutes) + "m", NatToString(u.seconds) + "s"]
  }

  /** The word that ends a countdown text: "overdue" for a negative delta, else "left". */
  function Word(delta: int): string {
    if delta < 0 then "overdue" else "left"
  }

  /** A countdown text ends in " overdue" exactly for a negative delta and in " left"
      exactly otherwise, whatever comes before the word. */
  lemma WordEnding(prefix: string, delta: int)
    ensures EndsWith(prefix + " " + Word(delta), " overdue") <==> delta < 0
    ensures EndsWith(prefix + " " + Word(delta), " left") <==> delta >= 0
  {
    var tail := " " + Word(delta);
    var text := prefix + " " + Word(delta);
    assert text == prefix + tail;
    assert text[|text| - |tail|..] == tail;
    assert text[|text| - 1] == (if delta < 0 then 'e' else 't');
  }

  /** The word is "left" exactly when the delta is not negative. */
  lemma WordIsLeft(delta: int)
    ensures Word(delta) == "left" <==> delta >= 0
  {
    assert |"overdue"| != |"left"|;
  }

  function UnitSeconds(unit: char): Option<nat> {
    match unit
    case 'd' => Some(SecondsPerDay)
    case 'h' => Some(SecondsPerHour)
    case 'm' => Some(SecondsPerMinute)
    case 's' => Some(1)
    case _ => None
  }

  /** The seconds one token stands for: a decimal number followed by a unit letter. */
  function TokenSeconds(token: string): Option<nat> {
    if |token| < 2 then None
    else
      var digits := token[..|token| - 1];
      var unit := UnitSeconds(token[|token| - 1]);
      if AllDigits(digits) && unit.Some? then Some(DecimalValue(digits) * unit.value) else None
  }

  function TokensSeconds(tokens: seq<string>): Option<nat> {
    if tokens == [] then Some(0)
    else
      var first := TokenSeconds(tokens[0]);
      var rest := TokensSeconds(tokens[1..]);
      if first.Some? && rest.Some? then Some(first.value + rest.value) else None
  }

  /** Reads a countdown text ("1d 2h 0m 5s left", "5s overdue") back into signed seconds;
      None when the text is not of that form. This is the inverse both formatters are
      proved against. */
  function ParseCountdown(text: string): Option<int> {
    ParseWords(Split(text, ' '))
  }

  /** The words of a countdown text: amount tokens, then "left" or "overdue". */
  function ParseWords(words: seq<string>): Option<int>
    requires |words| >= 1
  {
    var amount := TokensSeconds(words[..|words| - 1]);
    var word := words[|words| - 1];
    if |words| < 2 || amount.None? then None
    else if word == "left" then Some(amount.value as int)
    else if word == "overdue" then Some(-(amount.value as int))
    else None
  }

  lemma TokenOfNumber(n: nat, unit: char, factor: nat)
    requires UnitSeconds(unit) == Some(factor)
    ensures ' ' !in NatToString(n) + [unit]
    ensures TokenSeconds(NatToString(n) + [unit]) == Some(n * factor)
  {
    var token := NatToString(n) + [unit];
    assert token[..|token| - 1] == NatToString(n);
    DecimalRoundTrip(n);
    assert forall i :: 0 <= i < |token| ==> token[i] != ' ' by {
      forall i | 0 <= i < |token| ensures token[i] != ' ' {
        if i < |token| - 1 { assert IsDigit(token[i]); }
      }
    }
  }

  /** Every unit token reads back as its amount of seconds, and none holds a space. */
  lemma UnitTokensRead(u: Units)
    ensures forall i :: 0 <= i < 4 ==> ' ' !in UnitTokens(u)[i]
    ensures TokenSeconds(UnitTokens(u)[0]) == Some(u.days * SecondsPerDay)
    ensures TokenSeconds(UnitTokens(u)[1]) == Some(u.hours * SecondsPerHour)
    ensures TokenSeconds(UnitTokens(u)[2]) == Some(u.minutes * SecondsPerMinute)
    ensures TokenSeconds(UnitTokens(u)[3]) == Some(u.seconds)
  {
    TokenOfNumber(u.days, 'd', SecondsPerDay);
    TokenOfNumber(u.hours, 'h', SecondsPerHour);
    TokenOfNumber(u.minutes, 'm', SecondsPerMinute);
    TokenOfNumber(u.seconds, 's', 1);
  }

  /** The unit tokens from position `k` on add up to the seconds they stand for. */
  lemma UnitTokensSuffixRead(u: Units)
    ensures TokensSeconds(UnitTokens(u)[3..]) == Some(u.seconds)
    ensures TokensSeconds(UnitTokens(u)[2..]) == Some(u.minutes * SecondsPerMinute + u.seconds)
    ensures TokensSeconds(UnitTokens(u)[1..])
            == Some(u.hours * SecondsPerHour + u.minutes * SecondsPerMinute + u.seconds)
    ensures TokensSeconds(UnitTokens(u)[0..])
            == Some(u.days * SecondsPerDay + u.hours * SecondsPerHour + u.minutes * SecondsPerMinute + u.seconds)
  {
    var t := UnitTokens(u);
    UnitTokensRead(u);
    assert t[3..][1..] == [];
    assert t[2..][1..] == t[3..];
    assert t[1..][1..] == t[2..];
    assert t[0..][1..] == t[1..];
  }

  /** Tokens without spaces followed by a final word split back into exactly those words. */
  lemma WordsOfText(tokens: seq<string>, word: string)
    requires |tokens| >= 1 && ' ' !in word
    requires forall i :: 0 <= i < |tokens| ==> ' ' !in tokens[i]
    ensures Split(Join(tokens, " ") + " " + word, ' ') == tokens + [word]
  {
    JoinAppend(tokens, " ", word);
    var words := tokens + [word];
    assert forall i :: 0 <= i < |words| ==> ' ' !in words[i];
    SplitJoin(words, ' ');
  }

  /** Words that end in "left" or "overdue" after amount tokens read as the signed amount. */
  lemma ReadLastWord(words: seq<string>, amount: nat)
    requires |words| >= 2 && TokensSeconds(words[..|words| - 1]) == Some(amount)
    requires words[|words| - 1] == "left" || words[|words| - 1] == "overdue"
    ensures ParseWords(words) == Some(if words[|words| - 1] == "left" then amount as int else -(amount as int))
  {
  }

  /** A text whose words are amount tokens followed by "left" or "overdue" reads as the signed
      sum of the tokens. */
  lemma ReadWords(tokens: seq<string>, word: string, amount: nat)
    requires |tokens| >= 1
    requires TokensSeconds(tokens) == Some(amount)
    requires word == "left" || word == "overdue"
    ensures ParseWords(tokens + [word]) == Some(if word == "left" then amount as int else -(amount as int))
  {
    var words := tokens + [word];
    assert words[..|words| - 1] == tokens;
    ReadLastWord(words, amount);
  }

  /** The unit tokens from position `k` on, all larger units being zero, add up to the total
      the units decompose. */
  lemma SuffixAmount(u: Units, total: nat, k: nat)
    requires IsDecompositionOf(u, total) && k < 4
    requires k > 0 ==> u.days == 0
    requires k > 1 ==> u.hours == 0
    requires k > 2 ==> u.minutes == 0
    ensures TokensSeconds(UnitTokens(u)[k..]) == Some(total)
  {
    UnitTokensSuffixRead(u);
  }

  /** No unit token from position `k` on holds a space. */
  lemma SuffixHasNoSpace(u: Units, k: nat)
    requires k < 4
    ensures forall i :: 0 <= i < |UnitTokens(u)[k..]| ==> ' ' !in UnitTokens(u)[k..][i]
  {
    UnitTokensRead(u);
    forall i | 0 <= i < |UnitTokens(u)[k..]|
      ensures ' ' !in UnitTokens(u)[k..][i]
    {
      assert UnitTokens(u)[k..][i] == UnitTokens(u)[i + k];
    }
  }

  /** A text made of the unit tokens from position `k` on (all larger units being zero),
      followed by the word for `delta`, reads back as `delta`. */
  lemma CountdownReadsBack(delta: int, k: nat)
    requires k < 4
    requires k > 0 ==> Decompose(Abs(delta)).days == 0
    requires k > 1 ==> Decompose(Abs(delta)).hours == 0
    requires k > 2 ==> Decompose(Abs(delta)).minutes == 0
    ensures ParseCountdown(Join(UnitTokens(Decompose(Abs(delta)))[k..], " ") + " " + Word(delta))
            == Some(delta)
  {
    var u := Decompose(Abs(delta));
    var tokens := UnitTokens(u)[k..];
    var text := Join(tokens, " ") + " " + Word(delta);
    var word := Word(delta);
    SuffixAmount(u, Abs(delta), k);
    SuffixHasNoSpace(u, k);
    assert ' ' !in word;
    WordsOfText(tokens, word);
    ReadWords(tokens, word, Abs(delta));
    WordIsLeft(delta);
    assert ParseCountdown(text) == ParseWords(tokens + [word]);
  }
}
