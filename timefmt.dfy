/** The `mm:ss` clock text shown during a round and in the leaderboard rows. */
module TimeFormat {

  predicate IsDigit(c: char)
  {
    '0' <= c <= '9'
  }

  function DigitChar(d: nat): (c: char)
    requires d < 10
    ensures IsDigit(c)
  {
    ['0', '1', '2', '3', '4', '5', '6', '7', '8', '9'][d]
  }

  function DigitValue(c: char): nat
    requires IsDigit(c)
  {
    (c as int - '0' as int) as nat
  }

  /** `String(n)` for a non-negative integer: decimal digits, no leading zero. */
  function ToDecimal(n: nat): (s: string)
    ensures 1 <= |s|
    ensures forall k :: 0 <= k < |s| ==> IsDigit(s[k])
    ensures |s| > 1 ==> s[0] != '0'
    ensures n < 10 <==> |s| == 1
    ensures n < 100 <==> |s| <= 2
  {
    if n < 10 then [DigitChar(n)] else ToDecimal(n / 10) + [DigitChar(n % 10)]
  }

  /** Reads a string of decimal digits, most significant first; the empty string reads as 0. */
  function ParseDecimal(s: string): nat
    requires forall k :: 0 <= k < |s| ==> IsDigit(s[k])
  {
    if s == [] then 0 else ParseDecimal(s[..|s| - 1]) * 10 + DigitValue(s[|s| - 1])
  }

  /** `padStart(2, '0')`: left-pad with '0' to at least two characters. */
  function PadTwo(s: string): (p: string)
    ensures |p| == if |s| < 2 then 2 else |s|
    ensures p[|p| - |s|..] == s
    ensures forall k :: 0 <= k < |p| - |s| ==> p[k] == '0'
  {
    if |s| == 0 then "00" else if |s| == 1 then "0" + s else s
  }

  /** `mm:ss` for `timer` seconds: whole minutes and the remaining seconds, each padded to two digits. */
  function FormatTime(timer: nat): (text: string)
    ensures |text| >= 5 && text[|text| - 3] == ':'
    ensures forall k :: 0 <= k < |text| && k != |text| - 3 ==> IsDigit(text[k])
    ensures timer < 6000 ==> |text| == 5
  {
    var minutes, seconds := timer / 60, timer % 60;
    MinutesBound(timer);
    var mm, ss := PadTwo(ToDecimal(minutes)), PadTwo(ToDecimal(seconds));
    assert |ss| == 2;
    mm + ":" + ss
  }

  lemma MinutesBound(timer: nat)
    ensures timer < 6000 ==> timer / 60 < 100
    ensures timer % 60 < 60
    ensures timer == timer / 60 * 60 + timer % 60
  {
    assert timer == 60 * (timer / 60) + timer % 60;
  }

  /** Reads `mm:ss` text back: the part before the last three characters is minutes, the last two seconds. */
  function ParseTime(text: string): nat
    requires |text| >= 3
    requires forall k :: 0 <= k < |text| && k != |text| - 3 ==> IsDigit(text[k])
  {
    ParseDecimal(text[..|text| - 3]) * 60 + ParseDecimal(text[|text| - 2..])
  }

  lemma {:induction false} DecimalRoundTrip(n: nat)
    ensures ParseDecimal(ToDecimal(n)) == n
  {
    var s := ToDecimal(n);
    if n < 10 {
      DigitRoundTrip(n);
    } else {
      var q, d := n / 10, n % 10;
      assert s == ToDecimal(q) + [DigitChar(d)];
      assert s[..|s| - 1] == ToDecimal(q);
      DecimalRoundTrip(q);
      DigitRoundTrip(d);
      assert ParseDecimal(s) == q * 10 + d;
    }
  }

  lemma DigitRoundTrip(d: nat)
    requires d < 10
    ensures DigitValue(DigitChar(d)) == d
  {
  }

  /** A leading '0' does not change the value read. */
  lemma {:induction false} LeadingZero(s: string)
    requires forall k :: 0 <= k < |s| ==> IsDigit(s[k])
    ensures ParseDecimal("0" + s) == ParseDecimal(s)
  {
    if s != [] {
      assert ("0" + s)[..|s|] == "0" + s[..|s| - 1];
      LeadingZero(s[..|s| - 1]);
    }
  }

  lemma PaddedRoundTrip(n: nat)
    ensures forall k :: 0 <= k < |PadTwo(ToDecimal(n))| ==> IsDigit(PadTwo(ToDecimal(n))[k])
    ensures ParseDecimal(PadTwo(ToDecimal(n))) == n
  {
    var s := ToDecimal(n);
    DecimalRoundTrip(n);
    if |s| == 1 {
      LeadingZero(s);
    }
  }

  /** Splitting `mm:ss` at the colon recovers both halves. */
  lemma ParseJoined(mm: string, ss: string)
    requires forall k :: 0 <= k < |mm| ==> IsDigit(mm[k])
    requires |ss| == 2 && IsDigit(ss[0]) && IsDigit(ss[1])
    ensures ParseTime(mm + ":" + ss) == ParseDecimal(mm) * 60 + ParseDecimal(ss)
  {
    var text := mm + ":" + ss;
    assert text[..|text| - 3] == mm;
    assert text[|text| - 2..] == ss;
  }

  /** Reading the displayed clock gives back the elapsed seconds: the formatting loses nothing. */
  lemma FormatTimeRoundTrip(timer: nat)
    ensures ParseTime(FormatTime(timer)) == timer
  {
    var minutes, seconds := timer / 60, timer % 60;
    MinutesBound(timer);
    var mm, ss := PadTwo(ToDecimal(minutes)), PadTwo(ToDecimal(seconds));
    PaddedRoundTrip(minutes);
    PaddedRoundTrip(seconds);
    assert FormatTime(timer) == mm + ":" + ss;
    ParseJoined(mm, ss);
  }

  /** 75 seconds show as one padded minute and fifteen seconds. */
  lemma FormatTimeExample()
    ensures FormatTime(75) == "01:15"
  {
    FormatTimeParts(75, 1, 15);
    var mm, ss := PadTwo(ToDecimal(1)), PadTwo(ToDecimal(15));
    assert mm == "01" && ss == "15";
  }

  /** From 100 minutes on, the minutes field grows past two digits. */
  lemma FormatTimeWideExample()
    ensures FormatTime(6000) == "100:00"
  {
    FormatTimeParts(6000, 100, 0);
    assert ToDecimal(10) == "10";
    var mm, ss := PadTwo(ToDecimal(100)), PadTwo(ToDecimal(0));
    assert mm == "100" && ss == "00";
  }

  lemma FormatTimeParts(timer: nat, minutes: nat, seconds: nat)
    requires seconds < 60 && timer == minutes * 60 + seconds
    ensures FormatTime(timer) == PadTwo(ToDecimal(minutes)) + ":" + PadTwo(ToDecimal(seconds))
  {
    assert timer / 60 == minutes && timer % 60 == seconds;
  }

}
