/** String helpers of the dashboard page (frontend/src/pages/dashboard.js): the
    x-axis labels of `generateChartData` and `shortenAddress`. */
module Dashboard {
  import opened Basics
  import opened Decimal

  /** The label of the point `i` days before today in a chart of `days` points. */
  function DayLabel(i: nat, days: int): string
    requires i < days
  {
    if i == 0 then "Today"
    else if i == 1 then "Yesterday"
    else if i <= 7 then NatToString(i) + "d ago"
    else if i == days - 1 then NatToString(days) + "d ago"
    else if i % 5 == 0 then NatToString(i) + "d"
    else ""
  }

  /** How many days back a label says its point lies: the reading a user makes of it. */
  function DaysBack(text: string): Option<nat>
  {
    if text == "Today" then Some(0)
    else if text == "Yesterday" then Some(1)
    else if |text| > 5 && text[|text| - 5..] == "d ago" && IsNumeral(text[..|text| - 5]) then
      Some(DigitsValue(text[..|text| - 5]))
    else if |text| > 1 && text[|text| - 1] == 'd' && IsNumeral(text[..|text| - 1]) then
      Some(DigitsValue(text[..|text| - 1]))
    else None
  }

  lemma ReadNumeralWithSuffix(n: nat, suffix: string)
    requires suffix == "d ago" || suffix == "d"
    ensures var text := NatToString(n) + suffix;
      && text != "Today" && text != "Yesterday"
      && DaysBack(text) == Some(n)
  {
    var text := NatToString(n) + suffix;
    assert IsDigit(text[0]);
    assert text[..|text| - |suffix|] == NatToString(n);
    DigitsValueOfNatToString(n);
    if suffix == "d" {
      assert text[|text| - 1] == 'd';
    }
  }

  /** Every label that is shown reads back as the number of days before today of its
      point, except the oldest point's (when it is more than 7 days back), which reads
      one day further back; blank labels read as nothing. */
  lemma {:induction false} DayLabelReadsBack(i: nat, days: int)
    requires i < days
    ensures DaysBack(DayLabel(i, days)) ==
      if DayLabel(i, days) == "" then None
      else if 7 < i && i == days - 1 then Some(i + 1)
      else Some(i)
    ensures DayLabel(i, days) != "" <==> i <= 7 || i == days - 1 || i % 5 == 0
  {
    if 2 <= i <= 7 {
      ReadNumeralWithSuffix(i, "d ago");
    } else if 7 < i && i == days - 1 {
      ReadNumeralWithSuffix(days as nat, "d ago");
    } else if 7 < i && i % 5 == 0 {
      ReadNumeralWithSuffix(i, "d");
    }
  }

  /** No two shown labels of one chart are the same. */
  lemma ShownLabelsDistinct(i: nat, j: nat, days: int)
    requires i < j < days
    requires DayLabel(i, days) != ""
    ensures DayLabel(i, days) != DayLabel(j, days)
  {
    DayLabelReadsBack(i, days);
    DayLabelReadsBack(j, days);
  }

  /** The labels of `generateChartData(type, days)`: `i` runs from `days - 1` down to 0
      and each point is pushed in turn; the values are not modelled. */
  method ChartLabels(days: int) returns (labels: seq<string>)
    ensures |labels| == if days > 0 then days else 0
    ensures forall k :: 0 <= k < |labels| ==> labels[k] == DayLabel(|labels| - 1 - k, days)
    ensures |labels| > 0 ==> labels[|labels| - 1] == "Today"
  {
    labels := [];
    var i := days - 1;
    while i >= 0
      invariant if days > 0 then -1 <= i < days else i == days - 1
      invariant |labels| == days - 1 - i
      invariant forall k :: 0 <= k < |labels| ==> labels[k] == DayLabel(days - 1 - k, days)
    {
      labels := labels + [DayLabel(i, days)];
      i := i - 1;
    }
  }

  /** JavaScript's `String.prototype.slice(start, end)`: a negative index counts from
      the end, and indices are clamped to the string. */
  function Slice(s: string, start: int, end: int): string
  {
    var from := if start < 0 then Max(|s| + start, 0) else Min(start, |s|);
    var to := if end < 0 then Max(|s| + end, 0) else Min(end, |s|);
    if from < to then s[from..to] else ""
  }

  /** `shortenAddress`: "N/A" for a missing or empty address, else its first six
      characters, "...", and its last four (all of a short address on each side). */
  function ShortenAddress(address: Option<string>): (r: string)
    ensures r == "N/A" <==> address.None? || address.value == ""
    ensures address.Some? && address.value != "" ==>
      var a := address.value;
      r == a[..Min(6, |a|)] + "..." + a[Max(|a| - 4, 0)..]
    ensures address.Some? && |address.value| >= 10 ==>
      var a := address.value;
      |r| == 13 && r[..6] == a[..6] && r[6..9] == "..." && r[9..] == a[|a| - 4..]
  {
    match address
    case None => "N/A"
    case Some(a) =>
      if a == "" then "N/A"
      else
        var r := Slice(a, 0, 6) + "..." + Slice(a, -4, |a|);
        assert r[Min(6, |a|)..Min(6, |a|) + 3] == "...";
        r
  }
}
