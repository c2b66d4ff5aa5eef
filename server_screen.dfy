/** The server screen's display rules: the uptime text, the colour of a
    memory gauge, and the latency bands of the ping indicator and the
    network card. */
module ServerScreen {
  import opened Strings

  const SecondsPerDay := 86400
  const SecondsPerHour := 3600

  /** Whole days, hours of the day and minutes of the hour in `seconds`. */
  function UptimeParts(seconds: nat): (r: (nat, nat, nat))
    ensures r.1 < 24 && r.2 < 60
    ensures r.0 * SecondsPerDay + r.1 * SecondsPerHour + r.2 * 60 == seconds - seconds % 60
  {
    UptimeArithmetic(seconds);
    (seconds / SecondsPerDay, (seconds % SecondsPerDay) / SecondsPerHour, (seconds % SecondsPerHour) / 60)
  }

  /** Days, hours and minutes add up: the hour part of the day-remainder
      and the hour-remainder agree because a day is 24 hours. */
  lemma UptimeArithmetic(seconds: nat)
    ensures (seconds % SecondsPerDay) / SecondsPerHour < 24 && (seconds % SecondsPerHour) / 60 < 60
    ensures (seconds / SecondsPerDay) * SecondsPerDay + ((seconds % SecondsPerDay) / SecondsPerHour) * SecondsPerHour
      + ((seconds % SecondsPerHour) / 60) * 60 == seconds - seconds % 60
  {
    var d, rd := seconds / SecondsPerDay, seconds % SecondsPerDay;
    var h, rh := rd / SecondsPerHour, rd % SecondsPerHour;
    assert seconds == d * SecondsPerDay + rd;
    assert rd == h * SecondsPerHour + rh;
    var hours := d * 24 + h;
    assert seconds == hours * 3600 + rh;
    assert seconds % 3600 == rh;
    var m := rh / 60;
    assert rh == m * 60 + rh % 60;
    var minutes := hours * 60 + m;
    assert seconds == minutes * 60 + rh % 60;
    assert seconds % 60 == rh % 60;
  }

  /** `formatUptime`: days, hours and minutes, leaving out leading zero
      units — all three from a day on, hours and minutes from an hour on,
      otherwise minutes only. */
  function FormatUptime(seconds: nat): (t: string)
    ensures seconds >= SecondsPerDay ==>
      t == Decimal(seconds / SecondsPerDay) + "d " +
        Decimal((seconds % SecondsPerDay) / SecondsPerHour) + "h " +
        Decimal((seconds % SecondsPerHour) / 60) + "m"
    ensures SecondsPerHour <= seconds < SecondsPerDay ==>
      t == Decimal(seconds / SecondsPerHour) + "h " + Decimal((seconds % SecondsPerHour) / 60) + "m"
    ensures seconds < SecondsPerHour ==> t == Decimal(seconds / 60) + "m"
  {
    assert seconds < SecondsPerDay ==> seconds / SecondsPerDay == 0 && seconds % SecondsPerDay == seconds;
    assert seconds < SecondsPerHour ==> seconds / SecondsPerHour == 0 && seconds % SecondsPerHour == seconds;
    var (days, hours, minutes) := UptimeParts(seconds);
    if days > 0 then Decimal(days) + "d " + Decimal(hours) + "h " + Decimal(minutes) + "m"
    else if hours > 0 then Decimal(hours) + "h " + Decimal(minutes) + "m"
    else Decimal(minutes) + "m"
  }

  /** The gauge colours: green, orange, red. */
  const Green := "#27AE60"
  const Orange := "#B95A1A"
  const Red := "#e74c3c"

  /** `getMemoryColor`. */
  function MemoryColor(percent: real): (c: string)
    ensures c == Green <==> percent < 70.0
    ensures c == Orange <==> 70.0 <= percent < 85.0
    ensures c == Red <==> percent >= 85.0
  {
    if percent < 70.0 then Green else if percent < 85.0 then Orange else Red
  }

  /** How alarming a colour is. */
  function Severity(c: string): nat {
    if c == Green then 0 else if c == Orange then 1 else 2
  }

  /** More memory in use never gives a calmer colour. */
  lemma MemoryColorMonotone(p: real, q: real)
    requires p <= q
    ensures Severity(MemoryColor(p)) <= Severity(MemoryColor(q))
  {
  }

  /** The ping indicator's icon: full bars below 100 ms, two bars below
      300 ms, one bar from 300 ms. */
  function PingIcon(responseTime: int): (icon: string)
    ensures icon == "signal_cellular_alt" <==> responseTime < 100
    ensures icon == "signal_cellular_alt_2_bar" <==> 100 <= responseTime < 300
    ensures icon == "signal_cellular_alt_1_bar" <==> responseTime >= 300
  {
    if responseTime < 100 then "signal_cellular_alt"
    else if responseTime < 300 then "signal_cellular_alt_2_bar"
    else "signal_cellular_alt_1_bar"
  }

  /** The network card's status: success below 100 ms, warning below
      300 ms, error from 300 ms. */
  function PingStatus(responseTime: int): (status: string)
    ensures status == "success" <==> responseTime < 100
    ensures status == "warning" <==> 100 <= responseTime < 300
    ensures status == "error" <==> responseTime >= 300
  {
    if responseTime < 100 then "success" else if responseTime < 300 then "warning" else "error"
  }

  /** The icon and the card agree: both fall into the same band. */
  lemma SameBands(responseTime: int)
    ensures PingIcon(responseTime) == "signal_cellular_alt" <==> PingStatus(responseTime) == "success"
    ensures PingIcon(responseTime) == "signal_cellular_alt_2_bar" <==> PingStatus(responseTime) == "warning"
    ensures PingIcon(responseTime) == "signal_cellular_alt_1_bar" <==> PingStatus(responseTime) == "error"
  {
  }
}
