/**
 * The history panel of one command: it shows the saved command strings with
 * a relative age ("Just now", "5 minutes ago", "3 days ago") and falls back to
 * the absolute date once an entry is a week old.
 */
module History {
  import opened Text
  import Service

  const MinuteMs: int := 60000
  const HourMs: int := 3600000
  const DayMs: int := 86400000
  const WeekMs: int := 7 * DayMs

  /**
   * The label under an entry. The absolute form is rendered by the browser's
   * locale (`toLocaleDateString` and `toLocaleTimeString`), so the model keeps
   * only the timestamp it is rendered from.
   */
  datatype Age = Relative(text: string) | Absolute(timestamp: int)

  /** "`n` `unit` ago", with the unit pluralised exactly when `n > 1`. */
  function Ago(n: nat, unit: string): string {
    NatToString(n) + " " + unit + (if n > 1 then "s" else "") + " ago"
  }

  /**
   * `formatTimestamp(timestamp)` read at the instant `now` (both in
   * milliseconds). `Math.floor` of a quotient by a positive constant is
   * Dafny's `/` on `int`; a timestamp in the future gives a negative
   * difference and so "Just now".
   */
  function FormatTimestamp(now: int, timestamp: int): (r: Age)
    ensures r == Relative("Just now") <==> now - timestamp < MinuteMs
    ensures r.Absolute? <==> now - timestamp >= WeekMs
    ensures r.Absolute? ==> r.timestamp == timestamp
  {
    var diffMs := now - timestamp;
    var diffMins := diffMs / MinuteMs;
    var diffHours := diffMs / HourMs;
    var diffDays := diffMs / DayMs;
    if diffMins < 1 then Relative("Just now")
    else if diffMins < 60 then AgoNotJustNow(diffMins, "minute"); Relative(Ago(diffMins, "minute"))
    else if diffHours < 24 then AgoNotJustNow(diffHours, "hour"); Relative(Ago(diffHours, "hour"))
    else if diffDays < 7 then AgoNotJustNow(diffDays, "day"); Relative(Ago(diffDays, "day"))
    else Absolute(timestamp)
  }

  lemma AgoNotJustNow(n: nat, unit: string)
    ensures Ago(n, unit) != "Just now"
  {
    NatToStringDigits(n);
    assert IsDigit(Ago(n, unit)[0]);
  }

  /** Between `n` and `n + 1` whole minutes, under an hour: "`n` minute(s) ago". */
  lemma MinutesAgo(now: int, timestamp: int, n: nat)
    requires 1 <= n < 60
    requires n * MinuteMs <= now - timestamp < (n + 1) * MinuteMs
    ensures FormatTimestamp(now, timestamp) == Relative(Ago(n, "minute"))
  {
    assert (now - timestamp) / MinuteMs == n;
  }

  /** Between `n` and `n + 1` whole hours, under a day: "`n` hour(s) ago". */
  lemma HoursAgo(now: int, timestamp: int, n: nat)
    requires 1 <= n < 24
    requires n * HourMs <= now - timestamp < (n + 1) * HourMs
    ensures FormatTimestamp(now, timestamp) == Relative(Ago(n, "hour"))
  {
    assert (now - timestamp) / MinuteMs >= 60;
    assert (now - timestamp) / HourMs == n;
  }

  /** Between `n` and `n + 1` whole days, under a week: "`n` day(s) ago". */
  lemma DaysAgo(now: int, timestamp: int, n: nat)
    requires 1 <= n < 7
    requires n * DayMs <= now - timestamp < (n + 1) * DayMs
    ensures FormatTimestamp(now, timestamp) == Relative(Ago(n, "day"))
  {
    assert (now - timestamp) / MinuteMs >= 60;
    assert (now - timestamp) / HourMs >= 24;
    assert (now - timestamp) / DayMs == n;
  }

  /**
   * The count in the label reads back as the number it was made from, it is
   * followed by a space, and the unit carries a plural "s" exactly when the
   * count exceeds one.
   */
  lemma AgoReadsBack(n: nat, unit: string)
    requires unit != [] && unit[|unit| - 1] != 's'
    ensures var s := Ago(n, unit); var k := |NatToString(n)|;
      && k < |s|
      && (forall i :: 0 <= i < k ==> IsDigit(s[i]))
      && ParseNat(s[..k]) == n
      && s[k] == ' '
      && (s[|s| - 5..] == "s ago" <==> n > 1)
  {
    var s := Ago(n, unit);
    var k := |NatToString(n)|;
    assert s[..k] == NatToString(n);
    NatToStringRoundTrip(n);
    if n <= 1 {
      assert s[|s| - 5] == unit[|unit| - 1];
    }
  }

  /** Different counts give different labels for the same unit. */
  lemma AgoInjective(m: nat, n: nat, unit: string)
    ensures Ago(m, unit) == Ago(n, unit) ==> m == n
  {
    if Ago(m, unit) == Ago(n, unit) {
      var s, a, b := Ago(m, unit), NatToString(m), NatToString(n);
      NatToStringDigits(m);
      NatToStringDigits(n);
      assert s == a + (" " + unit + (if m > 1 then "s" else "") + " ago");
      assert s == b + (" " + unit + (if n > 1 then "s" else "") + " ago");
      assert s[|a|] == ' ' && s[|b|] == ' ';
      assert forall i :: 0 <= i < |a| ==> s[i] == a[i] && s[i] != ' ';
      assert forall i :: 0 <= i < |b| ==> s[i] == b[i] && s[i] != ' ';
      assert |a| == |b|;
      assert a == s[..|a|] == b;
      NatToStringInjective(m, n);
    }
  }

  /** Under a minute, and from one minute on. */
  lemma MinuteBoundary(now: int)
    ensures FormatTimestamp(now, now - 59999) == Relative("Just now")
    ensures FormatTimestamp(now, now - 60000) == Relative("1 minute ago")
  {
    MinutesAgo(now, now - 60000, 1);
  }

  /** The last minute-label and the first hour-label. */
  lemma HourBoundary(now: int)
    ensures FormatTimestamp(now, now - 3599999) == Relative("59 minutes ago")
    ensures FormatTimestamp(now, now - 3600000) == Relative("1 hour ago")
  {
    MinutesAgo(now, now - 3599999, 59);
    assert NatToString(59) == "59";
    HoursAgo(now, now - 3600000, 1);
  }

  /** The last hour-label and the first day-label. */
  lemma DayBoundary(now: int)
    ensures FormatTimestamp(now, now - 86399999) == Relative("23 hours ago")
    ensures FormatTimestamp(now, now - 86400000) == Relative("1 day ago")
  {
    HoursAgo(now, now - 86399999, 23);
    assert NatToString(23) == "23";
    DaysAgo(now, now - 86400000, 1);
  }

  /** The last day-label, then the absolute date from seven days on. */
  lemma WeekBoundary(now: int)
    ensures FormatTimestamp(now, now - 604799999) == Relative("6 days ago")
    ensures FormatTimestamp(now, now - 604800000) == Absolute(now - 604800000)
  {
    DaysAgo(now, now - 604799999, 6);
  }

  /** The component showing the history of the command `commandId`. */
  class CommandHistoryComponent {
    const commandId: string
    const commandService: Service.CommandService
    var historyData: seq<Service.HistoryEntry>

    /** The constructor's effect loads the history when the id is non-empty. */
    constructor (commandId: string, commandService: Service.CommandService)
      ensures this.commandId == commandId && this.commandService == commandService
      ensures historyData == if commandId != "" then commandService.GetHistory(commandId) else []
    {
      this.commandId := commandId;
      this.commandService := commandService;
      historyData := if commandId != "" then commandService.GetHistory(commandId) else [];
    }

    /** `loadHistory`: the panel shows what the service reads for this id. */
    method LoadHistory()
      modifies this
      ensures historyData == commandService.GetHistory(commandId)
    {
      var history := commandService.GetHistory(commandId);
      historyData := history;
    }

    /**
     * `clearHistory`: the service drops the id's history and the panel
     * reloads; when the removal throws, the panel shows what was there.
     */
    method ClearHistory(removeFails: bool)
      requires commandService.Valid()
      modifies this, commandService
      ensures commandService.Valid()
      ensures commandService.commandsData == old(commandService.commandsData)
      ensures commandService.storage ==
        if !commandService.isBrowser || removeFails then old(commandService.storage)
        else Service.Cleared(old(commandService.storage), commandId)
      ensures !removeFails ==> historyData == []
      ensures removeFails ==> historyData == old(commandService.GetHistory(commandId))
      ensures forall other :: other != commandId ==>
        commandService.GetHistory(other) == old(commandService.GetHistory(other))
    {
      commandService.ClearHistory(commandId, removeFails);
      LoadHistory();
    }
  }
}
