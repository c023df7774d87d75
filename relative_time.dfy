/**
 * `getTimeAgo`, written out identically on the Reports page and in the notification
 * menu: the time since a date, in the largest whole unit under the next threshold.
 * The clock is a parameter: `elapsedMs` is `new Date().getTime() - date.getTime()`.
 */
module RelativeTime {
  import Text

  const MsPerMinute := 60 * 1000
  const MsPerHour := 60 * MsPerMinute
  const MsPerDay := 24 * MsPerHour

  /**
   * Whole seconds by floor division (Dafny's `/` floors for a positive divisor, as
   * `Math.floor` does on the quotient), then whole minutes, hours and days.
   */
  function TimeAgo(elapsedMs: int): string {
    var seconds := elapsedMs / 1000;
    if seconds < 60 then "just now"
    else
      var minutes := seconds / 60;
      if minutes < 60 then Text.IntToString(minutes) + "m ago"
      else
        var hours := minutes / 60;
        if hours < 24 then Text.IntToString(hours) + "h ago"
        else Text.IntToString(hours / 24) + "d ago"
  }

  /**
   * The buckets in terms of the elapsed milliseconds: "just now" under a minute
   * (and for any date in the future), else whole minutes under an hour, whole hours
   * under a day, and whole days beyond; the count shown is at least 1 and below the
   * next unit.
   */
  lemma TimeAgoBuckets(elapsedMs: int)
    ensures elapsedMs < MsPerMinute <==> TimeAgo(elapsedMs) == "just now"
    ensures MsPerMinute <= elapsedMs < MsPerHour ==>
      (1 <= elapsedMs / MsPerMinute < 60 && TimeAgo(elapsedMs) == Text.NatToString(elapsedMs / MsPerMinute) + "m ago")
    ensures MsPerHour <= elapsedMs < MsPerDay ==>
      (1 <= elapsedMs / MsPerHour < 24 && TimeAgo(elapsedMs) == Text.NatToString(elapsedMs / MsPerHour) + "h ago")
    ensures MsPerDay <= elapsedMs ==>
      (1 <= elapsedMs / MsPerDay && TimeAgo(elapsedMs) == Text.NatToString(elapsedMs / MsPerDay) + "d ago")
  {
    var seconds := elapsedMs / 1000;
    assert seconds / 60 == elapsedMs / 60000;
    assert seconds / 60 / 60 == elapsedMs / 3600000;
    assert seconds / 60 / 60 / 24 == elapsedMs / 86400000;
    if seconds >= 60 {
      assert TimeAgo(elapsedMs) != "just now" by {
        var t := TimeAgo(elapsedMs);
        assert t[|t| - 1] == 'o';
      }
    }
  }

  /** The catalogue's "last generated" offsets of one day, two hours and thirty minutes. */
  lemma CatalogueOffsets()
    ensures TimeAgo(1000 * 60 * 60 * 24) == "1d ago"
    ensures TimeAgo(1000 * 60 * 60 * 2) == "2h ago"
    ensures TimeAgo(1000 * 60 * 30) == "30m ago"
  {
    TimeAgoBuckets(1000 * 60 * 60 * 24);
    TimeAgoBuckets(1000 * 60 * 60 * 2);
    TimeAgoBuckets(1000 * 60 * 30);
  }
}
