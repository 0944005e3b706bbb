/** ActivityLogger.cs: a time-stamped log of at most fifty entries that drops
    the oldest entry first. */
module Activity {
  import opened Text
  import opened CyberTasks

  const Capacity: nat := 50

  /** A log entry: the clock reading as "yyyy-MM-dd HH:mm", a colon and a space, then the activity, with the clock reading
      passed in. */
  function Entry(now: DateTime, activity: string): string
  {
    FormatDate(now) + ": " + activity
  }

  /** The log after LogActivity adds `entry`: the entry goes at the end and,
      once there are more than fifty, the oldest is removed. */
  function Logged(log: seq<string>, entry: string): (r: seq<string>)
    ensures |log| <= Capacity ==> |r| <= Capacity
    ensures |log| < Capacity ==> r == log + [entry]
    ensures |log| == Capacity ==> |r| == Capacity && r == log[1..] + [entry]
    ensures 0 < |r| <= |log| + 1 && r[|r| - 1] == entry
    ensures r[..|r| - 1] == log[|log| + 1 - |r|..]
  {
    var added := log + [entry];
    if |added| > Capacity then
      assert added[1..] == log[1..] + [entry];
      assert added[1..][..|log| - 1] == log[1..];
      added[1..]
    else
      assert added[..|log|] == log;
      added
  }

  const NoActivities: string := "No activities logged yet."
  const ActivitiesHeader: string := "Recent activities:\n"

  /** One line of the activity listing: a dash, a space, the entry, a line break. */
  function ActivityLine(activity: string): string
  {
    "- " + activity + NewLine
  }

  /** The lines of the listing, in log order. */
  function ActivityLines(log: seq<string>): (r: seq<string>)
    ensures |r| == |log|
  {
    seq(|log|, i requires 0 <= i < |log| => ActivityLine(log[i]))
  }

  /** The message ShowActivityLog posts: the no-activities message for an
      empty log, and otherwise the header followed by one line per entry. */
  function ActivityListing(log: seq<string>): (r: string)
    ensures log == [] ==> r == NoActivities
    ensures log != [] ==> StartsWith(r, ActivitiesHeader)
  {
    if log == [] then NoActivities else ActivitiesHeader + Concat(ActivityLines(log))
  }

  /** The listing shows every entry once, in log order, after the header. */
  lemma ActivityLineInPlace(log: seq<string>, i: nat)
    requires i < |log|
    ensures var lines := ActivityLines(log);
      ActivityListing(log) == ActivitiesHeader
        + (Concat(lines[..i]) + ActivityLine(log[i]) + Concat(lines[i + 1..]))
  {
    ConcatAt(ActivityLines(log), i);
  }

  /** A run of log operations never takes the log past fifty entries. */
  lemma {:induction false} LoggedAllBounded(log: seq<string>, entries: seq<string>)
    requires |log| <= Capacity
    ensures |LoggedAll(log, entries)| <= Capacity
    ensures |LoggedAll(log, entries)| == if |log| + |entries| < Capacity then |log| + |entries| else Capacity
    decreases |entries|
  {
    if entries != [] {
      LoggedAllBounded(Logged(log, entries[0]), entries[1..]);
    }
  }

  /** Logging the entries one after another. */
  function LoggedAll(log: seq<string>, entries: seq<string>): seq<string>
    decreases |entries|
  {
    if entries == [] then log else LoggedAll(Logged(log, entries[0]), entries[1..])
  }

  /** The activity log. */
  class ActivityLogger {
    var log: seq<string>

    /** At most fifty entries, as every LogActivity leaves it. */
    predicate Valid()
      reads this
    {
      |log| <= Capacity
    }

    constructor()
      ensures log == [] && Valid()
    {
      log := [];
    }

    /** LogActivity(activity), at clock reading `now`. */
    method LogActivity(now: DateTime, activity: string)
      requires Valid()
      modifies this
      ensures Valid()
      ensures log == Logged(old(log), Entry(now, activity))
    {
      log := log + [FormatDate(now) + ": " + activity];
      if |log| > Capacity {
        log := log[1..];
      }
    }

    /** ShowActivityLog(): reads the log and changes nothing. */
    method ShowActivityLog() returns (msg: string)
      ensures msg == ActivityListing(log)
    {
      if |log| > 0 {
        var sb := ActivitiesHeader;
        ghost var lines := ActivityLines(log);
        for i := 0 to |log|
          invariant sb == ActivitiesHeader + Concat(lines[..i])
        {
          var line := "- " + log[i] + NewLine;
          assert line == lines[i];
          AppendAssoc(ActivitiesHeader, Concat(lines[..i]), line);
          sb := sb + line;
          ConcatPrefix(lines, i);
        }
        assert lines[..|log|] == lines;
        msg := sb;
      } else {
        msg := NoActivities;
      }
    }

    /** GetActivityCount(). */
    function GetActivityCount(): (n: nat)
      reads this
      ensures Valid() ==> n <= Capacity
    {
      |log|
    }
  }
}
