/** The task record of CyberTask.cs and the reminder timestamps it carries. */
module CyberTasks {
  import opened Wrappers
  import opened Text

  /** A .NET DateTime value.  Only the fields that the format "yyyy-MM-dd HH:mm"
      shows are kept; the model never compares or computes with timestamps. */
  datatype DateTime = DateTime(year: nat, month: nat, day: nat, hour: nat, minute: nat)
  {
    /** The ranges a DateTime value always respects. */
    predicate Valid()
    {
      1 <= year <= 9999 && 1 <= month <= 12 && 1 <= day <= 31 && hour < 24 && minute < 60
    }
  }

  /** A timestamp in the "yyyy-MM-dd HH:mm" layout. */
  function FormatDate(d: DateTime): string
  {
    ZeroPad(d.year, 4) + "-" + ZeroPad(d.month, 2) + "-" + ZeroPad(d.day, 2)
    + " " + ZeroPad(d.hour, 2) + ":" + ZeroPad(d.minute, 2)
  }

  /** A formatted timestamp of a valid DateTime is sixteen characters with the
      separators at fixed places, and every field can be read back from it. */
  lemma FormatDateFields(d: DateTime)
    requires d.Valid()
    ensures var r := FormatDate(d);
      && |r| == 16
      && r[4] == '-' && r[7] == '-' && r[10] == ' ' && r[13] == ':'
      && AllDigits(r[0..4]) && DigitsValue(r[0..4]) == d.year
      && AllDigits(r[5..7]) && DigitsValue(r[5..7]) == d.month
      && AllDigits(r[8..10]) && DigitsValue(r[8..10]) == d.day
      && AllDigits(r[11..13]) && DigitsValue(r[11..13]) == d.hour
      && AllDigits(r[14..16]) && DigitsValue(r[14..16]) == d.minute
  {
    assert Pow10(2) == 100 && Pow10(4) == 10000;
    WidthOfSmall(d.year, 4);
    WidthOfSmall(d.month, 2);
    WidthOfSmall(d.day, 2);
    WidthOfSmall(d.hour, 2);
    WidthOfSmall(d.minute, 2);
    ZeroPadValue(d.year, 4);
    ZeroPadValue(d.month, 2);
    ZeroPadValue(d.day, 2);
    ZeroPadValue(d.hour, 2);
    ZeroPadValue(d.minute, 2);
    DateLayout(ZeroPad(d.year, 4), ZeroPad(d.month, 2), ZeroPad(d.day, 2),
               ZeroPad(d.hour, 2), ZeroPad(d.minute, 2));
  }

  /** Where the five fields sit in "yyyy-MM-dd HH:mm". */
  lemma DateLayout(y: string, mo: string, da: string, h: string, mi: string)
    requires |y| == 4 && |mo| == 2 && |da| == 2 && |h| == 2 && |mi| == 2
    ensures var r := y + "-" + mo + "-" + da + " " + h + ":" + mi;
      && |r| == 16
      && r[4] == '-' && r[7] == '-' && r[10] == ' ' && r[13] == ':'
      && r[0..4] == y && r[5..7] == mo && r[8..10] == da && r[11..13] == h && r[14..16] == mi
  {
    var r := y + "-" + mo + "-" + da + " " + h + ":" + mi;
    var front := y + "-" + mo + "-" + da + " " + h + ":";
    assert |front| == 14 && r == front + mi;
    assert r[14..16] == mi;
    assert r[0..4] == y;
    assert r[5..7] == mo;
    assert r[8..10] == da;
    assert r[11..13] == h;
  }

  /** A number below 10^width is written in exactly `width` digits once padded. */
  lemma WidthOfSmall(n: nat, width: nat)
    requires 1 <= width && n < Pow10(width)
    ensures |ZeroPad(n, width)| == width
  {
    NatToStringShort(n, width);
  }

  /** The task record.  C# leaves Title and Description null in `new CyberTask()`;
      the model uses "" there, which string interpolation prints the same way. */
  datatype CyberTask = CyberTask(
    Title: string,
    Description: string,
    ReminderDate: Option<DateTime>,
    IsCompleted: bool,
    IsNotified: bool)

  /** `new CyberTask()`. */
  function NewTask(): (t: CyberTask)
    ensures !t.IsCompleted && !t.IsNotified && t.ReminderDate.None?
  {
    CyberTask("", "", None, false, false)
  }

  const CompletedTag: string := "[COMPLETED]"
  const ActiveTag: string := "[ACTIVE]"

  /** The " (Due: ...)" segment, empty when there is no reminder. */
  function DueInfo(reminder: Option<DateTime>): string
  {
    match reminder
    case Some(d) => " (Due: " + FormatDate(d) + ")"
    case None => ""
  }

  /** CyberTask.ToString(). */
  function TaskToString(t: CyberTask): (r: string)
    ensures StartsWith(r, CompletedTag) <==> t.IsCompleted
    ensures StartsWith(r, ActiveTag) <==> !t.IsCompleted
  {
    var status := if t.IsCompleted then CompletedTag else ActiveTag;
    var r := status + " " + t.Title + DueInfo(t.ReminderDate) + " - " + t.Description;
    assert r[..|status|] == status;
    assert t.IsCompleted ==> r[1] == 'C';
    assert !t.IsCompleted ==> r[1] == 'A';
    r
  }

  /** Without a reminder the rendering is status, a space, the title, " - " and
      the description, with no due segment. */
  lemma TaskToStringUndated(t: CyberTask)
    requires t.ReminderDate.None?
    ensures TaskToString(t) ==
      (if t.IsCompleted then CompletedTag else ActiveTag) + " " + t.Title + " - " + t.Description
  {
  }

  /** With a reminder the due segment is part of the rendering. */
  lemma TaskToStringDated(t: CyberTask)
    requires t.ReminderDate.Some?
    ensures Contains(TaskToString(t), " (Due: " + FormatDate(t.ReminderDate.value) + ")")
  {
    var status := if t.IsCompleted then CompletedTag else ActiveTag;
    var due := DueInfo(t.ReminderDate);
    var head := status + " " + t.Title;
    var tail := " - " + t.Description;
    assert TaskToString(t) == head + due + tail;
    ContainsInfix(head, due, tail);
  }
}
