/** ChatHistoryManager.cs: the shared conversation log, one prefixed entry per
    message. */
module History {
  import opened Text

  const SystemPrefix: string := "System: "
  const UserPrefix: string := "User: "
  const ClearedMarker: string := "Chat history cleared."

  /** An entry without its "System: " or "User: " prefix; other entries are
      returned as they are. */
  function StripPrefix(entry: string): (r: string)
    ensures |r| <= |entry| && r == entry[|entry| - |r|..]
  {
    if StartsWith(entry, SystemPrefix) then entry[|SystemPrefix|..]
    else if StartsWith(entry, UserPrefix) then entry[|UserPrefix|..]
    else entry
  }

  /** GetLatestEntryContent(). */
  function LatestContent(entries: seq<string>): (r: string)
    ensures entries == [] ==> r == ""
    ensures entries != [] ==>
      var last := entries[|entries| - 1];
      |r| <= |last| && r == last[|last| - |r|..]
  {
    if entries == [] then "" else StripPrefix(entries[|entries| - 1])
  }

  /** A system message reads back unchanged as the latest content. */
  lemma LatestAfterSystem(entries: seq<string>, m: string)
    ensures LatestContent(entries + [SystemPrefix + m]) == m
  {
    var e := SystemPrefix + m;
    assert (entries + [e])[|entries|] == e;
    assert e[..|SystemPrefix|] == SystemPrefix;
    assert e[|SystemPrefix|..] == m;
  }

  /** A user message reads back unchanged as the latest content. */
  lemma LatestAfterUser(entries: seq<string>, m: string)
    ensures LatestContent(entries + [UserPrefix + m]) == m
  {
    var e := UserPrefix + m;
    assert (entries + [e])[|entries|] == e;
    assert e[0] == 'U';
    assert !StartsWith(e, SystemPrefix) by {
      assert SystemPrefix[0] == 'S';
    }
    assert e[..|UserPrefix|] == UserPrefix;
    assert e[|UserPrefix|..] == m;
  }

  /** The entries a run of callback messages adds, one "System: " entry each,
      in the order posted. */
  function Posted(msgs: seq<string>): (r: seq<string>)
    ensures |r| == |msgs|
  {
    seq(|msgs|, i requires 0 <= i < |msgs| => SystemPrefix + msgs[i])
  }

  /** After a run of messages the latest content is the last message. */
  lemma LatestAfterPosted(entries: seq<string>, msgs: seq<string>)
    requires msgs != []
    ensures LatestContent(entries + Posted(msgs)) == msgs[|msgs| - 1]
  {
    var last := msgs[|msgs| - 1];
    assert entries + Posted(msgs) == (entries + Posted(msgs[..|msgs| - 1])) + [SystemPrefix + last];
    LatestAfterSystem(entries + Posted(msgs[..|msgs| - 1]), last);
  }

  /** The display form of one entry, as GetChatHistory writes it. */
  function DisplayLine(entry: string): string
  {
    if StartsWith(entry, SystemPrefix) then "Bot: " + entry[|SystemPrefix|..]
    else if StartsWith(entry, UserPrefix) then "You: " + entry[|UserPrefix|..]
    else entry
  }

  /** System messages show as "Bot: " and user messages as "You: ". */
  lemma DisplayOfMessages(m: string)
    ensures DisplayLine(SystemPrefix + m) == "Bot: " + m
    ensures DisplayLine(UserPrefix + m) == "You: " + m
  {
    var s, u := SystemPrefix + m, UserPrefix + m;
    assert s[..|SystemPrefix|] == SystemPrefix && s[|SystemPrefix|..] == m;
    assert u[0] == 'U' && SystemPrefix[0] == 'S';
    assert u[..|UserPrefix|] == UserPrefix && u[|UserPrefix|..] == m;
  }

  /** The display lines in insertion order. */
  function DisplayLines(entries: seq<string>): (r: seq<string>)
    ensures |r| == |entries|
  {
    seq(|entries|, i requires 0 <= i < |entries| => DisplayLine(entries[i]))
  }

  /** GetChatHistory(): the display lines joined with Environment.NewLine. */
  function Transcript(entries: seq<string>): (r: string)
    ensures entries == [] ==> r == ""
    ensures |entries| == 1 ==> r == DisplayLine(entries[0])
  {
    Join(DisplayLines(entries), NewLine)
  }

  /** A new entry adds a line break and its display line at the end of the
      transcript, and leaves the earlier text as it was. */
  lemma TranscriptAppend(entries: seq<string>, e: string)
    requires entries != []
    ensures Transcript(entries + [e]) == Transcript(entries) + NewLine + DisplayLine(e)
  {
    assert DisplayLines(entries + [e]) == DisplayLines(entries) + [DisplayLine(e)];
    JoinAppend(DisplayLines(entries), DisplayLine(e), NewLine);
  }

  /** The history store. */
  class ChatHistoryManager {
    var entries: seq<string>

    constructor()
      ensures entries == []
    {
      entries := [];
    }

    /** GetLatestEntryContent(). */
    function GetLatestEntryContent(): (r: string)
      reads this
      ensures entries == [] ==> r == ""
      ensures entries != [] ==>
        var last := entries[|entries| - 1];
        if StartsWith(last, SystemPrefix) then last == SystemPrefix + r
        else if StartsWith(last, UserPrefix) then last == UserPrefix + r
        else r == last
    {
      LatestContent(entries)
    }

    /** AddSystemMessage(message): one entry at the end, nothing else changes. */
    method AddSystemMessage(message: string)
      modifies this
      ensures entries == old(entries) + [SystemPrefix + message]
    {
      entries := entries + [SystemPrefix + message];
    }

    /** AddUserMessage(message). */
    method AddUserMessage(message: string)
      modifies this
      ensures entries == old(entries) + [UserPrefix + message]
    {
      entries := entries + [UserPrefix + message];
    }

    /** ClearHistory(): only the cleared marker is left. */
    method ClearHistory()
      modifies this
      ensures entries == [SystemPrefix + ClearedMarker]
    {
      entries := [];
      AddSystemMessage(ClearedMarker);
    }
  }
}
