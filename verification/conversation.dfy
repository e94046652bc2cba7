/**
 * Conversation history: timestamped entries kept in a list bounded to the
 * newest `maxEntries`, with the queries the chatbot and its tools ask of it
 * (recent entries, the context handed to the language model, statistics,
 * search, age filtering) and the dictionary form an entry is saved as.
 * Timestamps are seconds on the wall clock, passed in as `now`.
 */
module Conversation {
  import opened Common
  import opened Text

  /** Free-form entry metadata; values are modelled as strings. */
  type Metadata = map<string, string>

  datatype Entry = Entry(role: string, content: string, timestamp: real, metadata: Metadata)

  /**
   * `ConversationEntry(role, content, timestamp)`: a missing or zero
   * timestamp (both falsy) is replaced by the clock; metadata starts empty.
   */
  function NewEntry(role: string, content: string, timestamp: Option<real>, now: real): (e: Entry)
    ensures e.role == role && e.content == content && e.metadata == map[]
    ensures timestamp.Some? && timestamp.value != 0.0 ==> e.timestamp == timestamp.value
    ensures timestamp.None? || timestamp.value == 0.0 ==> e.timestamp == now
  {
    var ts := if timestamp.Some? && timestamp.value != 0.0 then timestamp.value else now;
    Entry(role, content, ts, map[])
  }

  /**
   * A non-zero timestamp fixes the entry whatever the clock says; a zero
   * one counts as missing, so both take the clock.
   */
  lemma NewEntryFalsyStamp(role: string, content: string, t: real, now: real, later: real)
    ensures t != 0.0 ==> NewEntry(role, content, Some(t), now) == NewEntry(role, content, Some(t), later)
    ensures NewEntry(role, content, Some(0.0), now) == NewEntry(role, content, None, now)
    ensures NewEntry(role, content, None, now).timestamp == now
  {
  }

  /**
   * The saved dictionary of an entry. A field is `None` when its key is
   * absent (for the timestamp, also when it is `null`).
   */
  datatype EntryDict = EntryDict(
    role: Option<string>,
    content: Option<string>,
    timestamp: Option<real>,
    metadata: Option<Metadata>)

  /** `to_dict`: all four keys present. */
  function ToDict(e: Entry): (d: EntryDict)
    ensures d.role.Some? && d.content.Some? && d.timestamp.Some? && d.metadata.Some?
  {
    EntryDict(Some(e.role), Some(e.content), Some(e.timestamp), Some(e.metadata))
  }

  /**
   * `from_dict`: a missing role or content is a `KeyError` (`None` here);
   * the timestamp goes through the entry constructor and missing metadata
   * becomes empty.
   */
  function FromDict(d: EntryDict, now: real): (r: Option<Entry>)
    ensures r.Some? <==> d.role.Some? && d.content.Some?
    ensures r.Some? ==> r.value.role == d.role.value && r.value.content == d.content.value
    ensures r.Some? ==> r.value.metadata == d.metadata.GetOr(map[])
  {
    if d.role.None? || d.content.None? then None
    else
      var e := NewEntry(d.role.value, d.content.value, d.timestamp, now);
      Some(e.(metadata := d.metadata.GetOr(map[])))
  }

  /**
   * Saving and loading an entry gives it back, except that a zero
   * timestamp is falsy and is replaced by the clock at load time.
   */
  lemma DictRoundTrip(e: Entry, now: real)
    ensures e.timestamp != 0.0 ==> FromDict(ToDict(e), now) == Some(e)
    ensures e.timestamp == 0.0 ==> FromDict(ToDict(e), now) == Some(e.(timestamp := now))
  {
  }

  /** The number of entries with the given role. */
  function CountRole(es: seq<Entry>, role: string): (n: nat)
    ensures n <= |es|
  {
    if es == [] then 0 else (if es[0].role == role then 1 else 0) + CountRole(es[1..], role)
  }

  /** Different roles are counted on disjoint entries, so their counts add up to at most the total. */
  lemma {:induction false} CountRolesDisjoint(es: seq<Entry>, a: string, b: string)
    requires a != b
    ensures CountRole(es, a) + CountRole(es, b) <= |es|
  {
    if es != [] {
      CountRolesDisjoint(es[1..], a, b);
    }
  }

  /** The part of `get_stats` that exists only for a non-empty history. */
  datatype StatDetails = StatDetails(
    sessionId: string,
    firstMessageTime: real,
    lastMessageTime: real,
    durationMinutes: real)

  datatype Stats = Stats(
    totalEntries: nat,
    userMessages: nat,
    assistantMessages: nat,
    details: Option<StatDetails>)

  /** `get_stats` over a list of entries and the session id. */
  function StatsOf(es: seq<Entry>, sessionId: string): (s: Stats)
    ensures es == [] ==> s == Stats(0, 0, 0, None)
    ensures s.totalEntries == |es|
    ensures s.userMessages + s.assistantMessages <= s.totalEntries
    ensures s.userMessages == CountRole(es, "user") && s.assistantMessages == CountRole(es, "assistant")
    ensures es != [] ==> s.details == Some(StatDetails(sessionId, es[0].timestamp, es[|es| - 1].timestamp,
      (es[|es| - 1].timestamp - es[0].timestamp) / 60.0))
  {
    if es == [] then Stats(0, 0, 0, None)
    else
      CountRolesDisjoint(es, "user", "assistant");
      var first := es[0];
      var last := es[|es| - 1];
      Stats(|es|, CountRole(es, "user"), CountRole(es, "assistant"),
        Some(StatDetails(sessionId, first.timestamp, last.timestamp, (last.timestamp - first.timestamp) / 60.0)))
  }

  /** The search test: the query is a substring of the content, after lower-casing both unless case matters. */
  predicate Matches(e: Entry, query: string, caseSensitive: bool) {
    if caseSensitive then Contains(e.content, query) else Contains(Lower(e.content), Lower(query))
  }

  /** A case-insensitive search gives the same answer for a query in any case. */
  lemma CaseInsensitiveQuery(e: Entry, query: string)
    ensures Matches(e, Lower(query), false) == Matches(e, query, false)
  {
    LowerIdempotent(query);
  }

  /** The history and its bound. */
  class ConversationManager {
    /** The largest number of entries kept (50 by default). */
    const maxEntries: int
    const sessionId: string
    var entries: seq<Entry>

    constructor (sessionId: string, maxEntries: int := 50)
      ensures this.maxEntries == maxEntries && this.sessionId == sessionId && entries == []
    {
      this.maxEntries := maxEntries;
      this.sessionId := sessionId;
      entries := [];
    }

    /**
     * `add_entry`: the new entry, stamped with the clock, is appended last
     * and the list is trimmed to the newest `maxEntries`.
     */
    method AddEntry(role: string, content: string, metadata: Metadata, now: real) returns (entry: Entry)
      modifies this`entries
      ensures entry == Entry(role, content, now, metadata)
      ensures entries == KeepNewest(old(entries) + [entry], maxEntries)
    {
      entry := Entry(role, content, now, metadata);
      entries := entries + [entry];
      if |entries| > maxEntries {
        entries := SliceFrom(entries, -maxEntries);
      }
    }

    method AddUserMessage(content: string, metadata: Metadata, now: real) returns (entry: Entry)
      modifies this`entries
      ensures entry == Entry("user", content, now, metadata)
      ensures entries == KeepNewest(old(entries) + [entry], maxEntries)
    {
      entry := AddEntry("user", content, metadata, now);
    }

    method AddAssistantMessage(content: string, metadata: Metadata, now: real) returns (entry: Entry)
      modifies this`entries
      ensures entry == Entry("assistant", content, now, metadata)
      ensures entries == KeepNewest(old(entries) + [entry], maxEntries)
    {
      entry := AddEntry("assistant", content, metadata, now);
    }

    /** `get_recent_entries`: `entries[-count:]`, or nothing for an empty history. */
    function RecentEntries(count: int): (r: seq<Entry>)
      reads this
      ensures entries == [] ==> r == []
      ensures count >= 1 ==> |r| == (if count <= |entries| then count else |entries|) && r == entries[|entries| - |r|..]
      ensures count == 0 ==> r == entries
      ensures count < 0 ==> r == entries[if -count <= |entries| then -count else |entries|..]
    {
      if entries == [] then [] else SliceFrom(entries, -count)
    }

    /** `get_context_for_llm`: the recent entries as role/content messages. */
    function ContextForLlm(count: int := 8): (r: seq<ChatMessage>)
      reads this
      ensures |r| == |RecentEntries(count)|
      ensures forall j | 0 <= j < |r| ::
        r[j] == ChatMessage(RecentEntries(count)[j].role, RecentEntries(count)[j].content)
    {
      var recent := RecentEntries(count);
      seq(|recent|, j requires 0 <= j < |recent| => ChatMessage(recent[j].role, recent[j].content))
    }

    method ClearHistory()
      modifies this`entries
      ensures entries == []
    {
      entries := [];
    }

    function GetStats(): (s: Stats)
      reads this
      ensures s == StatsOf(entries, sessionId)
    {
      StatsOf(entries, sessionId)
    }

    /** `search_entries`: the entries whose content contains the query, in order. */
    method SearchEntries(query: string, caseSensitive: bool) returns (results: seq<Entry>)
      ensures results == Filter(entries, e => Matches(e, query, caseSensitive))
    {
      var p := e => Matches(e, query, caseSensitive);
      results := [];
      var i := 0;
      while i < |entries|
        invariant 0 <= i <= |entries|
        invariant results == Filter(entries[..i], p)
      {
        var e := entries[i];
        if Matches(e, query, caseSensitive) {
          results := results + [e];
        }
        FilterConcat(entries[..i], [e], p);
        assert entries[..i + 1] == entries[..i] + [e];
        i := i + 1;
      }
      assert entries[..i] == entries;
    }

    /**
     * `get_entries_by_timeframe`: entries no older than `minutesAgo` minutes,
     * in history order and with repeats kept, as the comprehension yields them.
     */
    function EntriesByTimeframe(minutesAgo: int, now: real): (r: seq<Entry>)
      reads this
      ensures forall x :: x in r <==> x in entries && x.timestamp >= now - (minutesAgo * 60) as real
      ensures r == Filter(entries, (e: Entry) => e.timestamp >= now - (minutesAgo * 60) as real)
    {
      var cutoff := now - (minutesAgo * 60) as real;
      var p := (e: Entry) => e.timestamp >= cutoff;
      forall x ensures x in Filter(entries, p) <==> x in entries && p(x) {
        FilterMembers(entries, p, x);
      }
      Filter(entries, p)
    }

    /** `cleanup_old_entries`: keeps exactly the entries stamped at or after the cutoff, in order. */
    method CleanupOldEntries(maxAgeHours: int, now: real)
      modifies this`entries
      ensures entries == Filter(old(entries), (e: Entry) => e.timestamp >= now - (maxAgeHours * 3600) as real)
    {
      var cutoff := now - (maxAgeHours * 3600) as real;
      entries := Filter(entries, (e: Entry) => e.timestamp >= cutoff);
    }
  }

  /** Search and cleanup keep exactly the qualifying entries. */
  lemma FilterKeepsExactly(es: seq<Entry>, p: Entry -> bool, x: Entry)
    ensures x in Filter(es, p) <==> x in es && p(x)
  {
    FilterMembers(es, p, x);
  }

  /**
   * The bound `add_entry` keeps: with `maxEntries >= 1`, appending to a
   * history within the bound gives a history within the bound whose last
   * entry is the new one, preceded by the newest of the old entries.
   */
  lemma AddEntryBounded(old_entries: seq<Entry>, e: Entry, maxEntries: int)
    requires maxEntries >= 1
    ensures |KeepNewest(old_entries + [e], maxEntries)| <= maxEntries
    ensures var r := KeepNewest(old_entries + [e], maxEntries);
      r[|r| - 1] == e && r[..|r| - 1] == old_entries[|old_entries| + 1 - |r|..]
  {
    AppendThenTrim(old_entries, e, maxEntries);
  }

  /** With `maxEntries == 0` the `[-0:]` slice keeps everything: the history grows without bound. */
  lemma AddEntryZeroCapKeepsAll(old_entries: seq<Entry>, e: Entry)
    ensures KeepNewest(old_entries + [e], 0) == old_entries + [e]
  {
    TrimWithNonPositiveCap(old_entries + [e], 0);
  }
}
