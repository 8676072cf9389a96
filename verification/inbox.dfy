/**
  The inbox page's pure helpers: the display name of a contact, the
  channel and search filters, the kanban status of a thread and the
  split of the filtered threads into the four columns.
 */
module Inbox {
  import opened Wrappers
  import opened Strings
  import opened Domain
  import opened Seqs

  /** A thread as the page receives it: the contact and at most its latest message. */
  datatype ThreadView = ThreadView(unreadCount: int, contact: Contact, latest: Option<Message>)

  /**
    `firstName lastName`, trimmed, when either part is set; otherwise the
    phone, the email or "Unknown", in that order of preference.
   */
  function ContactName(c: Contact): (r: string)
    ensures (c.firstName != "" || c.lastName != "") ==> r == Trim(c.firstName + " " + c.lastName)
    ensures (c.firstName != "" || c.lastName != "") ==> (|r| == 0 || (!IsSpace(r[0]) && !IsSpace(r[|r| - 1])))
    ensures c.firstName == "" && c.lastName == "" ==> r != "" && (r == c.phone || r == c.email || r == "Unknown")
    ensures c.firstName == "" && c.lastName == "" && c.phone != "" ==> r == c.phone
    ensures c.firstName == "" && c.lastName == "" && c.phone == "" && c.email != "" ==> r == c.email
  {
    if c.firstName != "" || c.lastName != "" then
      TrimFacts(c.firstName + " " + c.lastName);
      Trim(c.firstName + " " + c.lastName)
    else if c.phone != "" then c.phone
    else if c.email != "" then c.email
    else "Unknown"
  }

  /** The channel selector: "all" or one channel. */
  datatype ChannelFilter = AllChannels | OnlyChannel(channel: Channel)

  /** A thread passes a channel filter when its latest message is on that channel. */
  predicate ChannelKeeps(f: ChannelFilter, t: ThreadView) {
    f.AllChannels? || (t.latest.Some? && t.latest.value.channel == f.channel)
  }

  function LatestContent(t: ThreadView): string {
    if t.latest.Some? then t.latest.value.content else ""
  }

  /** The lower-cased query (untrimmed) occurs in the lower-cased name, phone, email or latest content. */
  predicate MatchesQuery(t: ThreadView, query: string) {
    var q := Lower(query);
    || IsSubstring(q, Lower(ContactName(t.contact)))
    || IsSubstring(q, Lower(t.contact.phone))
    || IsSubstring(q, Lower(t.contact.email))
    || IsSubstring(q, Lower(LatestContent(t)))
  }

  /** The search applies only when the trimmed query is non-empty. */
  predicate SearchKeeps(query: string, t: ThreadView) {
    Trim(query) == "" || MatchesQuery(t, query)
  }

  /** Both filters at once: the one-pass reading of the filter effect. */
  predicate Keeps(f: ChannelFilter, query: string, t: ThreadView) {
    ChannelKeeps(f, t) && SearchKeeps(query, t)
  }

  /** The filter effect: the channel pass (unless "all"), then the search pass (unless the query is blank). */
  function FilterThreads(ts: seq<ThreadView>, f: ChannelFilter, query: string): seq<ThreadView>
  {
    var byChannel := if f.AllChannels? then ts else Filter(ts, (t: ThreadView) => ChannelKeeps(f, t));
    if Trim(query) == "" then byChannel else Filter(byChannel, (t: ThreadView) => MatchesQuery(t, query))
  }

  /** The two passes keep, in order, exactly the threads that pass both filters. */
  lemma FilterThreadsSpec(ts: seq<ThreadView>, f: ChannelFilter, query: string)
    ensures FilterThreads(ts, f, query) == Filter(ts, (t: ThreadView) => Keeps(f, query, t))
  {
    var channel := (t: ThreadView) => ChannelKeeps(f, t);
    var search := (t: ThreadView) => SearchKeeps(query, t);
    ChannelPass(ts, f);
    SearchPass(Filter(ts, channel), query);
    FilterFilter(ts, channel, search, (t: ThreadView) => Keeps(f, query, t));
  }

  lemma ChannelPass(ts: seq<ThreadView>, f: ChannelFilter)
    ensures (if f.AllChannels? then ts else Filter(ts, (t: ThreadView) => ChannelKeeps(f, t)))
         == Filter(ts, (t: ThreadView) => ChannelKeeps(f, t))
  {
    if f.AllChannels? {
      FilterKeepsAll(ts, (t: ThreadView) => ChannelKeeps(f, t));
    }
  }

  lemma SearchPass(ts: seq<ThreadView>, query: string)
    ensures (if Trim(query) == "" then ts else Filter(ts, (t: ThreadView) => MatchesQuery(t, query)))
         == Filter(ts, (t: ThreadView) => SearchKeeps(query, t))
  {
    if Trim(query) == "" {
      FilterKeepsAll(ts, (t: ThreadView) => SearchKeeps(query, t));
    } else {
      FilterSame(ts, (t: ThreadView) => MatchesQuery(t, query), (t: ThreadView) => SearchKeeps(query, t));
    }
  }

  /** With "all" channels and a query of only whitespace every thread is shown. */
  lemma FilterThreadsNoFilter(ts: seq<ThreadView>, query: string)
    requires AllSpace(query)
    ensures FilterThreads(ts, AllChannels, query) == ts
  {
    TrimFacts(query);
    SearchPass(ts, query);
    FilterKeepsAll(ts, (t: ThreadView) => SearchKeeps(query, t));
  }

  /** The four kanban columns. */
  datatype Column = UnreadColumn | ReadColumn | SentColumn | ScheduledColumn

  /** Kanban status of a thread: unread first, then a scheduled or outbound latest message, else read. */
  function StatusOf(t: ThreadView): (r: Column)
    ensures r == UnreadColumn <==> t.unreadCount > 0
    ensures r == ScheduledColumn <==> t.unreadCount <= 0 && t.latest.Some? && t.latest.value.status == Scheduled
    ensures r == SentColumn <==>
      t.unreadCount <= 0 && t.latest.Some? && t.latest.value.status != Scheduled && t.latest.value.direction == Outbound
    ensures r == ReadColumn <==>
      t.unreadCount <= 0 && (t.latest.None? || (t.latest.value.status != Scheduled && t.latest.value.direction != Outbound))
    ensures t.unreadCount == 0 ==>
      && (r == ReadColumn <==> KanbanRead(t))
      && (r == SentColumn <==> KanbanSent(t))
      && (r == ScheduledColumn <==> KanbanScheduled(t))
  {
    if t.unreadCount > 0 then UnreadColumn
    else if t.latest.Some? && t.latest.value.status == Scheduled then ScheduledColumn
    else if t.latest.Some? && t.latest.value.direction == Outbound then SentColumn
    else ReadColumn
  }

  /** The header filters of `kanbanColumns`, written independently of `StatusOf`. */
  predicate KanbanRead(t: ThreadView) {
    t.unreadCount == 0
    && !(t.latest.Some? && t.latest.value.direction == Outbound)
    && !(t.latest.Some? && t.latest.value.status == Scheduled)
  }

  predicate KanbanSent(t: ThreadView) {
    t.latest.Some? && t.latest.value.direction == Outbound && t.latest.value.status != Scheduled
  }

  predicate KanbanScheduled(t: ThreadView) {
    t.latest.Some? && t.latest.value.status == Scheduled
  }

  /** `getThreadsForColumn` */
  function ThreadsForColumn(ts: seq<ThreadView>, col: Column): (r: seq<ThreadView>)
    ensures IsSubsequence(r, ts)
    ensures forall i :: 0 <= i < |r| ==> StatusOf(r[i]) == col
    ensures forall i :: 0 <= i < |ts| && StatusOf(ts[i]) == col ==> ts[i] in r
  {
    Filter(ts, (t: ThreadView) => StatusOf(t) == col)
  }

  /** The four columns partition the threads: each appears in exactly the column of its status, and the sizes add up. */
  lemma {:induction false} ColumnsPartition(ts: seq<ThreadView>)
    ensures |ThreadsForColumn(ts, UnreadColumn)| + |ThreadsForColumn(ts, ReadColumn)|
          + |ThreadsForColumn(ts, SentColumn)| + |ThreadsForColumn(ts, ScheduledColumn)| == |ts|
    ensures forall i, c :: 0 <= i < |ts| ==> (ts[i] in ThreadsForColumn(ts, c) <==> c == StatusOf(ts[i]))
  {
    if |ts| > 0 {
      ColumnsPartition(ts[1..]);
    }
  }
}
