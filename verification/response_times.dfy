/**
  Response times in the analytics report. A response is an inbound
  message immediately followed by an outbound message that a user wrote.
  The overview averages the gaps between such neighbours inside each
  conversation; the per-day chart pairs neighbours of the global
  chronological list instead, and only counts a pair when both
  messages belong to the same conversation.
 */
module ResponseTimes {
  import opened Wrappers
  import opened Domain
  import opened Seqs
  import opened Sorting
  import opened Grouping

  const MinuteMs: int := 60 * 1000

  /** `next` answers `prev`: an inbound message followed by an outbound one with an author. */
  predicate Answers(prev: Message, next: Message) {
    prev.direction == Inbound && next.direction == Outbound && next.userId.Some?
  }

  /** The gap `next` adds after `g`'s last message when it answers it. */
  function Reply(g: seq<Message>, next: Message): seq<int> {
    if |g| > 0 && Answers(g[|g| - 1], next) then [next.createdAt - g[|g| - 1].createdAt] else []
  }

  /** The response gaps, in ms, between neighbours of one conversation, in order (the `for` loop over `sorted`). */
  function AdjacentDeltas(g: seq<Message>): (r: seq<int>)
    ensures |r| < |g| || |g| == 0
    ensures SortedBy(g, CreatedAt) ==> forall k :: 0 <= k < |r| ==> r[k] >= 0
  {
    if |g| == 0 then []
    else
      var init := g[..|g| - 1];
      assert SortedBy(g, CreatedAt) ==> SortedBy(init, CreatedAt);
      AdjacentDeltas(init) + Reply(init, g[|g| - 1])
  }

  /** The gap at each answering neighbour pair, read from the front: a reference for `AdjacentDeltas`. */
  function AnsweredGaps(g: seq<Message>): seq<int> {
    if |g| < 2 then []
    else (if Answers(g[0], g[1]) then [g[1].createdAt - g[0].createdAt] else []) + AnsweredGaps(g[1..])
  }

  lemma {:induction false} AnsweredGapsSnoc(g: seq<Message>, x: Message)
    ensures AnsweredGaps(g + [x]) == AnsweredGaps(g) + Reply(g, x)
  {
    if |g| >= 2 {
      assert (g + [x])[1..] == g[1..] + [x];
      AnsweredGapsSnoc(g[1..], x);
    } else if |g| == 1 {
      assert (g + [x])[1..] == [x];
    }
  }

  /** The loop's samples are exactly the answering pairs' gaps, in order. */
  lemma {:induction false} AdjacentDeltasAreAnsweredGaps(g: seq<Message>)
    ensures AdjacentDeltas(g) == AnsweredGaps(g)
  {
    if |g| > 0 {
      var init := g[..|g| - 1];
      AdjacentDeltasAreAnsweredGaps(init);
      AnsweredGapsSnoc(init, g[|g| - 1]);
      assert init + [g[|g| - 1]] == g;
    }
  }

  function ThreadKey(m: Message): nat {
    m.threadId
  }

  /** Each group's messages sorted by time, then the gaps of each group, group after group. */
  function GroupDeltas(gs: seq<Group<nat, Message>>): (r: seq<int>)
    ensures forall k :: 0 <= k < |r| ==> r[k] >= 0
  {
    if |gs| == 0 then [] else AdjacentDeltas(SortBy(gs[0].items, CreatedAt)) + GroupDeltas(gs[1..])
  }

  /** The overview's samples: messages grouped by conversation in first-appearance order. */
  function ResponseDeltas(ms: seq<Message>): (r: seq<int>)
    ensures forall k :: 0 <= k < |r| ==> r[k] >= 0
  {
    GroupDeltas(GroupBy(ms, ThreadKey))
  }

  function Identity(x: int): int {
    x
  }

  /** The mean of the samples, in minutes; 0 when there are none. */
  function AverageMinutes(ds: seq<int>): (r: real)
    ensures |ds| == 0 ==> r == 0.0
    ensures |ds| > 0 ==> r * (|ds| as real) * (MinuteMs as real) == Sum(ds, Identity) as real
    ensures (forall k :: 0 <= k < |ds| ==> ds[k] >= 0) ==> r >= 0.0
  {
    if |ds| == 0 then 0.0
    else
      assert (forall k :: 0 <= k < |ds| ==> ds[k] >= 0) ==> Sum(ds, Identity) >= 0 by {
        if forall k :: 0 <= k < |ds| ==> ds[k] >= 0 {
          SumNonNegative(ds, Identity);
        }
      }
      (Sum(ds, Identity) as real / MinuteMs as real) / |ds| as real
  }

  /** For one conversation already in time order the overview's samples are its neighbour gaps. */
  lemma OneConversation(ms: seq<Message>, c: nat)
    requires |ms| > 0 && SortedBy(ms, CreatedAt)
    requires forall i :: 0 <= i < |ms| ==> ms[i].threadId == c
    ensures ResponseDeltas(ms) == AdjacentDeltas(ms)
  {
    GroupBySingleKey(ms, ThreadKey, c);
    SortSorted(ms, CreatedAt);
    assert GroupDeltas([Group(c, ms)]) == AdjacentDeltas(ms) + GroupDeltas([]);
  }

  /** A conversation: inbound at 0, reply at 5 minutes, inbound at 6, reply at 9 minutes. */
  function ExampleConversation(c: nat, u: nat): seq<Message> {
    var m := Message(c, None, Sms, Inbound, Delivered, "", "", "", None, 0, None, None);
    [m, m.(direction := Outbound, userId := Some(u), createdAt := 300000),
     m.(createdAt := 360000), m.(direction := Outbound, userId := Some(u), createdAt := 540000)]
  }

  /** The worked case averages 4 minutes: gaps of 5 and 3 minutes. */
  lemma AverageExample(c: nat, u: nat)
    ensures ResponseDeltas(ExampleConversation(c, u)) == [300000, 180000]
    ensures AverageMinutes(ResponseDeltas(ExampleConversation(c, u))) == 4.0
  {
    var ms := ExampleConversation(c, u);
    ExampleOrdered(c, u);
    OneConversation(ms, c);
    AdjacentDeltasAreAnsweredGaps(ms);
    ExampleGaps(c, u);
    ExampleMean();
  }

  lemma ExampleMean()
    ensures AverageMinutes([300000, 180000]) == 4.0
  {
    assert Sum([300000, 180000], Identity) == 480000;
  }

  lemma ExampleOrdered(c: nat, u: nat)
    ensures SortedBy(ExampleConversation(c, u), CreatedAt)
    ensures forall i :: 0 <= i < 4 ==> ExampleConversation(c, u)[i].threadId == c
  {
  }

  lemma ExampleGaps(c: nat, u: nat)
    ensures AnsweredGaps(ExampleConversation(c, u)) == [300000, 180000]
  {
    var ms := ExampleConversation(c, u);
    assert ms[1..][1..][1..][1..] == [];
    assert AnsweredGaps(ms[1..][1..][1..]) == [];
    assert AnsweredGaps(ms[1..][1..]) == [180000];
    assert AnsweredGaps(ms[1..]) == [180000];
  }

  /** A sample of the per-day chart: the day of the reply and the gap in ms. */
  datatype Sample = Sample(day: int, delta: int)

  /** The sample `next` contributes after its global predecessor `prev`, if any. */
  function PairSample(prev: Message, next: Message): seq<Sample> {
    if prev.threadId == next.threadId && Answers(prev, next)
    then [Sample(DayOf(next.createdAt), next.createdAt - prev.createdAt)] else []
  }

  /** Pairs of global neighbours in the same conversation where the later answers the earlier. */
  function GlobalSamples(ms: seq<Message>): (r: seq<Sample>)
    ensures |r| < |ms| || |ms| == 0
  {
    if |ms| < 2 then []
    else GlobalSamples(ms[..|ms| - 1]) + PairSample(ms[|ms| - 2], ms[|ms| - 1])
  }

  function SampleDeltas(ss: seq<Sample>): (r: seq<int>)
    ensures |r| == |ss| && forall k :: 0 <= k < |ss| ==> r[k] == ss[k].delta
  {
    if |ss| == 0 then [] else SampleDeltas(ss[..|ss| - 1]) + [ss[|ss| - 1].delta]
  }

  /** Every group is in time order and no item is later than `t`. */
  ghost predicate ChronoGroups(gs: seq<Group<nat, Message>>, t: int) {
    forall i :: 0 <= i < |gs| ==>
      SortedBy(gs[i].items, CreatedAt) && forall j :: 0 <= j < |gs[i].items| ==> gs[i].items[j].createdAt <= t
  }

  lemma {:induction false} PlaceChrono(gs: seq<Group<nat, Message>>, k: nat, m: Message, t: int)
    requires ChronoGroups(gs, m.createdAt) && m.createdAt <= t
    ensures ChronoGroups(Place(gs, k, m), t)
  {
    if |gs| > 0 && gs[0].key != k {
      PlaceChrono(gs[1..], k, m, t);
      assert Place(gs, k, m) == [gs[0]] + Place(gs[1..], k, m);
    }
  }

  /** Grouping a chronological list yields chronological groups. */
  lemma {:induction false} GroupByChrono(ms: seq<Message>, t: int)
    requires SortedBy(ms, CreatedAt)
    requires forall j :: 0 <= j < |ms| ==> ms[j].createdAt <= t
    ensures ChronoGroups(GroupBy(ms, ThreadKey), t)
  {
    if |ms| > 0 {
      var init := ms[..|ms| - 1];
      var last := ms[|ms| - 1];
      GroupByChrono(init, last.createdAt);
      PlaceChrono(GroupBy(init, ThreadKey), ThreadKey(last), last, t);
    }
  }

  /** Appending a message no earlier than a sorted group adds at most its gap to the group's samples. */
  lemma AppendDeltas(it: seq<Message>, m: Message)
    requires SortedBy(it, CreatedAt)
    requires forall j :: 0 <= j < |it| ==> it[j].createdAt <= m.createdAt
    ensures AdjacentDeltas(SortBy(it + [m], CreatedAt)) == AdjacentDeltas(SortBy(it, CreatedAt)) + Reply(it, m)
  {
    SnocSorted(it, m);
    SortSorted(it + [m], CreatedAt);
    SortSorted(it, CreatedAt);
    assert (it + [m])[..|it|] == it;
  }

  lemma SnocSorted(it: seq<Message>, m: Message)
    requires SortedBy(it, CreatedAt)
    requires forall j :: 0 <= j < |it| ==> it[j].createdAt <= m.createdAt
    ensures SortedBy(it + [m], CreatedAt)
  {
  }

  /** Filing `m` under `k` adds at most the gap between `m` and the last message of that group. */
  lemma {:induction false} PlaceDeltas(gs: seq<Group<nat, Message>>, k: nat, m: Message)
    requires ChronoGroups(gs, m.createdAt)
    ensures multiset(GroupDeltas(Place(gs, k, m))) == multiset(GroupDeltas(gs)) + multiset(Reply(ItemsOf(gs, k), m))
  {
    if |gs| == 0 {
      SortSorted([m], CreatedAt);
      assert AdjacentDeltas([m]) == [];
    } else if gs[0].key == k {
      var it := gs[0].items;
      var rest := GroupDeltas(gs[1..]);
      AppendDeltas(it, m);
      assert Place(gs, k, m) == [Group(k, it + [m])] + gs[1..];
      assert GroupDeltas(Place(gs, k, m)) == AdjacentDeltas(SortBy(it, CreatedAt)) + Reply(it, m) + rest;
      assert GroupDeltas(gs) == AdjacentDeltas(SortBy(it, CreatedAt)) + rest;
    } else {
      assert ChronoGroups(gs[1..], m.createdAt);
      PlaceDeltas(gs[1..], k, m);
      assert Place(gs, k, m) == [gs[0]] + Place(gs[1..], k, m);
      assert GroupDeltas(Place(gs, k, m)) == AdjacentDeltas(SortBy(gs[0].items, CreatedAt)) + GroupDeltas(Place(gs[1..], k, m));
    }
  }

  /** The last member with key `k` is the last member, when it has that key. */
  lemma SelectLast(ms: seq<Message>, k: nat)
    requires |ms| > 0 && ms[|ms| - 1].threadId == k
    ensures var s := Select(ms, ThreadKey, k); |s| > 0 && s[|s| - 1] == ms[|ms| - 1]
  {
  }

  lemma {:induction false} SampleDeltasAppend(a: seq<Sample>, b: seq<Sample>)
    ensures SampleDeltas(a + b) == SampleDeltas(a) + SampleDeltas(b)
  {
    if |b| > 0 {
      assert (a + b)[..|a + b| - 1] == a + b[..|b| - 1];
      SampleDeltasAppend(a, b[..|b| - 1]);
    } else {
      assert a + b == a;
    }
  }

  /** Adding a message no earlier than the others adds its reply gap within its own conversation. */
  lemma ThreadStep(ms: seq<Message>)
    requires |ms| > 0 && SortedBy(ms, CreatedAt)
    ensures var init := ms[..|ms| - 1]; var m := ms[|ms| - 1];
      multiset(ResponseDeltas(ms))
        == multiset(ResponseDeltas(init)) + multiset(Reply(Select(init, ThreadKey, m.threadId), m))
  {
    var init := ms[..|ms| - 1];
    var m := ms[|ms| - 1];
    var gs := GroupBy(init, ThreadKey);
    assert SortedBy(init, CreatedAt);
    GroupByChrono(init, m.createdAt);
    PlaceDeltas(gs, ThreadKey(m), m);
    GroupByFacts(init, ThreadKey);
    assert ItemsOf(gs, m.threadId) == Select(init, ThreadKey, m.threadId);
  }

  /**
    For a chronological list, every per-day sample is also an overview
    sample: the global neighbours in one conversation are neighbours there.
   */
  lemma {:induction false} GlobalWithinThreads(ms: seq<Message>)
    requires SortedBy(ms, CreatedAt)
    ensures multiset(SampleDeltas(GlobalSamples(ms))) <= multiset(ResponseDeltas(ms))
  {
    if |ms| >= 2 {
      var init := ms[..|ms| - 1];
      var m := ms[|ms| - 1];
      assert SortedBy(init, CreatedAt);
      GlobalWithinThreads(init);
      var p := SampleDeltas(PairSample(ms[|ms| - 2], m));
      var reply := Reply(Select(init, ThreadKey, m.threadId), m);
      assert GlobalSamples(ms) == GlobalSamples(init) + PairSample(ms[|ms| - 2], m);
      SampleDeltasAppend(GlobalSamples(init), PairSample(ms[|ms| - 2], m));
      ThreadStep(ms);
      PairWithinReply(init, m);
      assert multiset(p) <= multiset(reply);
    }
  }

  /** The global pair ending at `m` is the reply gap inside `m`'s conversation, if it counts at all. */
  lemma PairWithinReply(init: seq<Message>, m: Message)
    requires |init| > 0
    ensures multiset(SampleDeltas(PairSample(init[|init| - 1], m))) <= multiset(Reply(Select(init, ThreadKey, m.threadId), m))
  {
    var prev := init[|init| - 1];
    if prev.threadId == m.threadId {
      SelectReply(init, m);
      PairIsReply(prev, m);
    } else {
      assert PairSample(prev, m) == [];
    }
  }

  lemma SelectReply(init: seq<Message>, m: Message)
    requires |init| > 0 && init[|init| - 1].threadId == m.threadId
    ensures Reply(Select(init, ThreadKey, m.threadId), m) == Reply([init[|init| - 1]], m)
  {
    var s := Select(init, ThreadKey, m.threadId);
    SelectLast(init, m.threadId);
    ReplyLast(s, [init[|init| - 1]], m);
  }

  lemma PairIsReply(prev: Message, m: Message)
    requires prev.threadId == m.threadId
    ensures SampleDeltas(PairSample(prev, m)) == Reply([prev], m)
  {
    if Answers(prev, m) {
      var x := Sample(DayOf(m.createdAt), m.createdAt - prev.createdAt);
      assert PairSample(prev, m) == [x];
      assert [x][..0] == [];
    }
  }

  /** `Reply` only looks at the last message of the group. */
  lemma ReplyLast(a: seq<Message>, b: seq<Message>, m: Message)
    requires |a| > 0 && |b| > 0 && a[|a| - 1] == b[|b| - 1]
    ensures Reply(a, m) == Reply(b, m)
  {
  }

  /** One point of the per-day chart. */
  datatype DayAverage = DayAverage(day: int, averageMinutes: real)

  function SampleDay(s: Sample): int {
    s.day
  }

  function DayKey(d: DayAverage): int {
    d.day
  }

  function Averages(gs: seq<Group<int, Sample>>): (r: seq<DayAverage>)
    ensures |r| == |gs|
    ensures forall i :: 0 <= i < |gs| ==> r[i] == DayAverage(gs[i].key, AverageMinutes(SampleDeltas(gs[i].items)))
  {
    if |gs| == 0 then [] else [DayAverage(gs[0].key, AverageMinutes(SampleDeltas(gs[0].items)))] + Averages(gs[1..])
  }

  /** `responseTimeOverTime`: per reply day, the mean gap in minutes, ordered by day. */
  function ResponseTimeOverTime(ms: seq<Message>): seq<DayAverage> {
    DailyAverages(GlobalSamples(ms))
  }

  /** Per day, the mean of that day's samples, ordered by day. */
  function DailyAverages(ss: seq<Sample>): seq<DayAverage> {
    SortBy(Averages(GroupBy(ss, SampleDay)), DayKey)
  }

  /**
    The chart has one point per day on which some sample falls, days strictly
    ascending, each the mean of exactly that day's samples.
   */
  lemma ResponseTimeOverTimeFacts(ms: seq<Message>)
    ensures var r := ResponseTimeOverTime(ms);
      && (forall i, j :: 0 <= i < j < |r| ==> r[i].day < r[j].day)
      && (forall i :: 0 <= i < |r| ==>
            r[i].averageMinutes == AverageMinutes(SampleDeltas(Select(GlobalSamples(ms), SampleDay, r[i].day))))
      && (forall i :: 0 <= i < |r| ==> exists k :: 0 <= k < |GlobalSamples(ms)| && GlobalSamples(ms)[k].day == r[i].day)
      && (forall k :: 0 <= k < |GlobalSamples(ms)| ==> HasDay(r, GlobalSamples(ms)[k].day))
  {
    var ss := GlobalSamples(ms);
    var gs := GroupBy(ss, SampleDay);
    var avg := Averages(gs);
    var r := SortBy(avg, DayKey);
    GroupByFacts(ss, SampleDay);
    DistinctKeysIndex(gs);
    assert DistinctBy(avg, DayKey);
    SortDistinct(avg, DayKey);
    forall i | 0 <= i < |r|
      ensures r[i].averageMinutes == AverageMinutes(SampleDeltas(Select(ss, SampleDay, r[i].day)))
      ensures exists k :: 0 <= k < |ss| && ss[k].day == r[i].day
    {
      assert r[i] in multiset(avg);
      var j :| 0 <= j < |avg| && avg[j] == r[i];
      GroupMember(ss, SampleDay, j);
    }
    DaysCovered(ss);
  }

  /** The day of every sample has a point on the chart. */
  lemma DaysCovered(ss: seq<Sample>)
    ensures forall k :: 0 <= k < |ss| ==> HasDay(DailyAverages(ss), ss[k].day)
  {
    forall k | 0 <= k < |ss| ensures HasDay(DailyAverages(ss), ss[k].day) {
      DayCovered(ss, k);
    }
  }

  /** Some point of the chart is for day `d`. */
  predicate HasDay(r: seq<DayAverage>, d: int) {
    exists i :: 0 <= i < |r| && r[i].day == d
  }

  lemma AverageDay(gs: seq<Group<int, Sample>>, j: nat)
    requires j < |gs|
    ensures Averages(gs)[j].day == gs[j].key
  {
  }

  lemma DayCovered(ss: seq<Sample>, k: nat)
    requires k < |ss|
    ensures HasDay(DailyAverages(ss), ss[k].day)
  {
    var gs := GroupBy(ss, SampleDay);
    var avg := Averages(gs);
    var r := SortBy(avg, DayKey);
    GroupOfMember(ss, SampleDay, k);
    var j :| 0 <= j < |gs| && gs[j].key == ss[k].day;
    var x := avg[j];
    AverageDay(gs, j);
    SortKeeps(avg, DayKey, j);
    var i :| 0 <= i < |r| && r[i] == x;
  }
}
