/**
  The analytics report (`GET /api/analytics`): the time window chosen by
  the `range` parameter, the overview figures and the charts, computed
  over the messages of the window in chronological order.
 */
module Analytics {
  import opened Wrappers
  import opened Domain
  import opened Seqs
  import opened Sorting
  import ResponseTimes
  import Distributions
  import Authors

  /**
    Start of the window: 7, 30 or 90 days before `now`, or the epoch for
    "all". A missing parameter ("") and any other value give 30 days.
   */
  function StartDate(range: string, now: int): (r: int)
    ensures range == "all" ==> r == 0
    ensures range == "7" ==> r == now - 7 * DayMs
    ensures range == "90" ==> r == now - 90 * DayMs
    ensures range != "7" && range != "90" && range != "all" ==> r == now - 30 * DayMs
  {
    if range == "7" then now - 7 * DayMs
    else if range == "30" then now - 30 * DayMs
    else if range == "90" then now - 90 * DayMs
    else if range == "all" then 0
    else now - 30 * DayMs
  }

  predicate Since(start: int, m: Message) {
    m.createdAt >= start
  }

  /** `createdAt >= startDate` */
  function InWindow(ms: seq<Message>, start: int): seq<Message> {
    Filter(ms, (m: Message) => Since(start, m))
  }

  /** A later start keeps no message that an earlier start drops. */
  lemma WindowsNest(ms: seq<Message>, later: int, earlier: int)
    requires earlier <= later
    ensures |InWindow(ms, later)| <= |InWindow(ms, earlier)|
    ensures forall i :: 0 <= i < |InWindow(ms, later)| ==> InWindow(ms, later)[i] in InWindow(ms, earlier)
  {
    FilterMonotone(ms, (m: Message) => Since(later, m), (m: Message) => Since(earlier, m));
  }

  /** The named ranges are nested: 7 days within 30 within 90, and 90 within "all" once 90 days have passed since the epoch. */
  lemma RangesNest(now: int)
    ensures StartDate("7", now) >= StartDate("30", now) >= StartDate("90", now)
    ensures now >= 90 * DayMs ==> StartDate("90", now) >= StartDate("all", now)
    ensures StartDate("", now) == StartDate("30", now)
  {
  }

  /** The query: the window's messages ordered by `createdAt` ascending. */
  function Fetched(ms: seq<Message>, start: int): (r: seq<Message>)
    ensures SortedBy(r, CreatedAt)
    ensures multiset(r) == multiset(InWindow(ms, start))
    ensures forall i :: 0 <= i < |r| ==> r[i].createdAt >= start
  {
    var w := InWindow(ms, start);
    var r := SortBy(w, CreatedAt);
    assert forall i :: 0 <= i < |r| ==> r[i].createdAt >= start by {
      forall i | 0 <= i < |r| ensures r[i].createdAt >= start {
        assert r[i] in multiset(w);
        var j :| 0 <= j < |w| && w[j] == r[i];
        assert Since(start, w[j]);
      }
    }
    r
  }

  /** `new Set(messages.map((m) => m.threadId))` */
  function ThreadIds(ms: seq<Message>): (r: set<nat>)
    ensures r == set i | 0 <= i < |ms| :: ms[i].threadId
  {
    if |ms| == 0 then {}
    else
      var rest := ThreadIds(ms[1..]);
      assert forall i :: 1 <= i < |ms| ==> ms[i].threadId == ms[1..][i - 1].threadId;
      {ms[0].threadId} + rest
  }

  /** At most one conversation per message, and none exactly when there are no messages. */
  lemma {:induction false} ConversationBounds(ms: seq<Message>)
    ensures |ThreadIds(ms)| <= |ms|
    ensures |ThreadIds(ms)| == 0 <==> |ms| == 0
  {
    if |ms| > 0 {
      ConversationBounds(ms[1..]);
      assert ms[0].threadId in ThreadIds(ms);
    }
  }

  predicate IsInbound(m: Message) {
    m.direction == Inbound
  }

  /** Every message is inbound or outbound, never both. */
  lemma DirectionsSplit(ms: seq<Message>)
    ensures |Filter(ms, IsInbound)| + |Filter(ms, Authors.IsOutbound)| == |ms|
  {
    FilterSplit(ms, IsInbound, Authors.IsOutbound);
  }

  predicate Succeeded(m: Message) {
    m.status == Sent || m.status == Delivered || m.status == Read
  }

  /** Percentage of messages sent, delivered or read; 0 for no messages. */
  function SuccessRate(ms: seq<Message>): (r: real)
    ensures 0.0 <= r <= 100.0
    ensures |ms| == 0 ==> r == 0.0
    ensures |ms| > 0 ==> PercentOf(r, |Filter(ms, Succeeded)|, |ms|)
  {
    if |ms| == 0 then 0.0
    else Percent(|Filter(ms, Succeeded)|, |ms|)
  }

  /** `r` is `k` out of `n` as a percentage. */
  predicate PercentOf(r: real, k: nat, n: nat) {
    r * (n as real) == 100.0 * (k as real)
  }

  /** `(k / n) * 100` */
  function Percent(k: nat, n: nat): (r: real)
    requires 0 < n && k <= n
    ensures 0.0 <= r <= 100.0
    ensures PercentOf(r, k, n)
  {
    var q := k as real / n as real;
    assert q * (n as real) == k as real;
    assert (1.0 - q) * (n as real) == (n - k) as real;
    q * 100.0
  }

  /** Sent, delivered, failed, read: three of four succeeded. */
  lemma SuccessRateExample(m: Message)
    ensures SuccessRate([m.(status := Sent), m.(status := Delivered), m.(status := Failed), m.(status := Read)]) == 75.0
  {
    var ms := [m.(status := Sent), m.(status := Delivered), m.(status := Failed), m.(status := Read)];
    assert ms[1..][1..][1..][1..] == [];
    assert Filter(ms[1..][1..][1..], Succeeded) == [ms[3]];
    assert Filter(ms[1..][1..], Succeeded) == [ms[3]];
    assert Filter(ms[1..], Succeeded) == [ms[1], ms[3]];
    assert Filter(ms, Succeeded) == [ms[0], ms[1], ms[3]];
  }

  /** `Math.round(x * 10) / 10`: the nearest tenth, halves rounded up. */
  function Round1(x: real): (r: real)
    ensures x - 0.05 < r <= x + 0.05
    ensures (r * 10.0).Floor as real == r * 10.0
    ensures 0.0 <= x ==> 0.0 <= r
    ensures x <= 100.0 ==> r <= 100.0
  {
    var n := (x * 10.0 + 0.5).Floor;
    n as real / 10.0
  }

  datatype Overview = Overview(
    totalMessages: nat,
    totalConversations: nat,
    averageResponseTime: real,
    successRate: real,
    inboundCount: nat,
    outboundCount: nat)

  datatype Charts = Charts(
    volumeOverTime: seq<Distributions.Count<int>>,
    channelDistribution: seq<Distributions.Count<string>>,
    channelDistributionWithDirection: seq<Distributions.DirectionCount>,
    statusBreakdown: seq<Distributions.Count<string>>,
    responseTimeOverTime: seq<ResponseTimes.DayAverage>,
    responsesByUser: seq<Authors.UserCount>,
    messagesByUser: seq<Authors.UserCount>,
    hourlyActivity: seq<Distributions.Count<int>>)

  datatype AnalyticsReply = Unauthorized | Report(overview: Overview, charts: Charts)

  /** The overview figures of the window's messages. */
  function OverviewOf(ms: seq<Message>): (o: Overview)
    ensures o.totalMessages == |ms|
    ensures o.totalConversations == |ThreadIds(ms)|
    ensures o.inboundCount == |Filter(ms, IsInbound)| && o.outboundCount == |Filter(ms, Authors.IsOutbound)|
    ensures o.successRate == Round1(SuccessRate(ms))
    ensures o.averageResponseTime == Round1(ResponseTimes.AverageMinutes(ResponseTimes.ResponseDeltas(ms)))
    ensures o.totalConversations <= o.totalMessages
    ensures o.totalConversations == 0 <==> o.totalMessages == 0
    ensures o.inboundCount + o.outboundCount == o.totalMessages
    ensures 0.0 <= o.successRate <= 100.0
    ensures 0.0 <= o.averageResponseTime
  {
    ConversationBounds(ms);
    DirectionsSplit(ms);
    Overview(
      |ms|,
      |ThreadIds(ms)|,
      Round1(ResponseTimes.AverageMinutes(ResponseTimes.ResponseDeltas(ms))),
      Round1(SuccessRate(ms)),
      |Filter(ms, IsInbound)|,
      |Filter(ms, Authors.IsOutbound)|)
  }

  function ChartsOf(ms: seq<Message>, users: seq<User>, hourOf: int -> Distributions.Hour): Charts {
    Charts(
      Distributions.VolumeOverTime(ms),
      Distributions.ChannelDistribution(ms),
      Distributions.ChannelDirectionDistribution(ms),
      Distributions.StatusBreakdown(ms),
      ResponseTimes.ResponseTimeOverTime(ms),
      Authors.ResponsesByUser(ms, users),
      Authors.MessagesByUser(ms, users),
      Distributions.HourlyActivity(ms, hourOf))
  }

  /** The handler; `hourOf` is the server's local-time hour of a timestamp. */
  function GetAnalytics(s: Store, session: Option<nat>, range: string, now: int, hourOf: int -> Distributions.Hour): (r: AnalyticsReply)
    ensures r.Unauthorized? <==> session.None?
    ensures r.Report? ==> r.overview.totalMessages == |InWindow(s.messages, StartDate(range, now))|
    ensures r.Report? ==> |r.charts.hourlyActivity| == 24 && |r.charts.responsesByUser| <= 10 && |r.charts.messagesByUser| <= 10
  {
    if session.None? then Unauthorized
    else
      var ms := Fetched(s.messages, StartDate(range, now));
      Report(OverviewOf(ms), ChartsOf(ms, s.users, hourOf))
  }

  /**
    The charts agree with the overview: each counting chart adds up to the
    number of messages, and the per-day response samples are among the
    overview's samples.
   */
  lemma ChartsAgree(ms: seq<Message>, users: seq<User>, hourOf: int -> Distributions.Hour)
    requires SortedBy(ms, CreatedAt)
    ensures var c := ChartsOf(ms, users, hourOf);
      && Sum(c.volumeOverTime, Distributions.CountOf<int>) == |ms|
      && Sum(c.channelDistribution, Distributions.CountOf<string>) == |ms|
      && Sum(c.statusBreakdown, Distributions.CountOf<string>) == |ms|
      && Sum(c.channelDistributionWithDirection, Distributions.DirectionCountOf) == |ms|
      && Sum(c.hourlyActivity, Distributions.CountOf<int>) == |ms|
    ensures multiset(ResponseTimes.SampleDeltas(ResponseTimes.GlobalSamples(ms))) <= multiset(ResponseTimes.ResponseDeltas(ms))
  {
    Distributions.VolumeFacts(ms);
    Distributions.DistributionTotal(ms, Distributions.ChannelKey);
    Distributions.DistributionTotal(ms, Distributions.StatusKey);
    Distributions.ChannelDirectionFacts(ms);
    Distributions.HourlyTotal(ms, hourOf);
    ResponseTimes.GlobalWithinThreads(ms);
  }
}
