/**
  The counting charts of the analytics report. Each is a
  `reduce` into an object keyed by some property of a message, read back
  with `Object.entries`/`Object.values` in first-insertion order; the
  volume chart is then sorted by day, and the hourly chart is laid out
  over the 24 hours.
 */
module Distributions {
  import opened Strings
  import opened Domain
  import opened Seqs
  import opened Sorting
  import opened Grouping

  /** One bar of a chart: a key and how many messages carry it. */
  datatype Count<K> = Count(key: K, count: nat)

  function CountOf<K>(c: Count<K>): int {
    c.count
  }

  /** Each group becomes its key and its size. */
  function Tally<K, V>(gs: seq<Group<K, V>>): (r: seq<Count<K>>)
    ensures |r| == |gs|
    ensures forall i :: 0 <= i < |gs| ==> r[i] == Count(gs[i].key, |gs[i].items|)
  {
    if |gs| == 0 then [] else [Count(gs[0].key, |gs[0].items|)] + Tally(gs[1..])
  }

  lemma {:induction false} TallyTotal<K, V>(gs: seq<Group<K, V>>)
    ensures Sum(Tally(gs), CountOf<K>) == Total(gs)
  {
    if |gs| > 0 {
      TallyTotal(gs[1..]);
      assert Tally(gs)[1..] == Tally(gs[1..]);
    }
  }

  /** The `acc[key] = (acc[key] || 0) + 1` reduction, read back as entries. */
  function Distribution<V>(vs: seq<V>, name: V -> string): seq<Count<string>> {
    Tally(GroupBy(vs, name))
  }

  /** The counts of a distribution add up to the number of members, and no key appears twice. */
  lemma DistributionTotal<V>(vs: seq<V>, name: V -> string)
    ensures Sum(Distribution(vs, name), CountOf<string>) == |vs|
    ensures var r := Distribution(vs, name); forall i, j :: 0 <= i < j < |r| ==> r[i].key != r[j].key
  {
    GroupByFacts(vs, name);
    TallyTotal(GroupBy(vs, name));
    DistinctKeysIndex(GroupBy(vs, name));
  }

  /**
    A distribution has one entry per key that occurs, each counting exactly
    the members with that key.
   */
  lemma DistributionEntries<V>(vs: seq<V>, name: V -> string)
    ensures var r := Distribution(vs, name);
      && (forall i :: 0 <= i < |r| ==> r[i].count == |Select(vs, name, r[i].key)| && r[i].count > 0)
      && (forall i :: 0 <= i < |r| ==> exists j :: 0 <= j < |vs| && name(vs[j]) == r[i].key)
      && (forall j :: 0 <= j < |vs| ==> exists i :: 0 <= i < |r| && r[i].key == name(vs[j]))
  {
    var gs := GroupBy(vs, name);
    var r := Tally(gs);
    forall i | 0 <= i < |r|
      ensures r[i].count == |Select(vs, name, r[i].key)| && r[i].count > 0
      ensures exists j :: 0 <= j < |vs| && name(vs[j]) == r[i].key
    {
      GroupMember(vs, name, i);
    }
    forall j | 0 <= j < |vs|
      ensures exists i :: 0 <= i < |r| && r[i].key == name(vs[j])
    {
      GroupOfMember(vs, name, j);
    }
  }

  function ChannelKey(m: Message): string {
    ChannelName(m.channel)
  }

  function StatusKey(m: Message): string {
    StatusName(m.status)
  }

  /** `channelDistribution` */
  function ChannelDistribution(ms: seq<Message>): seq<Count<string>> {
    Distribution(ms, ChannelKey)
  }

  /** `statusBreakdown` */
  function StatusBreakdown(ms: seq<Message>): seq<Count<string>> {
    Distribution(ms, StatusKey)
  }

  /** The `${channel}_${direction}` key. */
  function PairKey(m: Message): string {
    ChannelName(m.channel) + "_" + DirectionName(m.direction)
  }

  /** One bar of the channel-by-direction chart. */
  datatype DirectionCount = DirectionCount(channel: string, direction: string, count: nat)

  /** `const [channel, direction] = key.split("_")`; a missing second part reads as "". */
  function SplitKey(c: Count<string>): DirectionCount {
    var parts := SplitOn(c.key, '_');
    DirectionCount(parts[0], if |parts| > 1 then parts[1] else "", c.count)
  }

  /** Splitting a composed key recovers the channel and direction names. */
  lemma {:induction false} PairKeyDecodes(m: Message, n: nat)
    ensures SplitKey(Count(PairKey(m), n)) == DirectionCount(ChannelName(m.channel), DirectionName(m.direction), n)
  {
    NamesWithoutUnderscore(m.channel, m.direction);
    assert PairKey(m) == ChannelName(m.channel) + ['_'] + DirectionName(m.direction);
    SplitJoined(ChannelName(m.channel), '_', DirectionName(m.direction));
    SplitWithoutSeparator(DirectionName(m.direction), '_');
  }

  function SplitKeys(cs: seq<Count<string>>): (r: seq<DirectionCount>)
    ensures |r| == |cs| && forall i :: 0 <= i < |cs| ==> r[i] == SplitKey(cs[i])
  {
    if |cs| == 0 then [] else [SplitKey(cs[0])] + SplitKeys(cs[1..])
  }

  /** `channelDistributionWithDirection` */
  function ChannelDirectionDistribution(ms: seq<Message>): seq<DirectionCount> {
    SplitKeys(Distribution(ms, PairKey))
  }

  function DirectionCountOf(d: DirectionCount): int {
    d.count
  }

  lemma {:induction false} SplitKeysTotal(cs: seq<Count<string>>)
    ensures Sum(SplitKeys(cs), DirectionCountOf) == Sum(cs, CountOf<string>)
  {
    if |cs| > 0 {
      SplitKeysTotal(cs[1..]);
      assert SplitKeys(cs)[1..] == SplitKeys(cs[1..]);
    }
  }

  /**
    Every bar names the channel and direction of some message and counts
    the messages with that pair; the bars add up to the number of messages.
   */
  lemma ChannelDirectionFacts(ms: seq<Message>)
    ensures Sum(ChannelDirectionDistribution(ms), DirectionCountOf) == |ms|
    ensures var r := ChannelDirectionDistribution(ms);
      forall i :: 0 <= i < |r| ==> exists j :: (0 <= j < |ms|
        && r[i].channel == ChannelName(ms[j].channel) && r[i].direction == DirectionName(ms[j].direction)
        && r[i].count == |Select(ms, PairKey, PairKey(ms[j]))|)
  {
    var gs := GroupBy(ms, PairKey);
    var cs := Tally(gs);
    DistributionTotal(ms, PairKey);
    SplitKeysTotal(cs);
    forall i | 0 <= i < |cs|
      ensures exists j :: (0 <= j < |ms|
        && SplitKey(cs[i]).channel == ChannelName(ms[j].channel) && SplitKey(cs[i]).direction == DirectionName(ms[j].direction)
        && cs[i].count == |Select(ms, PairKey, PairKey(ms[j]))|)
    {
      GroupMember(ms, PairKey, i);
      var j :| 0 <= j < |ms| && PairKey(ms[j]) == gs[i].key;
      PairKeyDecodes(ms[j], cs[i].count);
      assert cs[i] == Count(PairKey(ms[j]), cs[i].count);
    }
  }

  function DayKey(m: Message): int {
    DayOf(m.createdAt)
  }

  function CountKey(c: Count<int>): int {
    c.key
  }

  /** `volumeOverTimeArray`: messages per UTC day, by ascending day. */
  function VolumeOverTime(ms: seq<Message>): seq<Count<int>> {
    SortBy(Tally(GroupBy(ms, DayKey)), CountKey)
  }

  /** Days strictly ascend, each counts exactly that day's messages, every day with a message appears, counts add up. */
  lemma VolumeFacts(ms: seq<Message>)
    ensures Sum(VolumeOverTime(ms), CountOf<int>) == |ms|
    ensures var r := VolumeOverTime(ms);
      && (forall i, j :: 0 <= i < j < |r| ==> r[i].key < r[j].key)
      && (forall i :: 0 <= i < |r| ==> r[i].count == |Select(ms, DayKey, r[i].key)| && r[i].count > 0)
      && (forall j :: 0 <= j < |ms| ==> exists i :: 0 <= i < |r| && r[i].key == DayOf(ms[j].createdAt))
  {
    var gs := GroupBy(ms, DayKey);
    var t := Tally(gs);
    var r := SortBy(t, CountKey);
    GroupByFacts(ms, DayKey);
    TallyTotal(gs);
    SumPermutation(r, t, CountOf<int>);
    DistinctKeysIndex(gs);
    assert DistinctBy(t, CountKey);
    SortDistinct(t, CountKey);
    forall i | 0 <= i < |r|
      ensures r[i].count == |Select(ms, DayKey, r[i].key)| && r[i].count > 0
    {
      assert r[i] in multiset(t);
      var k :| 0 <= k < |t| && t[k] == r[i];
      GroupMember(ms, DayKey, k);
    }
    forall j | 0 <= j < |ms|
      ensures exists i :: 0 <= i < |r| && r[i].key == DayOf(ms[j].createdAt)
    {
      GroupOfMember(ms, DayKey, j);
      var k :| 0 <= k < |gs| && gs[k].key == DayKey(ms[j]);
      assert t[k] in multiset(r);
    }
  }

  /** An hour of the day in the server's local time. */
  type Hour = h: int | 0 <= h < 24

  /** The `acc[hour] = (acc[hour] || 0) + 1` reduction over the 24 hours, absent hours read as 0. */
  function HourCounts(ms: seq<Message>, hourOf: int -> Hour): (r: seq<nat>)
    ensures |r| == 24
  {
    if |ms| == 0 then Zeros(24)
    else
      var acc := HourCounts(ms[..|ms| - 1], hourOf);
      var h := hourOf(ms[|ms| - 1].createdAt);
      acc[h := acc[h] + 1]
  }

  predicate AtHour(hourOf: int -> Hour, h: Hour, m: Message) {
    hourOf(m.createdAt) == h
  }

  /** Each hour's count is the number of messages created in that hour. */
  lemma {:induction false} HourCountsAreFilters(ms: seq<Message>, hourOf: int -> Hour, h: Hour, p: Message -> bool)
    requires forall m :: p(m) == AtHour(hourOf, h, m)
    ensures HourCounts(ms, hourOf)[h] == |Filter(ms, p)|
  {
    if |ms| > 0 {
      var init := ms[..|ms| - 1];
      HourCountsAreFilters(init, hourOf, h, p);
      assert init + [ms[|ms| - 1]] == ms;
      FilterAppend(init, [ms[|ms| - 1]], p);
    }
  }

  function NatValue(n: nat): int {
    n
  }

  lemma {:induction false} SumIncrement(s: seq<nat>, i: nat)
    requires i < |s|
    ensures Sum(s[i := s[i] + 1], NatValue) == Sum(s, NatValue) + 1
  {
    if i > 0 {
      SumIncrement(s[1..], i - 1);
      assert s[i := s[i] + 1][1..] == s[1..][i - 1 := s[i] + 1];
    }
  }

  lemma {:induction false} HourCountsTotal(ms: seq<Message>, hourOf: int -> Hour)
    ensures Sum(HourCounts(ms, hourOf), NatValue) == |ms|
  {
    if |ms| == 0 {
      ZerosSum(24);
    } else {
      var acc := HourCounts(ms[..|ms| - 1], hourOf);
      HourCountsTotal(ms[..|ms| - 1], hourOf);
      SumIncrement(acc, hourOf(ms[|ms| - 1].createdAt));
    }
  }

  function Zeros(n: nat): (r: seq<nat>)
    ensures |r| == n && forall i :: 0 <= i < n ==> r[i] == 0
  {
    if n == 0 then [] else [0] + Zeros(n - 1)
  }

  lemma {:induction false} ZerosSum(n: nat)
    ensures Sum(Zeros(n), NatValue) == 0
  {
    if n > 0 {
      ZerosSum(n - 1);
    }
  }

  /** `hourlyActivityArray`: the hours 0 to 23 in order with their counts. */
  function HourlyActivity(ms: seq<Message>, hourOf: int -> Hour): (r: seq<Count<int>>)
    ensures |r| == 24
    ensures forall h: Hour :: r[h].key == h && r[h].count == |Filter(ms, (m: Message) => AtHour(hourOf, h, m))|
  {
    var counts := HourCounts(ms, hourOf);
    forall h: Hour ensures counts[h] == |Filter(ms, (m: Message) => AtHour(hourOf, h, m))| {
      HourCountsAreFilters(ms, hourOf, h, (m: Message) => AtHour(hourOf, h, m));
    }
    seq(24, h requires 0 <= h < 24 => Count(h, counts[h]))
  }

  /** The hourly chart adds up to the number of messages. */
  lemma HourlyTotal(ms: seq<Message>, hourOf: int -> Hour)
    ensures Sum(HourlyActivity(ms, hourOf), CountOf<int>) == |ms|
  {
    var counts := HourCounts(ms, hourOf);
    HourCountsTotal(ms, hourOf);
    SumAgree(HourlyActivity(ms, hourOf), counts);
  }

  lemma {:induction false} SumAgree(cs: seq<Count<int>>, ns: seq<nat>)
    requires |cs| == |ns| && forall i :: 0 <= i < |cs| ==> cs[i].count == ns[i]
    ensures Sum(cs, CountOf<int>) == Sum(ns, NatValue)
  {
    if |cs| > 0 {
      SumAgree(cs[1..], ns[1..]);
    }
  }
}
