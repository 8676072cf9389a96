/**
  The scheduled-delivery sweeper (`POST /api/messages/process-scheduled`): a
  bounded selection of due SCHEDULED messages, one provider attempt each, and
  the `processed` / `succeeded` / `failed` counters.
 */
module Sweeper {
  import opened Wrappers
  import opened Domain
  import opened Twilio
  import opened Sorting

  /** `take: 50` */
  const BatchLimit: nat := 50

  datatype Counters = Counters(processed: nat, succeeded: nat, failed: nat)
  datatype SweepBody = ServerError | Unauthorized | NothingDue | Swept(counts: Counters)
  datatype SweepReply = SweepReply(store: Store, status: nat, body: SweepBody)

  /** The bearer check is made only when a cron secret is configured. */
  predicate CronAccepted(cfg: Config, authorization: Option<string>) {
    cfg.cronSecret == "" || authorization == Some("Bearer " + cfg.cronSecret)
  }

  /** `status: SCHEDULED, scheduledAt: { lte: now }` */
  predicate IsDue(m: Message, now: int) {
    m.status == Scheduled && m.scheduledAt.Some? && m.scheduledAt.value <= now
  }

  /** Indices at or after `from` of the due messages, in table order. */
  function DueFrom(ms: seq<Message>, now: int, from: nat): (r: seq<nat>)
    ensures forall k :: 0 <= k < |r| ==> from <= r[k] < |ms| && IsDue(ms[r[k]], now)
    ensures forall j, k :: 0 <= j < k < |r| ==> r[j] < r[k]
    ensures forall i :: from <= i < |ms| && IsDue(ms[i], now) ==> i in r
    decreases |ms| - from
  {
    if from >= |ms| then []
    else (if IsDue(ms[from], now) then [from] else []) + DueFrom(ms, now, from + 1)
  }

  /**
    The selection: only due messages, each once, at most fifty, and all of
    them when fewer than fifty are due. The database returns them in no
    particular order; table order is the order modelled.
   */
  function SelectDue(ms: seq<Message>, now: int): (sel: seq<nat>)
    ensures |sel| <= BatchLimit
    ensures forall k :: 0 <= k < |sel| ==> sel[k] < |ms| && IsDue(ms[sel[k]], now)
    ensures forall j, k :: 0 <= j < k < |sel| ==> sel[j] < sel[k]
    ensures |sel| < BatchLimit ==> forall i :: 0 <= i < |ms| && IsDue(ms[i], now) ==> i in sel
  {
    Take(DueFrom(ms, now, 0), BatchLimit)
  }

  predicate Supported(c: Channel) {
    c == Sms || c == WhatsApp
  }

  /** How many of the selected messages have a channel the sweeper cannot send on. */
  function Unsupported(ms: seq<Message>, sel: seq<nat>): nat
  {
    if |sel| == 0 then 0
    else
      Unsupported(ms, sel[..|sel| - 1])
      + (if sel[|sel| - 1] < |ms| && !Supported(ms[sel[|sel| - 1]].channel) then 1 else 0)
  }

  /** The provider id a supported message gets, or `None` when the send throws. */
  function Attempt(m: Message, cfg: Config, reply: ProviderReply): Option<string>
    requires Supported(m.channel)
  {
    Transmit(cfg, m.channel, m.to, m.content, reply)
  }

  /**
    How one swept message ends. Only status, provider id and sent time may
    change; the sender computed inside the loop is never written. A success
    whose thread row is missing fails in the thread update and is caught:
    the message ends FAILED but keeps the id and time of the first update.
   */
  predicate SweptAs(before: Message, after: Message, cfg: Config, now: int, reply: ProviderReply, threadCount: nat) {
    && after.threadId == before.threadId && after.userId == before.userId && after.channel == before.channel
    && after.direction == before.direction && after.content == before.content && after.from == before.from
    && after.to == before.to && after.createdAt == before.createdAt && after.scheduledAt == before.scheduledAt
    && if Supported(before.channel) && Attempt(before, cfg, reply).Some? then
         && after.externalId == Attempt(before, cfg, reply) && after.sentAt == Some(now)
         && after.status == (if before.threadId < threadCount then Sent else Failed)
       else
         && after.status == Failed && after.externalId == before.externalId && after.sentAt == before.sentAt
  }

  datatype Progress = Progress(messages: seq<Message>, threads: seq<Thread>, counts: Counters)

  /** One iteration of the loop body for the message at index `i`. */
  function Step(p: Progress, i: nat, m: Message, cfg: Config, now: int, reply: ProviderReply): (q: Progress)
    requires i < |p.messages|
    ensures |q.messages| == |p.messages| && |q.threads| == |p.threads|
    ensures SweptAs(m, q.messages[i], cfg, now, reply, |p.threads|)
    ensures forall j :: 0 <= j < |p.messages| && j != i ==> q.messages[j] == p.messages[j]
    ensures q.counts.succeeded + q.counts.failed == p.counts.succeeded + p.counts.failed + 1
    ensures q.counts.processed == p.counts.processed + (if Supported(m.channel) then 1 else 0)
    ensures forall t :: 0 <= t < |p.threads| ==>
      q.threads[t] == p.threads[t] || (q.threads[t] == p.threads[t].(lastActivity := now) && m.threadId == t && q.messages[i].status == Sent)
    ensures q.counts.succeeded == p.counts.succeeded + (if q.messages[i].status == Sent then 1 else 0)
    ensures q.messages[i].status == Sent ==> m.threadId < |p.threads| && q.threads == Touch(p.threads, m.threadId, now)
    ensures q.messages[i].status != Sent ==> q.threads == p.threads
  {
    var c := p.counts;
    if !Supported(m.channel) then
      Progress(p.messages[i := m.(status := Failed)], p.threads, c.(failed := c.failed + 1))
    else
      var sid := Attempt(m, cfg, reply);
      if sid.None? then
        Progress(p.messages[i := m.(status := Failed)], p.threads, Counters(c.processed + 1, c.succeeded, c.failed + 1))
      else if m.threadId >= |p.threads| then
        Progress(p.messages[i := m.(status := Failed, externalId := sid, sentAt := Some(now))], p.threads,
                 Counters(c.processed + 1, c.succeeded, c.failed + 1))
      else
        Progress(p.messages[i := m.(status := Sent, externalId := sid, sentAt := Some(now))],
                 Touch(p.threads, m.threadId, now), Counters(c.processed + 1, c.succeeded + 1, c.failed))
  }

  /** Some swept message of thread `t` among the first `k` selected ended SENT. */
  predicate SentIn(ms0: seq<Message>, ms: seq<Message>, sel: seq<nat>, k: nat, t: nat)
    requires k <= |sel| && |ms0| == |ms| && forall j :: 0 <= j < |sel| ==> sel[j] < |ms0|
  {
    exists j :: 0 <= j < k && ms0[sel[j]].threadId == t && ms[sel[j]].status == Sent
  }

  /** A thread is untouched, or only its activity moved to `now` because one of its messages was sent. */
  predicate ThreadsBumped(ms0: seq<Message>, ms: seq<Message>, sel: seq<nat>, k: nat,
                          t0: seq<Thread>, t1: seq<Thread>, now: int)
    requires k <= |sel| && |ms0| == |ms| && forall j :: 0 <= j < |sel| ==> sel[j] < |ms0|
    requires |t0| == |t1|
  {
    forall t :: 0 <= t < |t0| ==>
      t1[t] == t0[t] || (t1[t] == t0[t].(lastActivity := now) && SentIn(ms0, ms, sel, k, t))
  }

  /** How many of the selected messages are SENT in `ms`. */
  function SentAmong(ms: seq<Message>, sel: seq<nat>): (n: nat)
    ensures n <= |sel|
  {
    if |sel| == 0 then 0
    else
      SentAmong(ms, sel[..|sel| - 1])
      + (if sel[|sel| - 1] < |ms| && ms[sel[|sel| - 1]].status == Sent then 1 else 0)
  }

  /** The count depends only on the statuses of the selected messages. */
  lemma {:induction false} SentAmongFrame(a: seq<Message>, b: seq<Message>, sel: seq<nat>)
    requires |a| == |b|
    requires forall j :: 0 <= j < |sel| && sel[j] < |a| ==> a[sel[j]].status == b[sel[j]].status
    ensures SentAmong(a, sel) == SentAmong(b, sel)
  {
    if |sel| > 0 {
      SentAmongFrame(a, b, sel[..|sel| - 1]);
    }
  }

  /** The thread of every swept message that ended SENT has its activity at `now`. */
  predicate SentBumped(ms0: seq<Message>, ms: seq<Message>, sel: seq<nat>, k: nat, t1: seq<Thread>, now: int)
    requires k <= |sel| && |ms0| == |ms| && forall j :: 0 <= j < |sel| ==> sel[j] < |ms0|
  {
    forall j :: 0 <= j < k && ms[sel[j]].status == Sent ==>
      ms0[sel[j]].threadId < |t1| && t1[ms0[sel[j]].threadId].lastActivity == now
  }

  /** One loop pass sweeps the next selected message, counts it, and touches no other message. */
  lemma FrameStep(s: Store, sel: seq<nat>, k: nat, before: Progress, p: Progress, cfg: Config, now: int,
                  provider: nat -> ProviderReply)
    requires k < |sel| && forall j :: 0 <= j < |sel| ==> sel[j] < |s.messages|
    requires sel[k] !in sel[..k]
    requires |before.messages| == |s.messages| && |before.threads| == |s.threads|
    requires before.counts.succeeded + before.counts.failed == k
    requires before.counts.processed == k - Unsupported(s.messages, sel[..k])
    requires forall j :: 0 <= j < k ==>
      SweptAs(s.messages[sel[j]], before.messages[sel[j]], cfg, now, provider(sel[j]), |s.threads|)
    requires forall i :: 0 <= i < |s.messages| && i !in sel[..k] ==> before.messages[i] == s.messages[i]
    requires p == Step(before, sel[k], s.messages[sel[k]], cfg, now, provider(sel[k]))
    ensures |p.messages| == |s.messages| && |p.threads| == |s.threads|
    ensures p.counts.succeeded + p.counts.failed == k + 1
    ensures p.counts.processed == k + 1 - Unsupported(s.messages, sel[..k + 1])
    ensures forall j :: 0 <= j < k + 1 ==>
      SweptAs(s.messages[sel[j]], p.messages[sel[j]], cfg, now, provider(sel[j]), |s.threads|)
    ensures forall i :: 0 <= i < |s.messages| && i !in sel[..k + 1] ==> p.messages[i] == s.messages[i]
  {
    assert sel[..k + 1][..k] == sel[..k];
    assert sel[..k + 1] == sel[..k] + [sel[k]];
    forall j | 0 <= j < k
      ensures SweptAs(s.messages[sel[j]], p.messages[sel[j]], cfg, now, provider(sel[j]), |s.threads|)
    {
      assert sel[j] in sel[..k];
    }
  }

  /** One loop pass moves a thread's activity only for a message it sends. */
  lemma ThreadsStep(s: Store, sel: seq<nat>, k: nat, before: Progress, p: Progress, cfg: Config, now: int, reply: ProviderReply)
    requires k < |sel| && forall j :: 0 <= j < |sel| ==> sel[j] < |s.messages|
    requires sel[k] !in sel[..k]
    requires |before.messages| == |s.messages| && |before.threads| == |s.threads|
    requires ThreadsBumped(s.messages, before.messages, sel, k, s.threads, before.threads, now)
    requires p == Step(before, sel[k], s.messages[sel[k]], cfg, now, reply)
    ensures ThreadsBumped(s.messages, p.messages, sel, k + 1, s.threads, p.threads, now)
  {
    forall t | 0 <= t < |s.threads|
      ensures p.threads[t] == s.threads[t] || (p.threads[t] == s.threads[t].(lastActivity := now) && SentIn(s.messages, p.messages, sel, k + 1, t))
    {
      if p.threads[t] != before.threads[t] {
        assert s.messages[sel[k]].threadId == t && p.messages[sel[k]].status == Sent;
      } else if before.threads[t] != s.threads[t] {
        assert SentIn(s.messages, before.messages, sel, k, t);
        var j :| 0 <= j < k && s.messages[sel[j]].threadId == t && before.messages[sel[j]].status == Sent;
        assert sel[j] in sel[..k];
        assert p.messages[sel[j]] == before.messages[sel[j]];
      }
    }
  }

  /** One loop pass keeps the success count and the activity of the sent messages' threads. */
  lemma SentStep(s: Store, sel: seq<nat>, k: nat, before: Progress, p: Progress, cfg: Config, now: int, reply: ProviderReply)
    requires k < |sel| && forall j :: 0 <= j < |sel| ==> sel[j] < |s.messages|
    requires sel[k] !in sel[..k]
    requires |before.messages| == |s.messages| && |before.threads| == |s.threads|
    requires before.counts.succeeded == SentAmong(before.messages, sel[..k])
    requires SentBumped(s.messages, before.messages, sel, k, before.threads, now)
    requires p == Step(before, sel[k], s.messages[sel[k]], cfg, now, reply)
    ensures p.counts.succeeded == SentAmong(p.messages, sel[..k + 1])
    ensures SentBumped(s.messages, p.messages, sel, k + 1, p.threads, now)
  {
    var i := sel[k];
    assert sel[..k + 1][..k] == sel[..k];
    SentAmongFrame(p.messages, before.messages, sel[..k]);
    forall j | 0 <= j < k + 1 && p.messages[sel[j]].status == Sent
      ensures s.messages[sel[j]].threadId < |p.threads| && p.threads[s.messages[sel[j]].threadId].lastActivity == now
    {
      if j < k {
        assert sel[j] in sel[..k];
        assert p.messages[sel[j]] == before.messages[sel[j]];
      }
    }
  }

  /** The loop `for (const message of scheduledMessages)` over the selection `sel`. */
  method SweepAll(s: Store, sel: seq<nat>, cfg: Config, now: int, provider: nat -> ProviderReply)
    returns (p: Progress)
    requires forall k :: 0 <= k < |sel| ==> sel[k] < |s.messages|
    requires forall j, k :: 0 <= j < k < |sel| ==> sel[j] < sel[k]
    ensures |p.messages| == |s.messages| && |p.threads| == |s.threads|
    ensures p.counts.succeeded + p.counts.failed == |sel|
    ensures p.counts.processed == |sel| - Unsupported(s.messages, sel)
    ensures forall k :: 0 <= k < |sel| ==>
      SweptAs(s.messages[sel[k]], p.messages[sel[k]], cfg, now, provider(sel[k]), |s.threads|)
    ensures forall i :: 0 <= i < |s.messages| && i !in sel ==> p.messages[i] == s.messages[i]
    ensures ThreadsBumped(s.messages, p.messages, sel, |sel|, s.threads, p.threads, now)
    ensures p.counts.succeeded == SentAmong(p.messages, sel)
    ensures SentBumped(s.messages, p.messages, sel, |sel|, p.threads, now)
  {
    p := Progress(s.messages, s.threads, Counters(0, 0, 0));
    for k := 0 to |sel|
      invariant |p.messages| == |s.messages| && |p.threads| == |s.threads|
      invariant p.counts.succeeded + p.counts.failed == k
      invariant p.counts.processed == k - Unsupported(s.messages, sel[..k])
      invariant forall j :: 0 <= j < k ==>
        SweptAs(s.messages[sel[j]], p.messages[sel[j]], cfg, now, provider(sel[j]), |s.threads|)
      invariant forall i :: 0 <= i < |s.messages| && i !in sel[..k] ==> p.messages[i] == s.messages[i]
      invariant ThreadsBumped(s.messages, p.messages, sel, k, s.threads, p.threads, now)
      invariant p.counts.succeeded == SentAmong(p.messages, sel[..k])
      invariant SentBumped(s.messages, p.messages, sel, k, p.threads, now)
    {
      var i := sel[k];
      assert i !in sel[..k];
      var before := p;
      p := Step(p, i, s.messages[i], cfg, now, provider(i));
      FrameStep(s, sel, k, before, p, cfg, now, provider);
      ThreadsStep(s, sel, k, before, p, cfg, now, provider(i));
      SentStep(s, sel, k, before, p, cfg, now, provider(i));
    }
    assert sel[..|sel|] == sel;
  }

  method ProcessScheduled(s: Store, authorization: Option<string>, cfg: Config, now: int, provider: nat -> ProviderReply)
    returns (r: SweepReply)
    ensures !ClientLoads(cfg) ==> r == SweepReply(s, 500, ServerError)
    ensures ClientLoads(cfg) && !CronAccepted(cfg, authorization) ==> r == SweepReply(s, 401, Unauthorized)
    ensures ClientLoads(cfg) && CronAccepted(cfg, authorization) && |SelectDue(s.messages, now)| == 0 ==>
      r == SweepReply(s, 200, NothingDue)
    ensures ClientLoads(cfg) && CronAccepted(cfg, authorization) && |SelectDue(s.messages, now)| > 0 ==>
      r.status == 200 && r.body.Swept?
    ensures r.body.Swept? ==>
      var sel := SelectDue(s.messages, now);
      && r.body.counts.succeeded + r.body.counts.failed == |sel|
      && r.body.counts.processed == |sel| - Unsupported(s.messages, sel)
      && r.body.counts.processed <= BatchLimit
    ensures r.store.users == s.users && r.store.contacts == s.contacts
    ensures |r.store.messages| == |s.messages| && |r.store.threads| == |s.threads|
    ensures forall k :: 0 <= k < |SelectDue(s.messages, now)| && r.body.Swept? ==>
      var i := SelectDue(s.messages, now)[k];
      && SweptAs(s.messages[i], r.store.messages[i], cfg, now, provider(i), |s.threads|)
      && r.store.messages[i].status != Scheduled
    ensures forall i :: 0 <= i < |s.messages| && i !in SelectDue(s.messages, now) ==> r.store.messages[i] == s.messages[i]
    ensures ThreadsBumped(s.messages, r.store.messages, SelectDue(s.messages, now), |SelectDue(s.messages, now)|,
                          s.threads, r.store.threads, now)
    ensures r.body.Swept? ==>
      && r.body.counts.succeeded == SentAmong(r.store.messages, SelectDue(s.messages, now))
      && r.body.counts.failed == |SelectDue(s.messages, now)| - SentAmong(r.store.messages, SelectDue(s.messages, now))
      && SentBumped(s.messages, r.store.messages, SelectDue(s.messages, now), |SelectDue(s.messages, now)|, r.store.threads, now)
    ensures forall k, later :: 0 <= k < |SelectDue(s.messages, now)| && r.body.Swept? ==>
      SelectDue(s.messages, now)[k] !in SelectDue(r.store.messages, later)
    ensures WellFormed(s) ==> WellFormed(r.store)
  {
    var sel := SelectDue(s.messages, now);
    if !ClientLoads(cfg) {
      return SweepReply(s, 500, ServerError);
    }
    if !CronAccepted(cfg, authorization) {
      return SweepReply(s, 401, Unauthorized);
    }
    if |sel| == 0 {
      return SweepReply(s, 200, NothingDue);
    }
    var p := SweepAll(s, sel, cfg, now, provider);
    SweepFacts(s, sel, p, cfg, now, provider);
    r := SweepReply(s.(messages := p.messages, threads := p.threads), 200, Swept(p.counts));
  }

  /** After a sweep no selected message is still SCHEDULED, and the store stays well formed. */
  lemma SweepFacts(s: Store, sel: seq<nat>, p: Progress, cfg: Config, now: int, provider: nat -> ProviderReply)
    requires forall k :: 0 <= k < |sel| ==> sel[k] < |s.messages|
    requires |p.messages| == |s.messages| && |p.threads| == |s.threads|
    requires forall k :: 0 <= k < |sel| ==>
      SweptAs(s.messages[sel[k]], p.messages[sel[k]], cfg, now, provider(sel[k]), |s.threads|)
    requires forall i :: 0 <= i < |s.messages| && i !in sel ==> p.messages[i] == s.messages[i]
    requires ThreadsBumped(s.messages, p.messages, sel, |sel|, s.threads, p.threads, now)
    ensures forall k :: 0 <= k < |sel| ==> p.messages[sel[k]].status != Scheduled
    ensures forall k, later :: 0 <= k < |sel| ==> sel[k] !in SelectDue(p.messages, later)
    ensures WellFormed(s) ==> WellFormed(s.(messages := p.messages, threads := p.threads))
  {
    forall i | 0 <= i < |s.messages|
      ensures p.messages[i].threadId == s.messages[i].threadId && p.messages[i].userId == s.messages[i].userId
      ensures p.messages[i].direction == s.messages[i].direction
      ensures p.messages[i].status == Scheduled ==> p.messages[i] == s.messages[i]
    {
      if i in sel {
        var k :| 0 <= k < |sel| && sel[k] == i;
        assert SweptAs(s.messages[i], p.messages[i], cfg, now, provider(i), |s.threads|);
      }
    }
    forall t | 0 <= t < |s.threads| ensures p.threads[t].contactId == s.threads[t].contactId {
    }
  }
}
