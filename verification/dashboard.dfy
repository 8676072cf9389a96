/** The dashboard counters (`GET /api/dashboard/stats`). */
module Dashboard {
  import opened Wrappers
  import opened Domain
  import opened Seqs

  datatype StatsReply = Unauthorized | Stats(totalMessages: nat, totalUnread: int)

  /** `thread.findMany({ where: { unreadCount: { gt: 0 } } })` */
  function UnreadThreads(ts: seq<Thread>): seq<Thread> {
    Filter(ts, (t: Thread) => t.unreadCount > 0)
  }

  function UnreadOf(t: Thread): int {
    t.unreadCount
  }

  /** The `reduce` summing `unreadCount` over the unread threads. */
  function TotalUnread(ts: seq<Thread>): int {
    Sum(UnreadThreads(ts), UnreadOf)
  }

  /** Every unread thread contributes at least one, so the total is zero exactly when no thread is unread. */
  lemma {:induction false} TotalUnreadBounds(ts: seq<Thread>)
    ensures TotalUnread(ts) >= |UnreadThreads(ts)|
    ensures TotalUnread(ts) == 0 <==> |UnreadThreads(ts)| == 0
  {
    if |ts| > 0 {
      TotalUnreadBounds(ts[1..]);
    }
  }

  /** When no count is negative, leaving out the zero counts does not change the sum. */
  lemma {:induction false} TotalUnreadOfAll(ts: seq<Thread>)
    requires forall i :: 0 <= i < |ts| ==> ts[i].unreadCount >= 0
    ensures TotalUnread(ts) == Sum(ts, UnreadOf)
  {
    if |ts| > 0 {
      TotalUnreadOfAll(ts[1..]);
    }
  }

  /** The handler: 401 without a session, otherwise every message and the unread total. */
  function DashboardStats(s: Store, session: Option<nat>): (r: StatsReply)
    ensures r.Unauthorized? <==> session.None?
    ensures r.Stats? ==> r.totalMessages == |s.messages|
    ensures r.Stats? ==> r.totalUnread >= |UnreadThreads(s.threads)|
    ensures r.Stats? ==> (r.totalUnread == 0 <==> forall i :: 0 <= i < |s.threads| ==> s.threads[i].unreadCount <= 0)
    ensures r.Stats? ==> r.totalUnread == TotalUnread(s.threads)
    ensures r.Stats? && (forall i :: 0 <= i < |s.threads| ==> s.threads[i].unreadCount >= 0) ==>
      r.totalUnread == Sum(s.threads, UnreadOf)
  {
    if session.None? then Unauthorized
    else
      TotalUnreadBounds(s.threads);
      assert |UnreadThreads(s.threads)| == 0 <==> forall i :: 0 <= i < |s.threads| ==> s.threads[i].unreadCount <= 0 by {
        if exists i :: 0 <= i < |s.threads| && s.threads[i].unreadCount > 0 {
          var i :| 0 <= i < |s.threads| && s.threads[i].unreadCount > 0;
          assert s.threads[i] in UnreadThreads(s.threads);
        }
      }
      assert (forall i :: 0 <= i < |s.threads| ==> s.threads[i].unreadCount >= 0) ==>
        TotalUnread(s.threads) == Sum(s.threads, UnreadOf) by {
        if forall i :: 0 <= i < |s.threads| ==> s.threads[i].unreadCount >= 0 {
          TotalUnreadOfAll(s.threads);
        }
      }
      Stats(|s.messages|, TotalUnread(s.threads))
  }
}
