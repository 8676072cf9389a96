/**
  The per-user charts of the analytics report: for the messages that have
  an author who still exists, how many each user wrote (all messages, or
  only outbound ones), largest first, at most ten users.
 */
module Authors {
  import opened Wrappers
  import opened Domain
  import opened Seqs
  import opened Sorting
  import opened Grouping

  const TopUsers: nat := 10

  datatype UserCount = UserCount(userId: nat, userName: string, email: string, count: nat)

  /** `msg.userId && msg.user`: the message has an author and the author's row was joined. */
  predicate Joined(users: seq<User>, m: Message) {
    m.userId.Some? && m.userId.value < |users|
  }

  function JoinedMessages(ms: seq<Message>, users: seq<User>): seq<Message> {
    Filter(ms, (m: Message) => Joined(users, m))
  }

  function AuthorKey(m: Message): nat {
    if m.userId.Some? then m.userId.value else 0
  }

  /** The messages `u` wrote, in order. */
  function Authored(ms: seq<Message>, users: seq<User>, u: nat): seq<Message> {
    Select(JoinedMessages(ms, users), AuthorKey, u)
  }

  function FullName(u: User): string {
    u.firstName + " " + u.lastName
  }

  /** The entry for one author's group; the name and email come from the joined user. */
  function Entry(users: seq<User>, g: Group<nat, Message>): UserCount {
    if g.key < |users| then UserCount(g.key, FullName(users[g.key]), users[g.key].email, |g.items|)
    else UserCount(g.key, "", "", |g.items|)
  }

  function Entries(users: seq<User>, gs: seq<Group<nat, Message>>): (r: seq<UserCount>)
    ensures |r| == |gs| && forall i :: 0 <= i < |gs| ==> r[i] == Entry(users, gs[i])
  {
    if |gs| == 0 then [] else [Entry(users, gs[0])] + Entries(users, gs[1..])
  }

  /** The `reduce` into an object keyed by user id, read back with `Object.values`. */
  function ByUser(ms: seq<Message>, users: seq<User>): seq<UserCount> {
    Entries(users, GroupBy(JoinedMessages(ms, users), AuthorKey))
  }

  function Descending(c: UserCount): int {
    -(c.count as int)
  }

  /** All authors, largest count first. */
  function Ranking(ms: seq<Message>, users: seq<User>): seq<UserCount> {
    SortBy(ByUser(ms, users), Descending)
  }

  /** `.sort((a, b) => b.count - a.count).slice(0, 10)` */
  function TopAuthors(ms: seq<Message>, users: seq<User>): (r: seq<UserCount>)
    ensures |r| <= TopUsers
    ensures |r| == (if |Ranking(ms, users)| < TopUsers then |Ranking(ms, users)| else TopUsers)
    ensures forall k :: 0 <= k < |r| ==> r[k] == Ranking(ms, users)[k]
    ensures forall i, j :: 0 <= i < j < |r| ==> r[i].count >= r[j].count
    ensures forall k :: |r| <= k < |Ranking(ms, users)| ==> |r| > 0 && r[|r| - 1].count >= Ranking(ms, users)[k].count
  {
    var full := Ranking(ms, users);
    assert forall i, j :: 0 <= i < j < |full| ==> Descending(full[i]) <= Descending(full[j]);
    Take(full, TopUsers)
  }

  /** The unsorted entries: one per author, named from the user's row, counting what that user wrote. */
  lemma EntriesFacts(ms: seq<Message>, users: seq<User>)
    ensures var es := ByUser(ms, users);
      && (forall i, j :: 0 <= i < j < |es| ==> es[i].userId != es[j].userId)
      && (forall i :: 0 <= i < |es| ==> RightEntry(ms, users, es[i]))
  {
    var js := JoinedMessages(ms, users);
    var gs := GroupBy(js, AuthorKey);
    var es := Entries(users, gs);
    GroupByFacts(js, AuthorKey);
    DistinctKeysIndex(gs);
    forall i | 0 <= i < |es|
      ensures RightEntry(ms, users, es[i])
    {
      GroupMember(js, AuthorKey, i);
      var j :| 0 <= j < |js| && AuthorKey(js[j]) == gs[i].key;
      assert Joined(users, js[j]);
    }
  }

  /** What an entry must say about its user. */
  predicate RightEntry(ms: seq<Message>, users: seq<User>, e: UserCount) {
    && e.userId < |users|
    && e.userName == FullName(users[e.userId]) && e.email == users[e.userId].email
    && e.count == |Authored(ms, users, e.userId)| && e.count > 0
  }

  /** Every author of a joined message has an entry. */
  lemma EntriesCover(ms: seq<Message>, users: seq<User>, j: nat)
    requires j < |ms| && Joined(users, ms[j])
    ensures exists i :: 0 <= i < |ByUser(ms, users)| && ByUser(ms, users)[i].userId == ms[j].userId.value
  {
    var js := JoinedMessages(ms, users);
    var gs := GroupBy(js, AuthorKey);
    assert ms[j] in js;
    var k :| 0 <= k < |js| && js[k] == ms[j];
    GroupOfMember(js, AuthorKey, k);
    var g :| 0 <= g < |gs| && gs[g].key == AuthorKey(js[k]);
    assert ByUser(ms, users)[g].userId == gs[g].key;
  }

  /**
    Every ranked entry is a distinct existing user, named from that user's
    row, counting exactly the messages that user wrote; every author appears.
   */
  lemma RankingFacts(ms: seq<Message>, users: seq<User>)
    ensures var r := Ranking(ms, users);
      && (forall i, j :: 0 <= i < j < |r| ==> r[i].userId != r[j].userId)
      && (forall i :: 0 <= i < |r| ==> RightEntry(ms, users, r[i]))
      && (forall j :: 0 <= j < |ms| && Joined(users, ms[j]) ==>
            exists i :: 0 <= i < |r| && r[i].userId == ms[j].userId.value)
  {
    var es := ByUser(ms, users);
    var r := SortBy(es, Descending);
    EntriesFacts(ms, users);
    forall i | 0 <= i < |r| ensures RightEntry(ms, users, r[i]) {
      assert r[i] in multiset(es);
    }
    forall i, j | 0 <= i < j < |r| ensures r[i].userId != r[j].userId {
      RankedDistinct(es, r, i, j);
    }
    forall j | 0 <= j < |ms| && Joined(users, ms[j])
      ensures exists i :: 0 <= i < |r| && r[i].userId == ms[j].userId.value
    {
      EntriesCover(ms, users, j);
      var g :| 0 <= g < |es| && es[g].userId == ms[j].userId.value;
      assert es[g] in multiset(r);
    }
  }

  /** Sorting does not merge entries: distinct user ids stay distinct. */
  lemma RankedDistinct(es: seq<UserCount>, r: seq<UserCount>, i: nat, j: nat)
    requires multiset(r) == multiset(es) && |r| == |es|
    requires forall a, b :: 0 <= a < b < |es| ==> es[a].userId != es[b].userId
    requires 0 <= i < j < |r|
    ensures r[i].userId != r[j].userId
  {
    assert r[i] in multiset(es) && r[j] in multiset(es);
    var a :| 0 <= a < |es| && es[a] == r[i];
    var b :| 0 <= b < |es| && es[b] == r[j];
    DistinctOnce(es, a);
    OnceAt(r, i, j);
    assert a != b;
  }

  /** A value that occurs once sits at one position only. */
  lemma OnceAt<T>(r: seq<T>, i: nat, j: nat)
    requires 0 <= i < j < |r| && multiset(r)[r[i]] == 1
    ensures r[i] != r[j]
  {
    assert r == r[..j] + [r[j]] + r[j + 1..];
    assert r[..j][i] == r[i];
    assert multiset(r) == multiset(r[..j]) + multiset{r[j]} + multiset(r[j + 1..]);
  }

  /** An entry whose user id is unique occurs once. */
  lemma {:induction false} DistinctOnce(es: seq<UserCount>, a: nat)
    requires forall x, y :: 0 <= x < y < |es| ==> es[x].userId != es[y].userId
    requires a < |es|
    ensures multiset(es)[es[a]] == 1
  {
    if a == 0 {
      assert es == [es[0]] + es[1..];
      assert es[0] !in es[1..];
    } else {
      DistinctOnce(es[1..], a - 1);
      assert es == [es[0]] + es[1..];
      assert es[0] != es[a];
    }
  }

  /** `messagesByUser` */
  function MessagesByUser(ms: seq<Message>, users: seq<User>): seq<UserCount> {
    TopAuthors(ms, users)
  }

  predicate IsOutbound(m: Message) {
    m.direction == Outbound
  }

  /** `responsesByUser`: the same ranking over outbound messages only. */
  function ResponsesByUser(ms: seq<Message>, users: seq<User>): seq<UserCount> {
    TopAuthors(Filter(ms, IsOutbound), users)
  }

  /** Nobody is credited with more responses than messages. */
  lemma ResponsesAtMostMessages(ms: seq<Message>, users: seq<User>, u: nat)
    ensures |Authored(Filter(ms, IsOutbound), users, u)| <= |Authored(ms, users, u)|
  {
    var joined := (m: Message) => Joined(users, m);
    var mine := (m: Message) => AuthorKey(m) == u;
    var out := Filter(ms, IsOutbound);
    SelectIsFilter(JoinedMessages(out, users), AuthorKey, u, mine);
    SelectIsFilter(JoinedMessages(ms, users), AuthorKey, u, mine);
    FilterFilter(ms, IsOutbound, joined, (m: Message) => IsOutbound(m) && joined(m));
    FilterFilter(ms, joined, IsOutbound, (m: Message) => IsOutbound(m) && joined(m));
    FilterSubsequence(JoinedMessages(out, users), JoinedMessages(ms, users), mine);
  }
}
