/**
  The shared data model: the enums of the types package, the four tables the
  handlers read and write (Contact, Thread, Message, User), and the store that
  holds them. Row identifiers are positions in their table; a created row gets
  the next position.
 */
module Domain {
  import opened Wrappers

  datatype Channel = Sms | WhatsApp | Email | Twitter
  datatype Direction = Inbound | Outbound
  datatype Status = Pending | Scheduled | Sent | Delivered | Read | Failed
  datatype Role = Admin | Editor | Viewer

  /** The enum's string value, as stored and as sent over JSON. */
  function ChannelName(c: Channel): string {
    match c
    case Sms => "SMS"
    case WhatsApp => "WHATSAPP"
    case Email => "EMAIL"
    case Twitter => "TWITTER"
  }

  function DirectionName(d: Direction): string {
    match d
    case Inbound => "INBOUND"
    case Outbound => "OUTBOUND"
  }

  function StatusName(s: Status): string {
    match s
    case Pending => "PENDING"
    case Scheduled => "SCHEDULED"
    case Sent => "SENT"
    case Delivered => "DELIVERED"
    case Read => "READ"
    case Failed => "FAILED"
  }

  function RoleName(r: Role): string {
    match r
    case Admin => "ADMIN"
    case Editor => "EDITOR"
    case Viewer => "VIEWER"
  }

  /** The enum member whose value is `s`, if any (what an enum column accepts). */
  function ParseChannel(s: string): (r: Option<Channel>)
    ensures r.Some? ==> ChannelName(r.value) == s
    ensures forall c :: ChannelName(c) == s ==> r == Some(c)
  {
    if s == "SMS" then Some(Sms)
    else if s == "WHATSAPP" then Some(WhatsApp)
    else if s == "EMAIL" then Some(Email)
    else if s == "TWITTER" then Some(Twitter)
    else None
  }

  function ParseDirection(s: string): (r: Option<Direction>)
    ensures r.Some? ==> DirectionName(r.value) == s
    ensures forall d :: DirectionName(d) == s ==> r == Some(d)
  {
    if s == "INBOUND" then Some(Inbound)
    else if s == "OUTBOUND" then Some(Outbound)
    else None
  }

  function ParseRole(s: string): (r: Option<Role>)
    ensures r.Some? ==> RoleName(r.value) == s
    ensures forall x :: RoleName(x) == s ==> r == Some(x)
  {
    if s == "ADMIN" then Some(Admin)
    else if s == "EDITOR" then Some(Editor)
    else if s == "VIEWER" then Some(Viewer)
    else None
  }

  /** No channel or direction value contains an underscore. */
  lemma NamesWithoutUnderscore(c: Channel, d: Direction)
    ensures '_' !in ChannelName(c)
    ensures '_' !in DirectionName(d)
  {
  }

  /** Contact fields are strings; "" stands for a null column (every use is a truthiness test). */
  datatype Contact = Contact(phone: string, email: string, firstName: string, lastName: string)

  datatype Thread = Thread(contactId: nat, lastActivity: int, unreadCount: int)

  /** Times are integer milliseconds since the epoch. */
  datatype Message = Message(
    threadId: nat,
    userId: Option<nat>,
    channel: Channel,
    direction: Direction,
    status: Status,
    content: string,
    from: string,
    to: string,
    externalId: Option<string>,
    createdAt: int,
    sentAt: Option<int>,
    scheduledAt: Option<int>)

  datatype User = User(firstName: string, lastName: string, email: string, role: Role, emailVerified: bool, createdAt: int)

  datatype Store = Store(users: seq<User>, contacts: seq<Contact>, threads: seq<Thread>, messages: seq<Message>)

  /** The references and status rules a stored message keeps. */
  predicate MessageWellFormed(s: Store, m: Message) {
    && m.threadId < |s.threads|
    && (m.userId.Some? ==> m.userId.value < |s.users|)
    && (m.direction == Inbound ==> m.userId.None?)
    && (m.status == Scheduled ==> m.sentAt.None? && m.scheduledAt.Some?)
  }

  /** Every thread names a contact and every message is well formed. */
  predicate WellFormed(s: Store) {
    && (forall i :: 0 <= i < |s.threads| ==> s.threads[i].contactId < |s.contacts|)
    && (forall i :: 0 <= i < |s.messages| ==> MessageWellFormed(s, s.messages[i]))
  }

  /** `thread.update({ data: { lastActivity: now } })` */
  function Touch(threads: seq<Thread>, t: nat, now: int): (r: seq<Thread>)
    requires t < |threads|
    ensures |r| == |threads| && r[t].lastActivity == now
    ensures r[t].contactId == threads[t].contactId && r[t].unreadCount == threads[t].unreadCount
    ensures forall i :: 0 <= i < |threads| && i != t ==> r[i] == threads[i]
  {
    threads[t := threads[t].(lastActivity := now)]
  }

  /** Milliseconds in a day. */
  const DayMs: int := 24 * 60 * 60 * 1000

  /** The UTC calendar day of a timestamp (the `toISOString().split("T")[0]` key), as a day number. */
  function DayOf(t: int): int {
    t / DayMs
  }

  function CreatedAt(m: Message): int {
    m.createdAt
  }
}
