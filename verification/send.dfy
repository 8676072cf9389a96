/**
  The outbound dispatch handler (`POST /api/messages/send`): guards, the
  choice between a scheduled and an immediate send, the sender address, and
  the SENT / FAILED outcome with its thread bookkeeping.
 */
module Send {
  import opened Wrappers
  import opened Strings
  import opened Domain
  import opened Twilio

  /** The JSON body; a missing `threadId` is `None`, a missing string is "". */
  datatype SendRequest = SendRequest(threadId: Option<nat>, channel: string, content: string, to: string, scheduledAt: Option<int>)

  /** The store after the request, the HTTP status, and the message returned in the body. */
  datatype SendReply = SendReply(store: Store, status: nat, message: Option<Message>)

  predicate FieldsPresent(req: SendRequest) {
    req.threadId.Some? && req.channel != "" && req.content != "" && req.to != ""
  }

  /** The HTTP status of the first guard that rejects the request, or `None` when every guard passes. */
  function GuardFailure(s: Store, session: Option<nat>, req: SendRequest): (r: Option<nat>)
    ensures r.None? <==>
      && session.Some? && session.value < |s.users| && s.users[session.value].role != Viewer
      && FieldsPresent(req) && req.threadId.value < |s.threads|
    ensures session.None? ==> r == Some(401)
    ensures session.Some? && session.value >= |s.users| ==> r == Some(404)
    ensures session.Some? && session.value < |s.users| && s.users[session.value].role == Viewer ==> r == Some(403)
    ensures session.Some? && session.value < |s.users| && s.users[session.value].role != Viewer ==>
      (!FieldsPresent(req) ==> r == Some(400)) && (FieldsPresent(req) && req.threadId.value >= |s.threads| ==> r == Some(404))
  {
    if session.None? then Some(401)
    else if session.value >= |s.users| then Some(404)
    else if s.users[session.value].role == Viewer then Some(403)
    else if !FieldsPresent(req) then Some(400)
    else if req.threadId.value >= |s.threads| then Some(404)
    else None
  }

  /** `scheduledDate && scheduledDate > new Date()` */
  predicate IsScheduled(req: SendRequest, now: int) {
    req.scheduledAt.Some? && req.scheduledAt.value > now
  }

  /**
    The `from` the route stores: the phone number, or for WhatsApp the marked
    WhatsApp-capable number. It is the sender the provider helpers use
    (`WhatsAppFrom` of the same number) whenever a number is configured.
   */
  function RouteFrom(cfg: Config, channel: string): (r: string)
    ensures channel == "WHATSAPP" ==> StartsWith(r, WhatsAppPrefix) && r == WhatsAppFrom(WhatsAppNumber(cfg))
    ensures channel == "WHATSAPP" && WhatsAppNumber(cfg) != "" ==> r == WhatsAppRequest(cfg, "", "").value.from
    ensures channel != "WHATSAPP" ==> r == cfg.phoneNumber
  {
    if channel == "WHATSAPP" then
      var bare := StripPrefix(WhatsAppNumber(cfg), WhatsAppPrefix);
      PrefixedStartsWith(WhatsAppPrefix, bare);
      WhatsAppPrefix + bare
    else cfg.phoneNumber
  }

  /** An outbound message written by the route on behalf of `user`. */
  function Outgoing(t: nat, user: nat, channel: Channel, status: Status, req: SendRequest, from: string, now: int,
                    externalId: Option<string>, sentAt: Option<int>, scheduledAt: Option<int>): Message
  {
    Message(t, Some(user), channel, Outbound, status, req.content, from, req.to, externalId, now, sentAt, scheduledAt)
  }

  /** The scheduled path: one SCHEDULED message, no provider call, the thread's activity bumped. */
  function ScheduleMessage(s: Store, user: nat, t: nat, channel: Channel, req: SendRequest, from: string, now: int): (r: SendReply)
    requires t < |s.threads| && IsScheduled(req, now)
    ensures r.status == 200 && r.store.users == s.users && r.store.contacts == s.contacts
    ensures |r.store.messages| == |s.messages| + 1 && r.store.messages[..|s.messages|] == s.messages
    ensures r.message == Some(r.store.messages[|s.messages|])
    ensures var m := r.store.messages[|s.messages|];
      && m.status == Scheduled && m.direction == Outbound && m.userId == Some(user)
      && m.threadId == t && m.channel == channel && m.content == req.content && m.to == req.to && m.from == from
      && m.sentAt.None? && m.externalId.None? && m.scheduledAt == req.scheduledAt && m.scheduledAt.value > now
    ensures r.store.threads == Touch(s.threads, t, now)
  {
    var m := Outgoing(t, user, channel, Scheduled, req, from, now, None, None, req.scheduledAt);
    SendReply(s.(messages := s.messages + [m], threads := Touch(s.threads, t, now)), 200, Some(m))
  }

  /** The immediate path for a supported channel: SENT with the provider id, or FAILED and a 500. */
  function SendNow(s: Store, user: nat, t: nat, channel: Channel, req: SendRequest, from: string, now: int,
                   cfg: Config, reply: ProviderReply): (r: SendReply)
    requires t < |s.threads| && (channel == Sms || channel == WhatsApp)
    ensures r.store.users == s.users && r.store.contacts == s.contacts
    ensures |r.store.messages| == |s.messages| + 1 && r.store.messages[..|s.messages|] == s.messages
    ensures var m := r.store.messages[|s.messages|];
      && m.direction == Outbound && m.userId == Some(user) && m.threadId == t && m.channel == channel
      && m.content == req.content && m.to == req.to && m.from == from && m.scheduledAt.None?
    ensures var sid := Transmit(cfg, channel, req.to, req.content, reply);
      var m := r.store.messages[|s.messages|];
      if sid.Some? then
        && r.status == 200 && r.message == Some(m)
        && m.status == Sent && m.externalId == sid && m.sentAt == Some(now)
        && r.store.threads == Touch(s.threads, t, now)
      else
        && r.status == 500 && r.message.None?
        && m.status == Failed && m.externalId.None? && m.sentAt.None?
        && r.store.threads == s.threads
  {
    var sid := Transmit(cfg, channel, req.to, req.content, reply);
    if sid.Some? then
      var m := Outgoing(t, user, channel, Sent, req, from, now, sid, Some(now), None);
      SendReply(s.(messages := s.messages + [m], threads := Touch(s.threads, t, now)), 200, Some(m))
    else
      var m := Outgoing(t, user, channel, Failed, req, from, now, None, None, None);
      SendReply(s.(messages := s.messages + [m]), 500, None)
  }

  /**
    The whole handler. Guard failures persist nothing; a scheduled request is
    stored before the channel is looked at; an immediate send on another
    channel is a 400 with nothing stored.
   */
  function SendMessage(s: Store, session: Option<nat>, req: SendRequest, now: int, cfg: Config, reply: ProviderReply): (r: SendReply)
    ensures !ClientLoads(cfg) ==> r.status == 500 && r.store == s
    ensures ClientLoads(cfg) && GuardFailure(s, session, req).Some? ==>
      r.status == GuardFailure(s, session, req).value && r.store == s && r.message.None?
    ensures r.store != s ==> ClientLoads(cfg) && GuardFailure(s, session, req).None?
    ensures r.store.users == s.users && r.store.contacts == s.contacts
    ensures r.store.messages == s.messages || (|r.store.messages| == |s.messages| + 1 && r.store.messages[..|s.messages|] == s.messages)
    ensures |r.store.messages| > |s.messages| ==>
      && session.Some? && r.store.messages[|s.messages|].userId == session
      && r.store.messages[|s.messages|].direction == Outbound
    ensures r.store.messages != s.messages && r.store.messages[|s.messages|].status == Scheduled ==> IsScheduled(req, now)
    ensures ClientLoads(cfg) && GuardFailure(s, session, req).None? && IsScheduled(req, now) ==>
      if ParseChannel(req.channel).Some? then r.status == 200 && |r.store.messages| == |s.messages| + 1
      else r.status == 500 && r.store == s
    ensures
      (&& ClientLoads(cfg) && GuardFailure(s, session, req).None? && !IsScheduled(req, now)
       && req.channel != "SMS" && req.channel != "WHATSAPP") ==> r.status == 400 && r.store == s
    ensures ClientLoads(cfg) && GuardFailure(s, session, req).None? && IsScheduled(req, now) && ParseChannel(req.channel).Some? ==>
      && r.status == 200 && |r.store.messages| == |s.messages| + 1
      && var m := r.store.messages[|s.messages|];
      && r.message == Some(m) && m.status == Scheduled && m.scheduledAt == req.scheduledAt
      && m.sentAt.None? && m.externalId.None?
      && m.threadId == req.threadId.value && m.channel == ParseChannel(req.channel).value
      && m.content == req.content && m.to == req.to && m.from == RouteFrom(cfg, req.channel)
      && r.store.threads == Touch(s.threads, req.threadId.value, now)
    ensures
      (&& ClientLoads(cfg) && GuardFailure(s, session, req).None? && !IsScheduled(req, now)
       && (req.channel == "SMS" || req.channel == "WHATSAPP")) ==>
      var c := if req.channel == "SMS" then Sms else WhatsApp;
      var sid := Transmit(cfg, c, req.to, req.content, reply);
      && |r.store.messages| == |s.messages| + 1
      && var m := r.store.messages[|s.messages|];
      && m.threadId == req.threadId.value && m.channel == c && m.scheduledAt.None?
      && m.content == req.content && m.to == req.to && m.from == RouteFrom(cfg, req.channel)
      && (sid.Some? ==>
            && r.status == 200 && r.message == Some(m) && m.status == Sent && m.externalId == sid && m.sentAt == Some(now)
            && r.store.threads == Touch(s.threads, req.threadId.value, now))
      && (sid.None? ==>
            && r.status == 500 && r.message.None? && m.status == Failed && m.externalId.None? && m.sentAt.None?
            && r.store.threads == s.threads)
    ensures WellFormed(s) ==> WellFormed(r.store)
  {
    assert ParseChannel("SMS") == Some(Sms) && ParseChannel("WHATSAPP") == Some(WhatsApp) by {
      assert ChannelName(Sms) == "SMS" && ChannelName(WhatsApp) == "WHATSAPP";
    }
    if !ClientLoads(cfg) then SendReply(s, 500, None)
    else
      var guard := GuardFailure(s, session, req);
      if guard.Some? then SendReply(s, guard.value, None)
      else
        var user := session.value;
        var t := req.threadId.value;
        var from := RouteFrom(cfg, req.channel);
        var channel := ParseChannel(req.channel);
        if IsScheduled(req, now) then
          if channel.None? then SendReply(s, 500, None)
          else ScheduleMessage(s, user, t, channel.value, req, from, now)
        else if channel == Some(Sms) || channel == Some(WhatsApp) then
          SendNow(s, user, t, channel.value, req, from, now, cfg, reply)
        else SendReply(s, 400, None)
  }
}
