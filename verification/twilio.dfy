/**
  The messaging-provider helpers of `lib/twilio.ts`: configuration checks and
  the address formatting applied before `messages.create`. The provider call
  itself is an oracle: its reply is a parameter.
 */
module Twilio {
  import opened Wrappers
  import opened Strings
  import opened Domain

  /** Environment variables; "" stands for an unset variable (every use is a truthiness test). */
  datatype Config = Config(accountSid: string, authToken: string, phoneNumber: string, whatsappNumber: string, cronSecret: string)

  /** What `messages.create` is asked to send. */
  datatype ProviderRequest = ProviderRequest(from: string, to: string, body: string)

  /** What `messages.create` answers: a message id, or an exception. */
  datatype ProviderReply = Accepted(sid: string) | Refused

  const WhatsAppPrefix: string := "whatsapp:"

  /** The module throws while loading unless both credentials are set. */
  predicate ClientLoads(cfg: Config) {
    cfg.accountSid != "" && cfg.authToken != ""
  }

  /** `whatsapp:${n.replace(/^whatsapp:/, "")}` */
  function WhatsAppFrom(n: string): (r: string)
    ensures StartsWith(r, WhatsAppPrefix)
    ensures StartsWith(n, WhatsAppPrefix) ==> r == n
  {
    var bare := StripPrefix(n, WhatsAppPrefix);
    PrefixedStartsWith(WhatsAppPrefix, bare);
    WhatsAppPrefix + bare
  }

  /** `to.startsWith("whatsapp:") ? to : `whatsapp:${to}`` */
  function WhatsAppTo(to: string): (r: string)
    ensures StartsWith(r, WhatsAppPrefix)
    ensures StartsWith(to, WhatsAppPrefix) ==> r == to
    ensures !StartsWith(to, WhatsAppPrefix) ==> StripPrefix(r, WhatsAppPrefix) == to
  {
    PrefixedStartsWith(WhatsAppPrefix, to);
    if StartsWith(to, WhatsAppPrefix) then to else WhatsAppPrefix + to
  }

  /** Formatting a sender twice is the same as formatting it once. */
  lemma WhatsAppFromIdempotent(n: string)
    ensures WhatsAppFrom(WhatsAppFrom(n)) == WhatsAppFrom(n)
  {
  }

  /** A bare number and the same number with the channel marker give the same sender. */
  lemma {:induction false} WhatsAppFromIgnoresMarker(n: string)
    requires !StartsWith(n, WhatsAppPrefix)
    ensures WhatsAppFrom(WhatsAppPrefix + n) == WhatsAppFrom(n)
  {
    PrefixedStartsWith(WhatsAppPrefix, n);
  }

  /** The marker is stripped only once: an already doubled marker survives as a single one. */
  lemma WhatsAppFromStripsOnce()
    ensures WhatsAppFrom("whatsapp:whatsapp:1") == "whatsapp:whatsapp:1"
  {
    assert StartsWith("whatsapp:whatsapp:1", WhatsAppPrefix);
    assert StripPrefix("whatsapp:whatsapp:1", WhatsAppPrefix) == "whatsapp:1";
  }

  lemma WhatsAppToIdempotent(to: string)
    ensures WhatsAppTo(WhatsAppTo(to)) == WhatsAppTo(to)
  {
  }

  /** `process.env.TWILIO_WHATSAPP_NUMBER || phoneNumber` */
  function WhatsAppNumber(cfg: Config): (r: string)
    ensures r == "" <==> cfg.whatsappNumber == "" && cfg.phoneNumber == ""
    ensures cfg.whatsappNumber != "" ==> r == cfg.whatsappNumber
    ensures cfg.whatsappNumber == "" ==> r == cfg.phoneNumber
  {
    if cfg.whatsappNumber != "" then cfg.whatsappNumber else cfg.phoneNumber
  }

  /** `sendSMS` up to the provider call: `None` when it throws for a missing number. */
  function SmsRequest(cfg: Config, to: string, body: string): (r: Option<ProviderRequest>)
    ensures r.None? <==> cfg.phoneNumber == ""
    ensures r.Some? ==> r.value.from == cfg.phoneNumber && r.value.to == to && r.value.body == body
  {
    if cfg.phoneNumber == "" then None else Some(ProviderRequest(cfg.phoneNumber, to, body))
  }

  /** `sendWhatsApp` up to the provider call: `None` when it throws for a missing number. */
  function WhatsAppRequest(cfg: Config, to: string, body: string): (r: Option<ProviderRequest>)
    ensures r.None? <==> cfg.whatsappNumber == "" && cfg.phoneNumber == ""
    ensures r.Some? ==> StartsWith(r.value.from, WhatsAppPrefix) && StartsWith(r.value.to, WhatsAppPrefix)
    ensures r.Some? ==> r.value.body == body
    ensures r.Some? ==> r.value.from == WhatsAppFrom(WhatsAppNumber(cfg)) && r.value.to == WhatsAppTo(to)
  {
    var n := WhatsAppNumber(cfg);
    if n == "" then None else Some(ProviderRequest(WhatsAppFrom(n), WhatsAppTo(to), body))
  }

  /** The provider message id, when a request was made and the provider accepted it. */
  function Deliver(req: Option<ProviderRequest>, reply: ProviderReply): (sid: Option<string>)
    ensures sid.Some? <==> req.Some? && reply.Accepted?
    ensures sid.Some? ==> sid.value == reply.sid
  {
    if req.Some? && reply.Accepted? then Some(reply.sid) else None
  }

  /** `sendSMS` / `sendWhatsApp` for a supported channel: the id on success, `None` when it throws. */
  function Transmit(cfg: Config, channel: Channel, to: string, body: string, reply: ProviderReply): (sid: Option<string>)
    requires channel == Sms || channel == WhatsApp
    ensures reply.Refused? ==> sid.None?
    ensures channel == Sms ==> (sid.Some? <==> cfg.phoneNumber != "" && reply.Accepted?)
    ensures channel == WhatsApp ==> (sid.Some? <==> WhatsAppNumber(cfg) != "" && reply.Accepted?)
    ensures sid.Some? ==> sid.value == reply.sid
  {
    if channel == Sms then Deliver(SmsRequest(cfg, to, body), reply)
    else Deliver(WhatsAppRequest(cfg, to, body), reply)
  }
}
