/**
  The inbound webhook (`POST /api/webhooks/twilio`): channel classification,
  phone normalisation, contact and thread find-or-create, the provider status
  mapping, one INBOUND message, and the unread bookkeeping.
 */
module Webhook {
  import opened Wrappers
  import opened Strings
  import opened Domain
  import opened Twilio

  /** The form fields read by the handler; an absent field is `None`. */
  datatype TwilioForm = TwilioForm(messageSid: Option<string>, from: Option<string>, to: Option<string>,
                                   body: Option<string>, messageStatus: Option<string>)

  /** 200 with an empty body, or 500 with an error body. */
  datatype WebhookReply = WebhookReply(store: Store, status: nat)

  /** WhatsApp when either address carries the channel marker, SMS otherwise. */
  function ClassifyChannel(from: string, to: string): (c: Channel)
    ensures c == WhatsApp <==> StartsWith(from, WhatsAppPrefix) || StartsWith(to, WhatsAppPrefix)
    ensures c == Sms || c == WhatsApp
  {
    if StartsWith(from, WhatsAppPrefix) || StartsWith(to, WhatsAppPrefix) then WhatsApp else Sms
  }

  /** Strip one marker, strip one "+", then put a "+" in front unless one is still there. */
  function NormalizePhone(from: string): (phone: string)
    ensures StartsWith(phone, "+")
    ensures |phone| <= |from| + 1
  {
    var bare := StripPrefix(StripPrefix(from, WhatsAppPrefix), "+");
    if StartsWith(bare, "+") then bare else "+" + bare
  }

  /** The three spellings of a number the provider uses all resolve to the same contact phone. */
  lemma {:induction false} NormalizeSpellings(d: string)
    requires !StartsWith(d, "+") && !StartsWith(d, WhatsAppPrefix)
    ensures NormalizePhone(WhatsAppPrefix + "+" + d) == "+" + d
    ensures NormalizePhone("+" + d) == "+" + d
    ensures NormalizePhone(d) == "+" + d
  {
    PrefixedStartsWith(WhatsAppPrefix, "+" + d);
    assert WhatsAppPrefix + "+" + d == WhatsAppPrefix + ("+" + d);
    PrefixedStartsWith("+", d);
    assert !StartsWith("+" + d, WhatsAppPrefix) by {
      assert ("+" + d)[0] == '+';
    }
  }

  /** Normalising twice changes nothing exactly when the result does not begin with "++". */
  lemma {:induction false} NormalizeStable(from: string)
    ensures NormalizePhone(NormalizePhone(from)) == NormalizePhone(from) <==> !StartsWith(NormalizePhone(from), "++")
  {
    var p := NormalizePhone(from);
    assert p[0] == '+' && !StartsWith(p, WhatsAppPrefix);
    var rest := p[1..];
    assert p == "+" + rest;
    PrefixedStartsWith("+", rest);
    if StartsWith(p, "++") {
      assert StartsWith(rest, "+");
      assert NormalizePhone(p) == rest;
      assert |rest| < |p|;
    } else {
      assert !StartsWith(rest, "+");
    }
  }

  /** The provider status string as a message status; anything unrecognised, or nothing, is SENT. */
  function MapStatus(status: Option<string>): (r: Status)
    ensures r == Delivered <==> status == Some("delivered")
    ensures r == Read <==> status == Some("read")
    ensures r == Failed <==> status == Some("failed")
    ensures r == Sent <==> status !in {Some("delivered"), Some("read"), Some("failed")}
  {
    if status == Some("delivered") then Delivered
    else if status == Some("read") then Read
    else if status == Some("failed") then Failed
    else Sent
  }

  /** `contact.findFirst({ where: { phone } })`: the first contact with that phone. */
  function FindContact(cs: seq<Contact>, phone: string): (r: Option<nat>)
    ensures r.Some? ==> r.value < |cs| && cs[r.value].phone == phone
    ensures r.Some? ==> forall j :: 0 <= j < r.value ==> cs[j].phone != phone
    ensures r.None? ==> forall j :: 0 <= j < |cs| ==> cs[j].phone != phone
  {
    if |cs| == 0 then None
    else if cs[0].phone == phone then Some(0)
    else
      var rest := FindContact(cs[1..], phone);
      if rest.Some? then Some(rest.value + 1) else None
  }

  /** `thread.findFirst({ where: { contactId } })`: the first thread of that contact. */
  function FindThread(ts: seq<Thread>, contact: nat): (r: Option<nat>)
    ensures r.Some? ==> r.value < |ts| && ts[r.value].contactId == contact
    ensures r.Some? ==> forall j :: 0 <= j < r.value ==> ts[j].contactId != contact
    ensures r.None? ==> forall j :: 0 <= j < |ts| ==> ts[j].contactId != contact
  {
    if |ts| == 0 then None
    else if ts[0].contactId == contact then Some(0)
    else
      var rest := FindThread(ts[1..], contact);
      if rest.Some? then Some(rest.value + 1) else None
  }

  predicate ThreadsReferToContacts(s: Store) {
    forall t :: 0 <= t < |s.threads| ==> s.threads[t].contactId < |s.contacts|
  }

  /** No two contacts share a phone number. */
  predicate PhonesUnique(cs: seq<Contact>) {
    forall i, j :: 0 <= i < j < |cs| ==> cs[i].phone != cs[j].phone
  }

  /** No contact has two threads. */
  predicate ThreadPerContact(ts: seq<Thread>) {
    forall i, j :: 0 <= i < j < |ts| ==> ts[i].contactId != ts[j].contactId
  }

  /** Contact and thread after find-or-create, and the indices the handler goes on with. */
  datatype Resolved = Resolved(contacts: seq<Contact>, threads: seq<Thread>, contact: nat, thread: nat)

  /** Find-or-create of the contact by phone and then of its thread; a new thread starts read, active now. */
  function Resolve(s: Store, phone: string, now: int): (r: Resolved)
    ensures r.contact < |r.contacts| && r.contacts[r.contact].phone == phone
    ensures r.thread < |r.threads| && r.threads[r.thread].contactId == r.contact
    ensures FindContact(s.contacts, phone).Some? ==> r.contacts == s.contacts && r.contact == FindContact(s.contacts, phone).value
    ensures FindContact(s.contacts, phone).None? ==> r.contacts == s.contacts + [Contact(phone, "", "", "")] && r.contact == |s.contacts|
    ensures FindThread(s.threads, r.contact).Some? ==> r.threads == s.threads && r.thread == FindThread(s.threads, r.contact).value
    ensures FindThread(s.threads, r.contact).None? ==>
      r.threads == s.threads + [Thread(r.contact, now, 0)] && r.thread == |s.threads|
    ensures PhonesUnique(s.contacts) ==> PhonesUnique(r.contacts)
    ensures ThreadPerContact(s.threads) ==> ThreadPerContact(r.threads)
    ensures ThreadsReferToContacts(s) ==> forall t :: 0 <= t < |r.threads| ==> r.threads[t].contactId < |r.contacts|
  {
    var found := FindContact(s.contacts, phone);
    var contacts := if found.Some? then s.contacts else s.contacts + [Contact(phone, "", "", "")];
    var c := if found.Some? then found.value else |s.contacts|;
    var thread := FindThread(s.threads, c);
    var threads := if thread.Some? then s.threads else s.threads + [Thread(c, now, 0)];
    var t := if thread.Some? then thread.value else |s.threads|;
    Resolved(contacts, threads, c, t)
  }

  /**
    The handler. A missing `From` (or a missing `To` with a non-WhatsApp
    `From`) throws before any write. A missing `To` with a WhatsApp `From`
    throws at the message write, after find-or-create has stored its rows.
   */
  function Ingest(s: Store, form: TwilioForm, now: int): (r: WebhookReply)
    ensures r.status == 200 || r.status == 500
    ensures r.status == 200 <==> form.from.Some? && form.to.Some?
    ensures form.from.None? || (form.to.None? && !StartsWith(form.from.value, WhatsAppPrefix)) ==> r.store == s
    ensures r.store.users == s.users
    ensures form.from.Some? && (form.to.Some? || StartsWith(form.from.value, WhatsAppPrefix)) ==>
      var res := Resolve(s, NormalizePhone(form.from.value), now);
      && r.store.contacts == res.contacts
      && |r.store.threads| == |res.threads|
      && (forall t :: 0 <= t < |res.threads| && t != res.thread ==> r.store.threads[t] == res.threads[t])
    ensures r.status == 200 ==>
      var res := Resolve(s, NormalizePhone(form.from.value), now);
      && |r.store.messages| == |s.messages| + 1 && r.store.messages[..|s.messages|] == s.messages
      && r.store.messages[|s.messages|] == Message(res.thread, None, ClassifyChannel(form.from.value, form.to.value),
           Inbound, MapStatus(form.messageStatus), form.body.GetOr(""), form.from.value, form.to.value,
           form.messageSid, now, Some(now), None)
      && r.store.threads[res.thread].unreadCount == res.threads[res.thread].unreadCount + 1
      && r.store.threads[res.thread].lastActivity == now
      && r.store.threads[res.thread].contactId == res.contact
    ensures r.status == 500 ==> r.store.messages == s.messages && r.store.threads[..|s.threads|] == s.threads
  {
    if form.from.None? then WebhookReply(s, 500)
    else
      var from := form.from.value;
      if form.to.None? && !StartsWith(from, WhatsAppPrefix) then WebhookReply(s, 500)
      else
        var res := Resolve(s, NormalizePhone(from), now);
        if form.to.None? then
          WebhookReply(s.(contacts := res.contacts, threads := res.threads), 500)
        else
          var to := form.to.value;
          var m := Message(res.thread, None, ClassifyChannel(from, to), Inbound, MapStatus(form.messageStatus),
                           form.body.GetOr(""), from, to, form.messageSid, now, Some(now), None);
          var t := res.threads[res.thread];
          var threads := res.threads[res.thread := t.(lastActivity := now, unreadCount := t.unreadCount + 1)];
          WebhookReply(Store(s.users, res.contacts, threads, s.messages + [m]), 200)
  }

  /** Ingestion keeps the store well formed, keeps phones unique and keeps one thread per contact. */
  lemma {:induction false} IngestKeepsInvariants(s: Store, form: TwilioForm, now: int)
    ensures WellFormed(s) ==> WellFormed(Ingest(s, form, now).store)
    ensures PhonesUnique(s.contacts) ==> PhonesUnique(Ingest(s, form, now).store.contacts)
    ensures ThreadPerContact(s.threads) ==> ThreadPerContact(Ingest(s, form, now).store.threads)
  {
    var r := Ingest(s, form, now);
    if form.from.Some? && (form.to.Some? || StartsWith(form.from.value, WhatsAppPrefix)) {
      var res := Resolve(s, NormalizePhone(form.from.value), now);
      assert forall t :: 0 <= t < |r.store.threads| ==> r.store.threads[t].contactId == res.threads[t].contactId;
      if WellFormed(s) {
        assert ThreadsReferToContacts(s);
        forall i | 0 <= i < |r.store.messages| ensures MessageWellFormed(r.store, r.store.messages[i]) {
          if i < |s.messages| {
            assert r.store.messages[i] == s.messages[i];
            assert MessageWellFormed(s, s.messages[i]);
          }
        }
      }
    }
  }

  /**
    Two messages from the same, previously unseen phone leave exactly one new
    contact and one new thread, whose unread count is two.
   */
  lemma {:induction false} SamePhoneTwice(s: Store, f1: TwilioForm, f2: TwilioForm, now1: int, now2: int)
    requires WellFormed(s)
    requires f1.from.Some? && f1.to.Some? && f2.from.Some? && f2.to.Some?
    requires NormalizePhone(f1.from.value) == NormalizePhone(f2.from.value)
    requires FindContact(s.contacts, NormalizePhone(f1.from.value)).None?
    ensures var r := Ingest(Ingest(s, f1, now1).store, f2, now2).store;
      && |r.contacts| == |s.contacts| + 1
      && |r.threads| == |s.threads| + 1
      && r.contacts[|s.contacts|].phone == NormalizePhone(f1.from.value)
      && r.threads[|s.threads|].contactId == |s.contacts|
      && r.threads[|s.threads|].unreadCount == 2
      && |r.messages| == |s.messages| + 2
  {
    var phone := NormalizePhone(f1.from.value);
    var r1 := Ingest(s, f1, now1);
    var res1 := Resolve(s, phone, now1);
    assert FindThread(s.threads, |s.contacts|).None? by {
      forall j | 0 <= j < |s.threads| ensures s.threads[j].contactId != |s.contacts| {
        assert s.threads[j].contactId < |s.contacts|;
      }
    }
    assert res1.contact == |s.contacts| && res1.thread == |s.threads|;
    var s1 := r1.store;
    assert FindContact(s1.contacts, phone) == Some(|s.contacts|) by {
      assert s1.contacts == s.contacts + [Contact(phone, "", "", "")];
      FindAppended(s.contacts, Contact(phone, "", "", ""));
    }
    assert FindThread(s1.threads, |s.contacts|) == Some(|s.threads|) by {
      assert s1.threads[..|s.threads|] == s.threads;
      FindThreadAfter(s1.threads, |s.threads|, |s.contacts|);
    }
  }

  /** A contact appended after contacts without its phone is the first one found. */
  lemma {:induction false} FindAppended(cs: seq<Contact>, c: Contact)
    requires FindContact(cs, c.phone).None?
    ensures FindContact(cs + [c], c.phone) == Some(|cs|)
  {
    if |cs| > 0 {
      assert (cs + [c])[1..] == cs[1..] + [c];
      FindAppended(cs[1..], c);
    }
  }

  lemma {:induction false} FindThreadAfter(ts: seq<Thread>, n: nat, contact: nat)
    requires n < |ts| && ts[n].contactId == contact
    requires forall j :: 0 <= j < n ==> ts[j].contactId != contact
    ensures FindThread(ts, contact) == Some(n)
  {
    if n > 0 {
      FindThreadAfter(ts[1..], n - 1, contact);
    }
  }
}
