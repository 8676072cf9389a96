# Unified inbox — a Dafny model of the message pipeline

This project models the server-side core of a unified inbox web application
(Next.js, Prisma, Twilio). Customers reach the team by SMS or WhatsApp, and
the team answers from one place. The model covers:

- **Outbound dispatch** (`POST /api/messages/send`). It checks the guards in
  order. It then either stores a SCHEDULED message or sends at once. It
  derives the sender address and records the SENT or FAILED outcome, with the
  thread bookkeeping that goes with it.
- **Scheduled sweeper** (`POST /api/messages/process-scheduled`). It checks
  the cron secret and selects at most fifty due SCHEDULED messages. Each gets
  one provider attempt. It then reports the `processed`, `succeeded` and
  `failed` counters.
- **Inbound webhook** (`POST /api/webhooks/twilio`). It classifies the channel
  and normalises the phone number. It finds or creates the contact and its
  thread, maps the provider status, stores one INBOUND message and bumps the
  thread's unread count.
- **Analytics report** (`GET /api/analytics`). It picks the time window and
  computes the overview figures (totals, conversations, directions, success
  rate, average response time). It also builds every chart series: volume per
  day, channel, channel by direction, status, response time per day, top
  responders, top authors, and activity per hour.
- **Small helpers** on the same data:
  - the WhatsApp address formatting of the provider helpers (`lib/twilio.ts`);
  - the inbox page's contact name, channel and search filter, and kanban columns;
  - the dashboard's unread total;
  - the admin user listing and the guarded, email-unique user insert.

Every handler is a pure function. It takes:

- the store (tables of users, contacts, threads and messages);
- the request fields;
- the session (`Option` of a user id);
- the current time, in integer milliseconds;
- the configuration strings;
- the provider's reply, which stands in as an oracle.

It returns the new store and the HTTP status. The sweeper's loop is a method
whose loop invariants carry the counter identities. Row ids are positions in
the tables. An unset environment variable or contact field is the empty
string, because every use of one in the application is a truthiness test.

Modules:

- Generic library:
  - `Wrappers`: `Option`.
  - `Seqs`: filter, sum and subsequence.
  - `Strings`: prefixes, trimming, lower-casing and splitting.
  - `Sorting`: a stable sort by an integer key, and `Take`.
  - `Grouping`: grouping in first-appearance order, as a reduce into an
    object followed by `Object.values` does.
- Application model:
  - `Domain`: the enums and records.
  - `Twilio`: the provider helpers.
  - `Send`, `Sweeper`, `Webhook`, `Dashboard`, `AdminUsers` and `Inbox`: the
    handlers and page helpers.
  - `ResponseTimes`, `Distributions` and `Authors`: the parts of the
    analytics report.
  - `Analytics`: the analytics handler itself.

## Model

| member | source | states |
|---|---|---|
| Domain.ParseChannel | packages/types/channels.ts:1-6 | a channel name parses exactly to the enum value with that name, and nothing else parses |
| Domain.ParseRole | packages/types/user.ts:1-5 | a role name parses exactly to the enum value with that name, and nothing else parses |
| Twilio.WhatsAppFrom | apps/web/app/lib/twilio.ts:37 | the WhatsApp sender always begins with `whatsapp:`, and a sender that already has the marker is kept as it is |
| Twilio.WhatsAppFromIgnoresMarker | apps/web/app/lib/twilio.ts:37 | a bare number and the same number with one marker give the same sender |
| Twilio.WhatsAppFromStripsOnce | apps/web/app/lib/twilio.ts:37 | only one leading marker is stripped: a doubled marker survives once |
| Twilio.WhatsAppTo | apps/web/app/lib/twilio.ts:38 | the recipient gets the marker only when it lacks one; removing the added marker gives back the input |
| Twilio.WhatsAppNumber | apps/web/app/lib/twilio.ts:33 | `TWILIO_WHATSAPP_NUMBER` when set, otherwise the phone number; empty iff both are unset |
| Twilio.SmsRequest | apps/web/app/lib/twilio.ts:13-22 | an SMS send throws iff no phone number is configured; otherwise the sender is that number and the recipient and body pass through |
| Twilio.WhatsAppRequest | apps/web/app/lib/twilio.ts:32-44 | a WhatsApp send throws iff neither number is set; otherwise the sender is `WhatsAppFrom` of that number, the recipient is `WhatsAppTo` of the given address, and the body passes through |
| Twilio.Deliver | apps/web/app/lib/twilio.ts:18-29 | a message id comes back iff a request was made and the provider accepted it, and it is the provider's id |
| Twilio.Transmit | apps/web/app/lib/twilio.ts:13-52 | for SMS or WhatsApp: a provider refusal or a missing number means no id; otherwise the id is the provider's |
| Send.GuardFailure | apps/web/app/api/messages/send/route.ts:17-57 | guard precedence 401, 404 (unknown user), 403 (VIEWER), 400 (missing field), 404 (unknown thread); all pass iff none applies |
| Send.RouteFrom | apps/web/app/api/messages/send/route.ts:59-67 | SMS stores the phone number; WhatsApp stores a sender beginning with `whatsapp:` that equals the provider helper's sender when a number is configured |
| Send.ScheduleMessage | apps/web/app/api/messages/send/route.ts:69-99 | one SCHEDULED outbound message from the session user, with no sent time and no provider id, whose schedule lies after now; the thread's activity moves to now; status 200 |
| Send.SendNow | apps/web/app/api/messages/send/route.ts:101-160 | exactly one message is appended. On provider success: SENT with the provider id and sent time now, thread bumped, 200. On failure: FAILED with no id or sent time, threads unchanged, 500 |
| Send.SendMessage | apps/web/app/api/messages/send/route.ts:17-160 | a guard failure or a module-load failure persists nothing. A scheduled request with an enum channel stores one SCHEDULED message carrying the requested time, with no sent time or id, bumps the thread and answers 200, even on EMAIL/TWITTER. An immediate SMS/WhatsApp send stores SENT with the provider id and sent time now, bumps the thread and answers 200 when the provider accepts; otherwise it stores FAILED, leaves the threads and answers 500. Another channel is 400 with nothing stored. Every new message is OUTBOUND from the session user; well-formedness is kept |
| Sweeper.DueFrom | apps/web/app/api/messages/process-scheduled/route.ts:16-32 | exactly the due messages (SCHEDULED, scheduled at or before now) at or after an index, each once, in table order |
| Sweeper.SelectDue | apps/web/app/api/messages/process-scheduled/route.ts:16-32 | the selection holds only due messages, each once, at most 50; when fewer than 50 are selected, every due message is selected |
| Sweeper.Step | apps/web/app/api/messages/process-scheduled/route.ts:47-103 | one loop pass: the message ends as `SweptAs` prescribes, others unchanged; `succeeded` grows iff the message ended SENT, `failed` otherwise; `processed` grows only for a supported channel; a SENT message touches its thread's activity, any other outcome leaves the threads |
| Sweeper.SweepAll | apps/web/app/api/messages/process-scheduled/route.ts:41-103 | succeeded = number of selected messages that ended SENT; succeeded + failed = number selected; processed = selected − unsupported; each selected message is swept as prescribed; unselected messages unchanged; the thread of every SENT message has activity now, and a thread changes only by such a bump |
| Sweeper.SweepFacts | apps/web/app/api/messages/process-scheduled/route.ts:47-103 | after the loop no selected message is SCHEDULED or selectable again, and the store stays well formed |
| Sweeper.ProcessScheduled | apps/web/app/api/messages/process-scheduled/route.ts:7-109 | load failure 500 and cron rejection 401, both with the store unchanged; nothing due gives 200 with the store unchanged; succeeded counts the selected messages that ended SENT and failed the rest; processed = selected − unsupported ≤ 50; the thread of every SENT message has activity now; no swept message stays SCHEDULED, so no later sweep reselects it; well-formedness is kept |
| Webhook.ClassifyChannel | apps/web/app/api/webhooks/twilio/route.ts:24-26 | WHATSAPP iff either address begins with `whatsapp:`, SMS otherwise |
| Webhook.NormalizePhone | apps/web/app/api/webhooks/twilio/route.ts:28-31 | the normalised phone always begins with `+` and is at most one character longer |
| Webhook.NormalizeSpellings | apps/web/app/api/webhooks/twilio/route.ts:28-31 | `whatsapp:+D`, `+D` and `D` all normalise to `+D` |
| Webhook.NormalizeStable | apps/web/app/api/webhooks/twilio/route.ts:28-31 | normalising again changes nothing iff the result does not begin with `++` |
| Webhook.MapStatus | apps/web/app/api/webhooks/twilio/route.ts:57-64 | "delivered", "read" and "failed" map to their statuses; anything else, or no status, maps to SENT |
| Webhook.FindContact | apps/web/app/api/webhooks/twilio/route.ts:33-35 | the first contact with the phone, or none iff no contact has it |
| Webhook.FindThread | apps/web/app/api/webhooks/twilio/route.ts:45-47 | the first thread of the contact, or none iff the contact has none |
| Webhook.Resolve | apps/web/app/api/webhooks/twilio/route.ts:33-55 | find-or-create creates at most one contact and one thread, none when found; keeps phones unique, one thread per contact, and thread-to-contact references |
| Webhook.Ingest | apps/web/app/api/webhooks/twilio/route.ts:9-108 | 200 iff From and To are present; one INBOUND message with no user, content Body or "", the provider id and sent time now; the thread's unread count grows by exactly one and its activity becomes now; other threads unchanged; a 500 adds no message |
| Webhook.IngestKeepsInvariants | apps/web/app/api/webhooks/twilio/route.ts:33-95 | ingestion keeps the store well formed, phones unique and one thread per contact |
| Webhook.SamePhoneTwice | apps/web/app/api/webhooks/twilio/route.ts:33-95 | two messages from the same new phone leave one new contact and one new thread with two unread |
| Dashboard.TotalUnreadBounds | apps/web/app/api/dashboard/stats/route.ts:16-27 | the unread total is at least the number of unread threads, and 0 iff there are none |
| Dashboard.TotalUnreadOfAll | apps/web/app/api/dashboard/stats/route.ts:16-27 | when no count is negative, summing only unread threads equals summing all threads |
| Dashboard.DashboardStats | apps/web/app/api/dashboard/stats/route.ts:10-32 | 401 iff no session; total messages counts every message with no window; the unread total is the sum of the unread counts of the unread threads, which equals the sum over all threads when none is negative; it is 0 iff no thread has unread messages |
| AdminUsers.Gate | apps/web/app/api/admin/users/route.ts:11-22 | 401 without a session, 403 for a missing or non-ADMIN user, pass iff admin |
| AdminUsers.ListUsers | apps/web/app/api/admin/users/route.ts:6-37 | 200 iff admin; the listing is a permutation of all users, newest first |
| AdminUsers.CreateUser | apps/web/app/api/admin/users/route.ts:42-96 | gate, 400 for a missing field or a taken email, with nothing stored; 201 iff all pass and the role is an enum value; the new user is appended unverified with the given fields; email uniqueness and well-formedness are kept |
| Inbox.ContactName | apps/web/app/inbox/page.tsx:115-120 | trimmed "first last" when either name is set; otherwise phone, then email, then "Unknown" |
| Inbox.FilterThreadsSpec | apps/web/app/inbox/page.tsx:137-164 | the two filter passes keep, in order, exactly the threads passing the channel filter (latest message on that channel) and the search (blank, or lower-cased query found in name, phone, email or latest content) |
| Inbox.FilterThreadsNoFilter | apps/web/app/inbox/page.tsx:140-148 | "all" channels with a whitespace-only query shows every thread |
| Inbox.StatusOf | apps/web/app/inbox/page.tsx:208-216 | unread iff unread > 0; scheduled, sent and read by the latest message in that priority; agrees with the kanban header filters when unread is 0 |
| Inbox.ThreadsForColumn | apps/web/app/inbox/page.tsx:251-258 | an order-preserving subsequence holding exactly the threads of that status |
| Inbox.ColumnsPartition | apps/web/app/inbox/page.tsx:208-258 | each thread lies in exactly the column of its status, and the column sizes add up to the number of threads |
| Analytics.StartDate | apps/web/app/api/analytics/route.ts:15-36 | "7", "30" and "90" give that many days before now; "all" gives 0; anything else, or nothing, gives 30 days |
| Analytics.WindowsNest | apps/web/app/api/analytics/route.ts:38-63 | a later window start keeps a subset of what an earlier one keeps |
| Analytics.Fetched | apps/web/app/api/analytics/route.ts:38-63 | the fetched messages are exactly the window's, each at or after the start, ordered by creation time |
| Analytics.ThreadIds | apps/web/app/api/analytics/route.ts:66 | the set of thread ids of the messages |
| Analytics.ConversationBounds | apps/web/app/api/analytics/route.ts:65-66 | conversations ≤ messages, and 0 iff there are no messages |
| Analytics.DirectionsSplit | apps/web/app/api/analytics/route.ts:68-73 | inbound + outbound = total messages |
| Analytics.SuccessRate | apps/web/app/api/analytics/route.ts:75-82 | the share of SENT, DELIVERED or READ messages, as a percentage in [0, 100]; 0 for no messages |
| Analytics.SuccessRateExample | apps/web/app/api/analytics/route.ts:75-82 | SENT, DELIVERED, FAILED, READ gives 75 |
| Analytics.Round1 | apps/web/app/api/analytics/route.ts:271-272 | rounding to one decimal lands within 0.05 on a tenth, and keeps the bounds 0 and 100 |
| Analytics.OverviewOf | apps/web/app/api/analytics/route.ts:65-120 | total = number of messages; conversations = number of distinct thread ids (≤ total, 0 iff total is 0); inbound and outbound = the direction filters, adding up to the total; success rate and average response time are the one-decimal roundings of `SuccessRate` and of `AverageMinutes` of the per-thread samples, in [0, 100] and ≥ 0 |
| Analytics.GetAnalytics | apps/web/app/api/analytics/route.ts:6-295 | 401 iff no session; the total counts the window's messages; 24 hourly entries; at most 10 entries per user ranking |
| Analytics.ChartsAgree | apps/web/app/api/analytics/route.ts:122-265 | the volume, channel, channel-by-direction, status and hourly charts each add up to the total; the per-day response samples are among the overview's samples |
| ResponseTimes.AdjacentDeltas | apps/web/app/api/analytics/route.ts:94-115 | one thread's samples: fewer than its messages, and non-negative when in time order |
| ResponseTimes.AdjacentDeltasAreAnsweredGaps | apps/web/app/api/analytics/route.ts:94-115 | the loop over adjacent pairs gives exactly the gaps of INBOUND messages answered by an OUTBOUND message with a user |
| ResponseTimes.ResponseDeltas | apps/web/app/api/analytics/route.ts:84-115 | every response sample is non-negative |
| ResponseTimes.AverageMinutes | apps/web/app/api/analytics/route.ts:117-120 | 0 with no samples; otherwise the mean of the samples in minutes, non-negative for non-negative samples |
| ResponseTimes.OneConversation | apps/web/app/api/analytics/route.ts:84-115 | for a single thread in time order the grouping changes nothing |
| ResponseTimes.AverageExample | apps/web/app/api/analytics/route.ts:84-120 | IN at 0, OUT at 5 min, IN at 6 min, OUT at 9 min gives samples of 5 and 3 minutes and an average of 4 |
| ResponseTimes.GlobalWithinThreads | apps/web/app/api/analytics/route.ts:204-228 | on time-ordered input, every pair counted per day (adjacent overall, same thread) is also counted per thread |
| ResponseTimes.ResponseTimeOverTimeFacts | apps/web/app/api/analytics/route.ts:204-252 | days strictly ascending; one point for every day on which some sample falls and no other; each average the mean of that day's samples |
| Distributions.DistributionTotal | apps/web/app/api/analytics/route.ts:122-145 | a distribution's counts add up to the number of messages and its keys are distinct |
| Distributions.DistributionEntries | apps/web/app/api/analytics/route.ts:122-145 | each entry counts, positively, the messages with its key; every message's key has an entry |
| Distributions.PairKeyDecodes | apps/web/app/api/analytics/route.ts:283-286 | splitting the `channel_direction` key on `_` gives back the channel and direction names |
| Distributions.ChannelDirectionFacts | apps/web/app/api/analytics/route.ts:130-137 | the channel-by-direction bars add up to the total; each names a real message's pair and counts its messages |
| Distributions.VolumeFacts | apps/web/app/api/analytics/route.ts:191-242 | the daily counts add up to the total; the days are distinct and ascending; each day's count is its messages; every message's day appears |
| Distributions.HourCountsAreFilters | apps/web/app/api/analytics/route.ts:230-238 | each hour's count is the number of messages at that hour |
| Distributions.HourlyActivity | apps/web/app/api/analytics/route.ts:262-265 | exactly 24 entries, entry h for hour h, counting the messages at that hour |
| Distributions.HourlyTotal | apps/web/app/api/analytics/route.ts:230-265 | the hourly counts add up to the total |
| Authors.TopAuthors | apps/web/app/api/analytics/route.ts:254-260 | the first min(10, number of authors) entries of the ranking; counts non-increasing; no omitted user has a higher count than the last one kept |
| Authors.RankingFacts | apps/web/app/api/analytics/route.ts:147-189 | before the cut, one entry per author, with that user's name and email and a positive count equal to that user's messages; every author appears |
| Authors.ResponsesAtMostMessages | apps/web/app/api/analytics/route.ts:147-189 | a user's response count is at most that user's message count |

## Left out

- Rendering and client state of every page. Only the pure helpers of the
  inbox page are modelled. The kanban header counts (`inbox/page.tsx:218-249`)
  are computed but never shown; they appear only as the independent reference
  that `Inbox.StatusOf` is checked against.
- Authentication. The session is an `Option` of a user id, and the auth
  provider is not part of this model.
- The passthrough routes (user, users, threads, notes, presence, contact
  notes) and the `admin/users/[id]` route. Each is one database call with no
  logic to check.
- `getTwilioPhoneNumbers` and the provider client itself. `messages.create` is
  an oracle: `ProviderReply` for a send, a function from message index to
  reply for the sweeper.
- Concurrency. There are no find-or-create races and no overlapping sweeps.
  Every database write succeeds, except where the application itself makes a
  write fail: an out-of-enum channel or role, the webhook's missing `To`, and
  the sweeper's missing thread row.
- The analytics handler's generic 500 on a database error. Nothing in the
  model fails there.
- The order of database results that have no `orderBy`. The sweeper takes due
  messages in table order. Messages with equal timestamps keep table order in
  the analytics sort. Users with equal counts keep first-appearance order in
  the rankings.
- The webhook's `NumMedia` field. It is parsed and never used.
- A request body that is not valid JSON. In the send and admin-user handlers
  `req.json()` throws outside any `try` (`api/messages/send/route.ts:40`,
  `api/admin/users/route.ts:60`), so the framework answers 500. Requests
  here are records, so that case does not arise.
- Repeated reads of the clock within one request. The handlers call
  `new Date()` again for each write (for example
  `api/messages/process-scheduled/route.ts:77` and `:84`); the model uses
  one `now` for the whole request.
- Ids are table positions rather than generated cuids.
- Dates are integer milliseconds. A day key is the millisecond count divided
  by one day, which orders the same way as the ISO date string the
  application compares with `localeCompare`. The local hour of a timestamp is
  a parameter (`hourOf`), because it depends on the server's time zone.
- Floating point is modelled with exact reals. `Analytics.Round1` rounds
  halves up, as `Math.round` does.
- Lower-casing and trimming cover ASCII letters and spaces, tab, line feed,
  vertical tab, form feed and carriage return, and no other characters. Unicode case mapping and
  Unicode white space are left out.
- Analytics.GetAnalytics: the contract states the totals and the chart
  shapes. The chart contents are stated by `Analytics.ChartsAgree` and the
  lemmas it combines, over the same fetched messages.
- Sweeper.SelectDue: with fifty or more messages due, the contract does not
  say which fifty are chosen, because the database query has no order.
