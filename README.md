# Referral subscription bot: a Dafny model of its core

The bot registers members of a paid referral service through a Telegram chat.
A new user sends `/start` and answers seven prompts in a fixed order: the
language, the name, the phone number, the email, the sponsor ("godfather"),
the payment method and the payment's transaction id. Each answer goes into a
per-user draft (`context.user_data`). The last answer upserts a Pending
member document into a MongoDB collection and sends the administrator
Approve/Reject buttons. An approval stamps the subscription start and the
renewal date, which is day 25 of the next month. Referral counts and payouts
are computed from the members' `godfather` fields, per billing period running
from the last 25th to today.

The model is split into these modules:

- `Calendar` (calendar.dfy) covers dates and times on integers. It models
  `relativedelta(months=k)`, where the day is clipped to the month length and
  a year outside 1..9999 is an error. It also models the renewal date and the
  billing-period boundaries.
- `Text` (text.dfy) models Python's `str.strip()`, `str.lower()` as far as the
  bot depends on it, and `int()` applied to text.
- `Store` (store.dfy) models the member collection. It is a map from `user_id`
  to a document, and a document is a map from field name to value. An
  insertion order stands for MongoDB's natural order. The module covers
  `update_one` with `$set` and `upsert`, the `find_one` used for a username,
  and `count_documents`. The class `MemberStore` is the collection handle the
  bot updates in place.
- `Sponsor` (sponsor.dfy) models `normalize_godfather` and the `skip` check.
- `Registration` (registration.dfy) models the ConversationHandler's state
  table as a pure step function over the seven phases and END, and how it
  behaves over sequences of updates.
- `Conversation` (conversation.dfy) holds the handlers as methods of the class
  `RegistrationBot`. The class owns the per-user conversation states and
  drafts, and the member store; its `Update` method dispatches one update.
- `Admin` (admin.dfy) models `admin_callback`, the approve/reject decision.
- `Referral` (referral.dfy) models the `stats_info`/`referral_stats` count, the
  `referral_earnings` counts, and the two loops of
  `send_monthly_referral_report`.

The model leaves the clock and the outcome of each remote call to the caller:

- The clocks are parameters: `today` (`date.today()`), `now`
  (`datetime.now()`) and a UTC time (`datetime.utcnow()`).
- Whether the submission's store write, the decision's store write or a
  Telegram message succeeds is a boolean parameter. The submission also fails
  on its own when a field holds an integer that does not fit in 8 bytes,
  since MongoDB stores at most 8-byte integers.

Two behaviours of the code are easy to misread; the model follows the code:

- The draft is never cleared. Neither `cancel` nor the end of a submission
  empties `context.user_data`. A later registration overwrites each field
  again before it submits, as `Registration.SubmissionNeedsEveryStep` shows.
- A handler that raises leaves the user in the same state. This is
  python-telegram-bot's behaviour when a handler raises. Three handlers can
  raise:
  - `language_callback` raises for a language without texts (a `KeyError` in
    `get_messages`), after it has stored that language in the draft;
  - `payment_callback` raises for a payment method without instructions (a
    `KeyError` in `PAYMENT_DETAILS`), after it has stored that method;
  - `cancel` raises when the draft's language has no texts. That happens
    after a language button without texts, so `/cancel` then leaves the user
    in LANGUAGE_SELECTION until a known language is chosen.
- The monthly report runs on the 25th at 00:05, when the current billing
  period has just begun. It therefore counts only that day's registrations;
  see "Findings".

## Model

| member | source | states |
|---|---|---|
| Calendar.DaysInMonth | bot.py:117 | Month lengths are 28 to 31 days. A month has 29 days exactly when it is February of a leap year. |
| Calendar.AddMonths | bot.py:117 | `relativedelta(months=k)`: None exactly when the target year leaves 1..9999. Otherwise the result is a valid date k months later, with the day clipped to the target month's length. |
| Calendar.Midnight | bot.py:271 | `datetime.combine(d, datetime.min.time())`: the same date at 00:00:00. |
| Calendar.RenewalDate | bot.py:115-119 | None exactly in December 9999. Otherwise the result is a valid date on day 25 of the month after today, strictly after today. |
| Calendar.RenewalDateNextMonth | bot.py:115-119 | The renewal date is (y, m+1, 25), and December wraps to (y+1, 1, 25). |
| Calendar.RenewalDateIgnoresDay | bot.py:115-119 | Two days of the same month have the same renewal date. |
| Calendar.RenewalDateExample | tests/test_utils.py:6-12 | 2025-06-10 gives 2025-07-25, and so does 2025-06-30. |
| Calendar.PeriodStart | bot.py:355-359 | The start is day 25 at 00:00, of this month from the 25th on and of the previous month before it. It is None only before 0001-01-25. It is at or before now. |
| Calendar.PeriodEnd | bot.py:360 | The end is now's date at 23:59:59.999999. It is at or after now and after every time on that date. |
| Calendar.NowInPeriod | bot.py:381-386 | period_start ≤ now ≤ period_end. |
| Calendar.PeriodStartIsLatestRenewal | bot.py:356-359 | Every day-25 midnight at or before now is at or before the period start, so the start is the latest such time. |
| Text.Strip | bot.py:162 | The result has no whitespace at either end and is no longer than the input. It is empty exactly when the input is all whitespace. |
| Text.StripLeftIsSuffix | bot.py:162 | `lstrip` keeps a suffix of the text. |
| Text.StripRightIsPrefix | bot.py:162 | `rstrip` keeps a prefix of the text. |
| Text.StripIsInfix | bot.py:162 | `strip` keeps a contiguous piece of the text and removes only whitespace before and after it. |
| Text.TrimmedStrip | bot.py:180 | Stripping text with no surrounding whitespace leaves it unchanged. |
| Text.StripIdempotent | bot.py:180 | Stripping twice equals stripping once. |
| Text.Lower | bot.py:174 | The length is kept, each character is lower-cased, and no ASCII capital letter remains. |
| Text.LowerIdempotent | bot.py:174 | Lower-casing twice equals lower-casing once. |
| Text.LowerIsSkip | bot.py:181 | `lower()` gives "skip" exactly for four characters s/S, k/K/KELVIN SIGN, i/I and p/P. |
| Text.ParseInt | bot.py:124 | A result exists exactly for ASCII digits, with an optional sign. Parsed text has no surrounding whitespace. |
| Text.IntOfStrippedText | bot.py:124 | `int()` ignores surrounding whitespace. |
| Text.IntOfText | bot.py:124 | `int()` on text succeeds exactly for ASCII digits with an optional sign, surrounded by any whitespace. |
| Text.DigitsValueShowNat | bot.py:244-245 | The decimal digits of n read back as n. |
| Text.ParseShowInt | bot.py:259 | `int(str(n))` is n for every integer. |
| Store.SetFields | bot.py:221-225 | `$set` writes the listed fields and keeps all others. |
| Store.Updated | bot.py:221-225 | For `update_one` with `$set`: the matching document gets the listed fields and keeps the rest, and the other documents are unchanged. When no document matches, an upsert creates `{user_id}` plus the fields, and a plain update changes nothing. |
| Store.UpdatedIdempotent | bot.py:221-225 | The same write twice equals the write once. |
| Store.UpdatedOverwrites | bot.py:221-225 | A second write of at least the same fields replaces the first one. |
| Store.SetFieldsOverwrites | bot.py:221-225 | The same as Store.UpdatedOverwrites, for a single document. |
| Store.UpdatedWellFormed | bot.py:36 | A write that keeps `user_id` keeps the unique `user_id` key and the natural order. |
| Store.FirstWithUsername | bot.py:127 | Gives the first position in natural order holding that username, and no earlier position holds it. |
| Store.FindByUsername | bot.py:127-128 | Some(id) means that member has the username. None means that no member has it. |
| Store.CountDocuments | bot.py:361-369 | `count_documents` counts the documents matching the filter, never more than there are. |
| Store.CountSnoc | bot.py:389-396 | Counting one more document adds one exactly when it matches. |
| Store.CountStricter | bot.py:361-369 | A filter asking for more never counts more. |
| Store.MemberStore.constructor | bot.py:30-46 | A well-formed collection handle, starting empty. |
| Store.MemberStore.UpdateOne | bot.py:221-225 | The collection becomes `Updated(...)`, an upserted id is appended to the natural order, and well-formedness is kept. |
| Sponsor.NormalizeGodfather | bot.py:121-128 | Integer text gives that integer, with no existence check. Other text gives a member carrying that username. None means that no member has it. |
| Sponsor.ResolveSponsor | bot.py:180-182 | "skip" in any case gives no sponsor. A sponsor found is the typed integer or a member whose username is the stripped text. |
| Sponsor.SponsorValue | bot.py:182 | The draft value is the id, or null. |
| Sponsor.SkipMeansNoSponsor | bot.py:180-181 | "skip" in any case, with surrounding whitespace, gives no sponsor. |
| Sponsor.IntegerIsSponsorId | bot.py:121-124 | Text that parses as an integer once stripped gives that integer. |
| Sponsor.UsernameIsLookedUp | bot.py:125-128 | Any other text is looked up as a username, stripped. |
| Sponsor.SponsorOrigin | bot.py:179-182 | The resolved sponsor is the parsed integer, or a member that has the stripped text as username. No sponsor means "skip", or text that is neither an integer nor any member's username. |
| Registration.Rank | bot.py:49-57 | The seven states are numbered 0..6. |
| Registration.PhaseOfRank | bot.py:49-57 | Inverse of Rank. |
| Registration.Successor | bot.py:159-253 | Each handler returns the next state, and TRANSACTION_ID returns END. |
| Registration.UntilUnderscore | bot.py:155 | The result of `split('_')[1]`: a prefix without '_', stopped by a '_' or the end. |
| Registration.Choice | bot.py:155 | `split('_')[1]` of button data: the characters after the prefix up to the next underscore or the end, with no underscore among them. |
| Registration.Step | bot.py:450-462 | From END only `/start` of a user who is not Approved enters LANGUAGE_SELECTION. In a phase, an update leaves the state, moves it to the successor, or ends the conversation. |
| Registration.CancelEnds | bot.py:292-295 | `/cancel` ends the conversation from every state when the draft's language has texts. |
| Registration.CancelWithoutTextsStays | bot.py:292-294 | When the draft's language has no texts, `/cancel` raises in `get_messages` and the state stays where it was. |
| Registration.ApprovedNeverEnters | bot.py:134-142 | No update takes an Approved member from END into LANGUAGE_SELECTION. |
| Registration.StepAdvancesOnePhase | bot.py:450-462 | A step stays, ends, or advances exactly one phase. It moves to the successor exactly when the phase's handler completes, or by a `/cancel` that completes at TRANSACTION_ID. |
| Registration.StepInto | bot.py:450-462 | A phase is entered only from the phase just before it, by a handler that completes, or at LANGUAGE_SELECTION by `/start` of a user who is not Approved. |
| Registration.Trace | bot.py:450-462 | The states over a sequence of updates, one after each. |
| Registration.LastEntry | bot.py:450-462 | A user in a phase entered it at some earlier update and stayed there since. |
| Registration.StepsBefore | bot.py:450-462 | Reaching a phase takes one completed handler for each earlier phase, in order, after a `/start`. |
| Registration.SubmissionNeedsEveryStep | bot.py:450-462 | A submission requires a `/start` of a user who is not Approved, followed by the seven handlers completing in order, with no END in between. |
| Conversation.FieldsDistinct | bot.py:155-204 | Each phase writes its own draft field. |
| Conversation.LowerTrimmed | bot.py:174 | Lower-casing keeps text free of surrounding whitespace. |
| Conversation.StoredTextIsStripped | bot.py:162-204 | The name, phone and transaction id are stored without surrounding whitespace. The email is also stored without ASCII capitals. |
| Conversation.AdvanceFills | bot.py:152-204 | A completed handler leaves every field the next phase reads, and a known language. |
| Conversation.RaiseKeepsFilled | bot.py:152-200 | A handler that raises leaves the draft usable for the phase it stays in. |
| Conversation.FilledHasTexts | bot.py:293-294 | Past LANGUAGE_SELECTION the draft's language has texts, so `/cancel` can stay only in LANGUAGE_SELECTION. |
| Conversation.UnknownLanguageBlocksCancel | bot.py:155-157 | A language button without texts leaves a draft language for which `/cancel` has no texts either. |
| Conversation.SubmissionFields | bot.py:205-219 | The submission keeps `user_id` as the document's key. |
| Conversation.SubmissionFieldsCarry | bot.py:205-219 | The submission holds the user's id, Pending, the registration time, the username or null, and the seven draft fields unchanged. |
| Conversation.Submit | bot.py:220-225 | The submission upsert keeps every document and adds the user's if missing. The user's document is Pending. |
| Conversation.SubmissionRecord | bot.py:205-225 | After the upsert there is exactly one document for the user. It is Pending and holds the draft fields and the registration time. Fields the submission does not write, such as an earlier renewal date, are kept. Every other document is unchanged. |
| Conversation.ResubmissionOverwrites | bot.py:220-225 | A second submission replaces the first instead of adding a document. |
| Conversation.WideSponsorIdNotSaved | bot.py:220-225 | A sponsor id outside the 8-byte range is never saved, whatever the store does: the upsert raises and the handler takes its error path. |
| Conversation.AllFilledSet | bot.py:450-462 | Moving one user, or ending their conversation, keeps every active draft filled. |
| Conversation.RegistrationBot.constructor | bot.py:450-462 | No conversations and no drafts. |
| Conversation.RegistrationBot.Start | bot.py:131-150 | END for a member with an Approved document and LANGUAGE_SELECTION otherwise. It writes nothing. |
| Conversation.RegistrationBot.LanguageCallback | bot.py:152-159 | Stores the chosen language. Returns NAME_INPUT for fr/en and raises otherwise. |
| Conversation.RegistrationBot.HandleName | bot.py:161-165 | Stores the stripped name and returns NUMBER_INPUT. |
| Conversation.RegistrationBot.HandleNumber | bot.py:167-171 | Stores the stripped phone and returns EMAIL_INPUT. |
| Conversation.RegistrationBot.HandleEmail | bot.py:173-177 | Stores the stripped, lower-cased email and returns GODFATHER_INPUT. |
| Conversation.RegistrationBot.HandleGodfather | bot.py:179-190 | Stores the resolved sponsor id, or null, and returns PAYMENT_METHOD. |
| Conversation.RegistrationBot.PaymentCallback | bot.py:192-200 | Stores the chosen method. Returns TRANSACTION_ID for mtn/orange and raises otherwise. |
| Conversation.RegistrationBot.HandleTransactionId | bot.py:202-253 | Stores the stripped id, then upserts the submission when the store accepts the write and every integer fits in 8 bytes. Reports saved, saved but unconfirmed, or not saved. Always returns END. |
| Conversation.RegistrationBot.Cancel | bot.py:292-295 | Returns END and keeps the draft when the draft's language, English if unset, has texts. Raises otherwise. |
| Conversation.RegistrationBot.RunButtonHandler | bot.py:152-159 | Runs the language or payment handler: raises or advances, and writes the chosen value. |
| Conversation.RegistrationBot.RunTextHandler | bot.py:161-177 | Runs the name, phone or email handler: advances and writes the text. |
| Conversation.RegistrationBot.RunHandler | bot.py:450-462 | Runs a phase's handler: raises or advances as the step function says, writes only its own field, and writes to the store only on a submission. |
| Conversation.RegistrationBot.Enter | bot.py:451 | From END, only `/start` of a user who is not Approved enters LANGUAGE_SELECTION. |
| Conversation.RegistrationBot.Handle | bot.py:452-460 | A handler's result sets the state: unchanged when it raises, END after the submission, and the next phase otherwise. Active drafts stay filled. |
| Conversation.RegistrationBot.InPhase | bot.py:452-462 | In a phase, the handler for the update runs, or the `/cancel` fallback ends the conversation when the draft has texts, or nothing changes. Only a submission writes to the store. |
| Conversation.RegistrationBot.Update | bot.py:450-462 | The user's state moves as `Step` says, with `/cancel` staying put when the draft's language has no texts. Only the current phase's draft field changes. Only a saved submission writes to the store. Other users are untouched. |
| Admin.ParseCallback | bot.py:258 | `split('_', 1)` of the button data: the decision, and the rest after the prefix. |
| Admin.ParseCallbackOfButton | bot.py:244-245 | The data of the Approve and Reject buttons parses back to that decision and that user id. |
| Admin.CallbackTarget | bot.py:258-259 | The id read from the data of an Approve or Reject button is the user id the button was made for. |
| Admin.ApprovalFields | bot.py:267-272 | Sets exactly the status Approved, the start date and the renewal date. |
| Admin.RejectionFields | bot.py:283 | Sets only the status, to Rejected. |
| Admin.Decide | bot.py:266-290 | An approval first computes the renewal date; past year 9999 nothing is written. A failed write writes nothing. Otherwise the decision is written to the member's document and the notification result is reported. |
| Admin.AdminCallback | bot.py:255-290 | A bad id, an unknown member or a failed write leaves the store unchanged. Otherwise the decision is written whatever the current status is and whether or not the notification succeeds. The natural order is kept. |
| Admin.ApprovalRecord | bot.py:266-273 | After approval the member is Approved. It renews at midnight on day 25 of the next month, and it started at the given UTC time. It keeps its other fields. No document is added and the others are unchanged. |
| Admin.LastDecisionWins | bot.py:266-283 | The later decision sets the status; nothing guards a decided document. |
| Admin.CountKeptBy | bot.py:273-283 | A write that keeps matching documents matching never lowers a count. |
| Admin.CountNotRaisedBy | bot.py:273-283 | A write that keeps unmatched documents unmatched never raises a count. |
| Admin.DecisionMovesCounts | bot.py:273-283 | An approval never lowers a referral count, and a rejection never raises one. |
| Admin.DecisionKeepsStats | bot.py:314 | A decision leaves the counts that ignore the status unchanged. |
| Referral.Period | bot.py:355-360 | The billing period contains now. It starts on day 25 at 00:00 and ends at 23:59:59.999999 on now's date. |
| Referral.StatsCount | bot.py:312-315 | The `stats` count of any status is at least the Approved count and at most the number of documents. |
| Referral.ReferralEarnings | bot.py:353-371 | Gives both counts and earnings of count × 2000. Period count ≤ all-time Approved count ≤ `stats` count of any status. |
| Referral.TotalIsRewardPerReferral | bot.py:405-409 | The total payout is the total number of referrals × 2000. |
| Referral.CountsOfSnoc | bot.py:389-396 | One more document raises its sponsor's count by one exactly when that document counts. |
| Referral.FirstCountedCount | bot.py:387-396 | A sponsor has a first counted document exactly when its count is positive. |
| Referral.FirstCountedSnoc | bot.py:387-396 | One more document leaves a sponsor's first counted document where it was, and becomes it for a sponsor counted for the first time. |
| Referral.FirstMetSnoc | bot.py:393-396 | `setdefault` keeps the order of first meeting, and a sponsor met for the first time goes last. |
| Referral.CountReferrals | bot.py:387-396 | Each truthy sponsor maps to its Approved referrals registered in the period, present exactly when there is at least one. The sponsors are listed once each, in the order in which their first counted document comes. |
| Referral.ReportEntries | bot.py:398-414 | One entry per sponsor, with count ≥ 1, amount count × 2000, and a message exactly for a sponsor that is a member. The total is the sum of the amounts. |
| Referral.BuildReport | bot.py:387-414 | Each sponsor with a referral in the range is listed exactly once, in the order of its first counted document, with the right count and amount. The total is the sum of the amounts. |
| Referral.MonthlyReport | bot.py:380-423 | The report over the billing period of now, with the properties of Referral.BuildReport. None exactly when the period start cannot be computed. |
| Referral.ScheduledPeriodIsOneDay | bot.py:432-440 | On day 25, when the scheduler runs the report, the period is that single day from its midnight. |
| Referral.ScheduledReportMissesTheMonth | bot.py:380-396 | A referral registered the day before the 00:05 run on 25 July 2025 is not counted, but the closed period counts it. |
| Referral.ClosedPeriod | bot.py:381-386 | The period just closed: from the 25th at midnight one month before the current start up to the last microsecond before that start. |
| Referral.ScheduledReport | bot.py:380-423 | The report over the closed period, with the properties of Referral.BuildReport. |

## Left out

- Telegram transport is left out: replies, keyboards, message edits,
  `query.answer()` and async scheduling. The submission's and the decision's
  notifications are summarized by one success flag each, which never affects
  the store.
- The non-submission handlers assume their Telegram calls succeed. In the
  code, `language_callback` and `payment_callback` first call
  `query.answer()`, which raises before the draft write when it fails. Every
  handler then sends a reply after its draft write, which raises after the
  write when it fails. Either way the user stays in the same state.
- Conversation.RegistrationBot.HandleTransactionId always returns END. In the
  code, when the database error reply also fails to send, the handler raises
  and the state stays TRANSACTION_ID.
- The literal message texts are left out: `get_messages`, `PAYMENT_DETAILS`,
  `strftime` formatting, the admin message, the report lines and the referral
  link. Only which languages and payment methods have texts is kept, because
  a missing text raises.
- For an Approved member, `start` reads the renewal date and language to
  format its reply. A failure there is not modelled; the state is END because
  the user is Approved.
- The MongoDB connection, index creation and `exit(1)` are left out. The
  unique `user_id` index appears as the store invariant.
- The scheduler, application bootstrap, logging and config loading are left
  out. `RENEWAL_DAY = 25` and `REFERRAL_REWARD = 2000` are constants.
- The other commands (`renewal_info`, `referral_info`, `my_info`, `about_us`,
  `contact_us`) are outside this model. So is `referral_info`'s link.
- The clocks are parameters. The code stores `registration_date` and
  `subscription_start_date` from `utcnow()`, but compares them with a period
  computed from the local `now()`. The model has no time zones, so it treats
  both as one timeline.
- Conversations are keyed by user. The handler keys them by (chat, user),
  and the two agree in a private chat.
- Updates are taken one at a time; concurrency between them is not modelled.
- Text.ParseInt does not accept the underscores between digits or the
  non-ASCII decimal digits that Python's `int()` accepts.
- Text.Lower maps only ASCII capitals and KELVIN SIGN. Other non-ASCII
  capitals are left as they are, where Python lower-cases them. Only
  ASCII-level facts about the email are stated, and these are the ones the
  `skip` check relies on.
- Referral.CountReferrals treats a `registration_date` that is not a datetime
  as outside the period. In Python, comparing it with the period start would
  raise `TypeError`.
- Calendar.PeriodStart returns None before 0001-01-25, where Python's
  `relativedelta` raises, and the referral counts then have no period.
- A Python `int` of any size can be stored in the draft, but the store saves
  only 8-byte integers. The submission accounts for this. The other writes
  hold no integer that could be that large.

## Findings

| source | as written | input that shows it | evidently intended | confidence | as-written member | corrected member |
|---|---|---|---|---|---|---|
| bot.py:432-440 | The report is scheduled for day 25 at 00:05, and its period starts at that day's midnight, so it counts only registrations made on the 25th itself. | A referral approved and registered on 24 July 2025 at 12:00, with the report run on 25 July 2025 at 00:05. | The report pays out the period that has just closed, from the previous 25th up to this 25th. | medium, not executed | Referral.ScheduledReportMissesTheMonth | Referral.ScheduledReport |
