/**
 * The conversation handlers of the bot over the per-user draft
 * (`context.user_data`) and the member store, and the ConversationHandler
 * that dispatches updates to them.
 */
module Conversation {
  import opened Wrappers
  import opened Calendar
  import opened Text
  import opened Store
  import opened Sponsor
  import opened Registration

  /** `context.user_data`: field name to value. It is kept when a conversation ends. */
  type Draft = map<string, Value>

  /** The draft field that the handler of a phase writes. */
  function FieldOf(p: Phase): string {
    match p
    case LanguageSelection => "language"
    case NameInput => "name"
    case NumberInput => "phone"
    case EmailInput => "email"
    case GodfatherInput => "godfather"
    case PaymentMethod => "payment_method"
    case TransactionId => "transaction_id"
  }

  /** The handlers write distinct fields. */
  lemma FieldsDistinct(p: Phase, q: Phase)
    ensures FieldOf(p) == FieldOf(q) <==> p == q
  {
  }

  /**
   * The value the handler of `p` writes for `ev`: the chosen language or payment
   * method, the stripped text (lower-cased for the email), or the resolved sponsor.
   */
  function StoredValue(p: Phase, ev: Event, docs: map<int, Record>, order: seq<int>): Value
    requires Handles(p, ev) && WellFormed(docs, order)
  {
    match p
    case LanguageSelection => Str(Choice(ev.data, LANG_PREFIX))
    case NameInput => Str(Strip(ev.text))
    case NumberInput => Str(Strip(ev.text))
    case EmailInput => Str(Lower(Strip(ev.text)))
    case GodfatherInput => SponsorValue(ResolveSponsor(docs, order, ev.text))
    case PaymentMethod => Str(Choice(ev.data, PAYMENT_PREFIX))
    case TransactionId => Str(Strip(ev.text))
  }

  /** Lower-casing keeps a string free of surrounding whitespace. */
  lemma LowerTrimmed(s: string)
    requires Trimmed(s)
    ensures Trimmed(Lower(s))
  {
    if s != [] {
      var r := Lower(s);
      assert r[0] == LowerChar(s[0]) && r[|r| - 1] == LowerChar(s[|s| - 1]);
    }
  }

  /**
   * Free text is stored without surrounding whitespace, and the email with no
   * upper-case ASCII letter either.
   */
  lemma StoredTextIsStripped(p: Phase, ev: Event, docs: map<int, Record>, order: seq<int>)
    requires Handles(p, ev) && WellFormed(docs, order)
    requires p in {NameInput, NumberInput, EmailInput, TransactionId}
    ensures StoredValue(p, ev, docs, order).Str?
    ensures Trimmed(StoredValue(p, ev, docs, order).s)
    ensures p == EmailInput ==> forall k :: 0 <= k < |StoredValue(p, ev, docs, order).s| ==>
              !IsUpperAscii(StoredValue(p, ev, docs, order).s[k])
  {
    if p == EmailInput {
      LowerTrimmed(Strip(ev.text));
    }
  }

  /** The fields the handlers before phase `p` have written, which the handlers from `p` on read. */
  predicate FilledBefore(p: Phase, d: Draft) {
    && (Rank(p) > 0 ==> "language" in d && d["language"].Str? && KnownLanguage(d["language"].s))
    && (Rank(p) > 1 ==> "name" in d)
    && (Rank(p) > 2 ==> "phone" in d)
    && (Rank(p) > 3 ==> "email" in d)
    && (Rank(p) > 4 ==> "godfather" in d)
    && (Rank(p) > 5 ==> "payment_method" in d)
  }

  /** Running a phase's handler to completion fills what the next phase needs. */
  lemma AdvanceFills(p: Phase, ev: Event, docs: map<int, Record>, order: seq<int>, d: Draft)
    requires Advances(p, ev) && WellFormed(docs, order) && FilledBefore(p, d)
    ensures Successor(p).At? ==> FilledBefore(Successor(p).phase, d[FieldOf(p) := StoredValue(p, ev, docs, order)])
  {
  }

  /** A handler that raises leaves the draft good for the phase it stays in. */
  lemma RaiseKeepsFilled(p: Phase, ev: Event, docs: map<int, Record>, order: seq<int>, d: Draft)
    requires Handles(p, ev) && WellFormed(docs, order) && FilledBefore(p, d)
    ensures FilledBefore(p, d[FieldOf(p) := StoredValue(p, ev, docs, order)])
  {
  }

  function UsernameValue(username: Option<string>): Value {
    match username
    case None => Null
    case Some(name) => Str(name)
  }

  /** The draft that the submission reads. */
  predicate Submittable(d: Draft) {
    FilledBefore(TransactionId, d) && "transaction_id" in d
  }

  /** The fields that `handle_transaction_id` writes with `$set`: the draft, the user's identity, Pending, and the time of submission. */
  function SubmissionFields(user: int, username: Option<string>, d: Draft, registeredAt: DateTime): (r: Record)
    requires Submittable(d)
    ensures KeepsUserId(r, user)
  {
    map[
      "user_id" := Int(user),
      "telegram_id" := Int(user),
      "telegram_username" := UsernameValue(username),
      "name" := d["name"],
      "phone" := d["phone"],
      "email" := d["email"],
      "godfather" := d["godfather"],
      "payment_method" := d["payment_method"],
      "transaction_id" := d["transaction_id"],
      "language" := d["language"],
      "status" := Str("Pending"),
      "registration_date" := Time(registeredAt)
    ]
  }

  /** The draft fields a submission copies into the member's document. */
  const DRAFT_FIELDS: seq<string> := ["language", "name", "phone", "email", "godfather", "payment_method", "transaction_id"]

  /** The submission's fields: its identity, Pending, the registration time, and the draft's fields unchanged. */
  lemma SubmissionFieldsCarry(user: int, username: Option<string>, d: Draft, registeredAt: DateTime)
    requires Submittable(d)
    ensures var fields := SubmissionFields(user, username, d, registeredAt);
      && fields["user_id"] == Int(user)
      && fields["status"] == Str("Pending")
      && fields["registration_date"] == Time(registeredAt)
      && fields["telegram_username"] == UsernameValue(username)
      && forall f :: f in DRAFT_FIELDS ==> f in fields && fields[f] == d[f]
  {
    var fields := SubmissionFields(user, username, d, registeredAt);
    assert fields["language"] == d["language"];
    assert fields["name"] == d["name"];
    assert fields["phone"] == d["phone"];
    assert fields["email"] == d["email"];
    assert fields["godfather"] == d["godfather"];
    assert fields["payment_method"] == d["payment_method"];
    assert fields["transaction_id"] == d["transaction_id"];
  }

  /** The collection after the submission upsert `update_one({"user_id": user}, {"$set": fields}, upsert=True)`. */
  function Submit(docs: map<int, Record>, user: int, username: Option<string>, d: Draft, registeredAt: DateTime): (r: map<int, Record>)
    requires Submittable(d)
    ensures r.Keys == docs.Keys + {user}
    ensures "status" in r[user] && r[user]["status"] == Str("Pending")
  {
    assert "status" in SubmissionFields(user, username, d, registeredAt);
    Updated(docs, user, SubmissionFields(user, username, d, registeredAt), true)
  }

  /**
   * After the submission upsert there is exactly one document for the user,
   * Pending, holding the draft's fields and the registration time; fields the
   * submission does not write (an earlier renewal date, say) are kept, and
   * every other document is unchanged.
   */
  lemma SubmissionRecord(docs: map<int, Record>, user: int, username: Option<string>, d: Draft, registeredAt: DateTime)
    requires Submittable(d)
    ensures var fields := SubmissionFields(user, username, d, registeredAt);
      var after := Submit(docs, user, username, d, registeredAt);
      && after.Keys == docs.Keys + {user}
      && after[user]["user_id"] == Int(user)
      && after[user]["status"] == Str("Pending")
      && after[user]["registration_date"] == Time(registeredAt)
      && after[user]["telegram_username"] == UsernameValue(username)
      && (forall f :: f in DRAFT_FIELDS ==> f in after[user] && after[user][f] == d[f])
      && (user in docs ==> forall f :: f in docs[user] && f !in fields ==> after[user][f] == docs[user][f])
      && (forall other :: other in docs && other != user ==> after[other] == docs[other])
  {
    SubmissionFieldsCarry(user, username, d, registeredAt);
  }

  /** Submitting again, with any draft, replaces the earlier submission instead of adding a document. */
  lemma ResubmissionOverwrites(docs: map<int, Record>, user: int, username: Option<string>, d1: Draft, d2: Draft, at1: DateTime, at2: DateTime)
    requires Submittable(d1) && Submittable(d2)
    ensures var first := SubmissionFields(user, username, d1, at1);
      var second := SubmissionFields(user, username, d2, at2);
      Submit(Submit(docs, user, username, d1, at1), user, username, d2, at2) == Submit(docs, user, username, d2, at2)
  {
    UpdatedOverwrites(docs, user, SubmissionFields(user, username, d1, at1), SubmissionFields(user, username, d2, at2), true);
  }

  /**
   * The submission is saved: the store accepts the write, and every integer of
   * the document fits in 8 bytes (a sponsor id typed as a longer integer makes
   * `update_one` raise).
   */
  predicate Saves(user: int, username: Option<string>, d: Draft, registeredAt: DateTime, writeOk: bool)
    requires Submittable(d)
  {
    writeOk && Encodable(SubmissionFields(user, username, d, registeredAt))
  }

  /** A sponsor id beyond the 8-byte range is never saved, whatever the store does. */
  lemma WideSponsorIdNotSaved(user: int, username: Option<string>, d: Draft, registeredAt: DateTime, writeOk: bool)
    requires Submittable(d) && d["godfather"].Int? && !(INT64_MIN <= d["godfather"].i <= INT64_MAX)
    ensures !Saves(user, username, d, registeredAt, writeOk)
  {
    SubmissionFieldsCarry(user, username, d, registeredAt);
    assert "godfather" in DRAFT_FIELDS;
  }

  /** Past the language choice the draft's language has texts, so `cancel` can reply. */
  lemma FilledHasTexts(p: Phase, d: Draft)
    requires FilledBefore(p, d) && p != LanguageSelection
    ensures HasTexts(d)
  {
  }

  /** A language button without texts leaves a draft language in which `cancel` cannot reply either. */
  lemma UnknownLanguageBlocksCancel(d: Draft, data: string)
    requires StartsWith(data, LANG_PREFIX) && !KnownLanguage(Choice(data, LANG_PREFIX))
    ensures !HasTexts(d["language" := Str(Choice(data, LANG_PREFIX))])
  {
  }

  /** The member has a document whose status is Approved. */
  predicate ApprovedMember(docs: map<int, Record>, user: int) {
    user in docs && IsApproved(docs[user])
  }

  /** What a handler does: returns the next state, or raises and leaves the state as it was. */
  datatype HandlerResult = Returned(next: Conv) | Raised

  /**
   * The end of a submission: saved and both notifications sent; saved, but a
   * notification failed and the member is shown the database error text; or
   * not saved.
   */
  datatype Submission = Submitted | SavedUnconfirmed | WriteFailed

  /** The result of a submission for a store write that succeeds or not and notifications that succeed or not. */
  function SubmissionOutcome(writeOk: bool, notifyOk: bool): Submission {
    if !writeOk then WriteFailed else if notifyOk then Submitted else SavedUnconfirmed
  }

  /** The update that submits: a text message while waiting for the transaction id. */
  predicate Submits(c: Conv, ev: Event) {
    c == At(TransactionId) && Handles(TransactionId, ev)
  }

  /** The draft of `user` in `context.user_data`, empty before the first write. */
  function DraftIn(data: map<int, Draft>, user: int): Draft {
    if user in data then data[user] else map[]
  }

  /** Every active conversation has the draft fields its phase reads. */
  predicate AllFilled(conversations: map<int, Phase>, data: map<int, Draft>) {
    forall u :: u in conversations ==> FilledBefore(conversations[u], DraftIn(data, u))
  }

  /** Setting one user's state (or ending it) and draft keeps every conversation filled. */
  lemma AllFilledSet(conversations: map<int, Phase>, data: map<int, Draft>, user: int, next: Option<Phase>, draft: Draft)
    requires AllFilled(conversations, data)
    requires next.Some? ==> FilledBefore(next.value, draft)
    ensures AllFilled(if next.Some? then conversations[user := next.value] else conversations - {user}, data[user := draft])
  {
  }

  /** The bot's registration side: the ConversationHandler's per-user states, `context.user_data`, and the store. */
  class RegistrationBot {
    const store: MemberStore
    /** The phase each user's conversation waits in; a user without an entry is at END. */
    var conversations: map<int, Phase>
    var userData: map<int, Draft>

    function ConvOf(user: int): Conv
      reads this
    {
      if user in conversations then At(conversations[user]) else End
    }

    function DraftOf(user: int): Draft
      reads this
    {
      DraftIn(userData, user)
    }

    ghost predicate Valid()
      reads this, store
    {
      store.Valid() && AllFilled(conversations, userData)
    }

    constructor (store: MemberStore)
      requires store.Valid()
      ensures Valid() && this.store == store && conversations == map[] && userData == map[]
    {
      this.store := store;
      conversations := map[];
      userData := map[];
    }

    /** `start`: END at once for a member whose document is Approved, otherwise the language choice. */
    method Start(user: int) returns (next: Conv)
      requires store.Valid()
      ensures next == if ApprovedMember(store.docs, user) then End else At(LanguageSelection)
    {
      var existing := if user in store.docs then Some(store.docs[user]) else None;
      if existing.Some? && IsApproved(existing.value) {
        return End;
      }
      return At(LanguageSelection);
    }

    /** `language_callback`: stores the chosen language; raises for one without texts. */
    method LanguageCallback(user: int, data: string) returns (r: HandlerResult)
      requires StartsWith(data, LANG_PREFIX)
      modifies this`userData
      ensures userData == old(userData)[user := old(DraftOf(user))["language" := Str(Choice(data, LANG_PREFIX))]]
      ensures r == if KnownLanguage(Choice(data, LANG_PREFIX)) then Returned(At(NameInput)) else Raised
    {
      var lang := Choice(data, LANG_PREFIX);
      userData := userData[user := DraftOf(user)["language" := Str(lang)]];
      if !KnownLanguage(lang) {
        return Raised;
      }
      return Returned(At(NameInput));
    }

    /** `handle_name`: stores the stripped name. */
    method HandleName(user: int, text: string) returns (r: HandlerResult)
      requires FilledBefore(NameInput, DraftOf(user))
      modifies this`userData
      ensures userData == old(userData)[user := old(DraftOf(user))["name" := Str(Strip(text))]]
      ensures r == Returned(At(NumberInput))
    {
      userData := userData[user := DraftOf(user)["name" := Str(Strip(text))]];
      return Returned(At(NumberInput));
    }

    /** `handle_number`: stores the stripped phone number. */
    method HandleNumber(user: int, text: string) returns (r: HandlerResult)
      requires FilledBefore(NumberInput, DraftOf(user))
      modifies this`userData
      ensures userData == old(userData)[user := old(DraftOf(user))["phone" := Str(Strip(text))]]
      ensures r == Returned(At(EmailInput))
    {
      userData := userData[user := DraftOf(user)["phone" := Str(Strip(text))]];
      return Returned(At(EmailInput));
    }

    /** `handle_email`: stores the stripped, lower-cased email. */
    method HandleEmail(user: int, text: string) returns (r: HandlerResult)
      requires FilledBefore(EmailInput, DraftOf(user))
      modifies this`userData
      ensures userData == old(userData)[user := old(DraftOf(user))["email" := Str(Lower(Strip(text)))]]
      ensures r == Returned(At(GodfatherInput))
    {
      userData := userData[user := DraftOf(user)["email" := Str(Lower(Strip(text)))]];
      return Returned(At(GodfatherInput));
    }

    /** `handle_godfather`: stores the resolved sponsor id, or null. */
    method HandleGodfather(user: int, text: string) returns (r: HandlerResult)
      requires store.Valid() && FilledBefore(GodfatherInput, DraftOf(user))
      modifies this`userData
      ensures userData == old(userData)[user := old(DraftOf(user))["godfather" := SponsorValue(ResolveSponsor(store.docs, store.order, text))]]
      ensures r == Returned(At(PaymentMethod))
    {
      var godfatherId := ResolveSponsor(store.docs, store.order, text);
      userData := userData[user := DraftOf(user)["godfather" := SponsorValue(godfatherId)]];
      return Returned(At(PaymentMethod));
    }

    /** `payment_callback`: stores the chosen payment method; raises for one without instructions. */
    method PaymentCallback(user: int, data: string) returns (r: HandlerResult)
      requires StartsWith(data, PAYMENT_PREFIX) && FilledBefore(PaymentMethod, DraftOf(user))
      modifies this`userData
      ensures userData == old(userData)[user := old(DraftOf(user))["payment_method" := Str(Choice(data, PAYMENT_PREFIX))]]
      ensures r == if KnownPaymentMethod(Choice(data, PAYMENT_PREFIX)) then Returned(At(TransactionId)) else Raised
    {
      var paymentMethod := Choice(data, PAYMENT_PREFIX);
      userData := userData[user := DraftOf(user)["payment_method" := Str(paymentMethod)]];
      if !KnownPaymentMethod(paymentMethod) {
        return Raised;
      }
      return Returned(At(TransactionId));
    }

    /**
     * `handle_transaction_id`: stores the stripped transaction id, then upserts
     * the Pending document. `writeOk` is whether the store accepts the write
     * (an 8-byte overflow fails it regardless) and `notifyOk` whether the
     * member's reply and the admin's message are sent; the conversation ends
     * either way.
     */
    method HandleTransactionId(user: int, username: Option<string>, text: string, registeredAt: DateTime, writeOk: bool, notifyOk: bool)
      returns (r: HandlerResult, submission: Submission)
      requires store.Valid() && FilledBefore(TransactionId, DraftOf(user))
      modifies this`userData, store
      ensures userData == old(userData)[user := old(DraftOf(user))["transaction_id" := Str(Strip(text))]]
      ensures store.Valid()
      ensures Submittable(DraftOf(user))
      ensures store.docs == if Saves(user, username, DraftOf(user), registeredAt, writeOk) then Submit(old(store.docs), user, username, DraftOf(user), registeredAt)
                            else old(store.docs)
      ensures store.order == if Saves(user, username, DraftOf(user), registeredAt, writeOk) then UpdatedOrder(old(store.docs), old(store.order), user, true)
                             else old(store.order)
      ensures submission == SubmissionOutcome(Saves(user, username, DraftOf(user), registeredAt, writeOk), notifyOk)
      ensures r == Returned(End)
    {
      var draft := DraftOf(user)["transaction_id" := Str(Strip(text))];
      userData := userData[user := draft];
      var fields := SubmissionFields(user, username, draft, registeredAt);
      if !writeOk || !Encodable(fields) {
        return Returned(End), WriteFailed;
      }
      store.UpdateOne(user, fields, true);
      submission := if notifyOk then Submitted else SavedUnconfirmed;
      r := Returned(End);
    }

    /** `cancel`: ends the conversation, keeping the draft; raises when the draft's language has no texts. */
    method Cancel(user: int) returns (r: HandlerResult)
      ensures r == if HasTexts(DraftOf(user)) then Returned(End) else Raised
    {
      var draft := DraftOf(user);
      var lang := if "language" in draft then draft["language"] else Str("en");
      if !(lang.Str? && KnownLanguage(lang.s)) {
        return Raised;
      }
      return Returned(End);
    }

    /** Runs the handler of a button phase on an update it accepts. */
    method RunButtonHandler(user: int, p: Phase, ev: Event) returns (r: HandlerResult)
      requires Handles(p, ev) && FilledBefore(p, DraftOf(user)) && p in {LanguageSelection, PaymentMethod}
      modifies this`userData
      ensures r == if Raises(p, ev) then Raised else Returned(Successor(p))
      ensures userData == old(userData)[user := old(DraftOf(user))[FieldOf(p) := Str(Choice(ev.data, if p == LanguageSelection then LANG_PREFIX else PAYMENT_PREFIX))]]
    {
      if p == LanguageSelection {
        r := LanguageCallback(user, ev.data);
      } else {
        r := PaymentCallback(user, ev.data);
      }
    }

    /** Runs the handler of a phase that stores the message text on an update it accepts. */
    method RunTextHandler(user: int, p: Phase, ev: Event) returns (r: HandlerResult)
      requires Handles(p, ev) && FilledBefore(p, DraftOf(user))
      requires p in {NameInput, NumberInput, EmailInput}
      modifies this`userData
      ensures r == Returned(Successor(p))
      ensures userData == old(userData)[user := old(DraftOf(user))[FieldOf(p) := Str(if p == EmailInput then Lower(Strip(ev.text)) else Strip(ev.text))]]
    {
      if p == NameInput {
        r := HandleName(user, ev.text);
      } else if p == NumberInput {
        r := HandleNumber(user, ev.text);
      } else {
        r := HandleEmail(user, ev.text);
      }
    }

    /** Runs the handler of phase `p` on an update it accepts. */
    method RunHandler(user: int, username: Option<string>, p: Phase, ev: Event, registeredAt: DateTime, writeOk: bool, notifyOk: bool)
      returns (r: HandlerResult, submission: Option<Submission>)
      requires store.Valid() && Handles(p, ev) && FilledBefore(p, DraftOf(user))
      modifies this`userData, store
      ensures store.Valid()
      ensures r == if Raises(p, ev) then Raised else Returned(Successor(p))
      ensures userData == old(userData)[user := old(DraftOf(user))[FieldOf(p) := StoredValue(p, ev, old(store.docs), old(store.order))]]
      ensures submission.Some? <==> p == TransactionId
      ensures p == TransactionId ==> Submittable(DraftOf(user))
      ensures submission.Some? ==> submission.value == SubmissionOutcome(Saves(user, username, DraftOf(user), registeredAt, writeOk), notifyOk)
      ensures store.docs == if p == TransactionId && Saves(user, username, DraftOf(user), registeredAt, writeOk) then Submit(old(store.docs), user, username, DraftOf(user), registeredAt)
                            else old(store.docs)
      ensures store.order == if p == TransactionId && Saves(user, username, DraftOf(user), registeredAt, writeOk) then UpdatedOrder(old(store.docs), old(store.order), user, true)
                             else old(store.order)
    {
      if p == TransactionId {
        var outcome;
        r, outcome := HandleTransactionId(user, username, ev.text, registeredAt, writeOk, notifyOk);
        submission := Some(outcome);
      } else {
        if p == LanguageSelection || p == PaymentMethod {
          r := RunButtonHandler(user, p, ev);
        } else if p == GodfatherInput {
          r := HandleGodfather(user, ev.text);
        } else {
          r := RunTextHandler(user, p, ev);
        }
        submission := None;
      }
    }

    /** An update from a user at END: only /start enters, and not for an Approved member. */
    method Enter(user: int, ev: Event)
      requires Valid() && user !in conversations
      modifies this`conversations
      ensures Valid()
      ensures conversations == if Step(End, ev, ApprovedMember(store.docs, user), HasTexts(DraftOf(user))) == End then old(conversations)
                               else old(conversations)[user := LanguageSelection]
    {
      if ev == Command(START) {
        var next := Start(user);
        if next.At? {
          conversations := conversations[user := next.phase];
        }
      }
    }

    /** The user's conversation waits in `p` and its handler accepts `ev`: it runs, and its result sets the new state. */
    method Handle(user: int, username: Option<string>, p: Phase, ev: Event, registeredAt: DateTime, writeOk: bool, notifyOk: bool)
      returns (submission: Option<Submission>)
      requires Valid() && user in conversations && conversations[user] == p && Handles(p, ev)
      modifies this, store
      ensures Valid()
      ensures conversations ==
        if Raises(p, ev) then old(conversations)
        else if Successor(p) == End then old(conversations) - {user}
        else old(conversations)[user := Successor(p).phase]
      ensures userData == old(userData)[user := old(DraftOf(user))[FieldOf(p) := StoredValue(p, ev, old(store.docs), old(store.order))]]
      ensures submission.Some? <==> p == TransactionId
      ensures p == TransactionId ==> Submittable(DraftOf(user))
      ensures submission.Some? ==> submission.value == SubmissionOutcome(Saves(user, username, DraftOf(user), registeredAt, writeOk), notifyOk)
      ensures store.docs == if p == TransactionId && Saves(user, username, DraftOf(user), registeredAt, writeOk) then Submit(old(store.docs), user, username, DraftOf(user), registeredAt)
                            else old(store.docs)
      ensures store.order == if p == TransactionId && Saves(user, username, DraftOf(user), registeredAt, writeOk) then UpdatedOrder(old(store.docs), old(store.order), user, true)
                             else old(store.order)
    {
      ghost var before := DraftOf(user);
      ghost var docs, order := store.docs, store.order;
      ghost var data := userData;
      var r;
      r, submission := RunHandler(user, username, p, ev, registeredAt, writeOk, notifyOk);
      ghost var draft := before[FieldOf(p) := StoredValue(p, ev, docs, order)];
      if r.Raised? {
        RaiseKeepsFilled(p, ev, docs, order, before);
        AllFilledSet(conversations, data, user, Some(p), draft);
        assert conversations[user := p] == conversations;
      } else if r.next == End {
        AllFilledSet(conversations, data, user, None, draft);
        conversations := conversations - {user};
      } else {
        AdvanceFills(p, ev, docs, order, before);
        AllFilledSet(conversations, data, user, Some(r.next.phase), draft);
        conversations := conversations[user := r.next.phase];
      }
    }

    /**
     * The ConversationHandler receiving update `ev` from `user`: the user's
     * state moves as `Step` says, with `approved` read from the store; the
     * handler that runs writes only its own draft field; only the submission
     * writes to the store; other users are untouched.
     */
    method Update(user: int, username: Option<string>, ev: Event, registeredAt: DateTime, writeOk: bool, notifyOk: bool)
      returns (submission: Option<Submission>)
      requires Valid()
      modifies this, store
      ensures Valid()
      ensures ConvOf(user) == Step(old(ConvOf(user)), ev, old(ApprovedMember(store.docs, user)), old(HasTexts(DraftOf(user))))
      ensures forall u :: u != user ==> ConvOf(u) == old(ConvOf(u)) && DraftOf(u) == old(DraftOf(u))
      ensures DraftOf(user) ==
        if old(ConvOf(user)).At? && Handles(old(ConvOf(user)).phase, ev) then
          old(DraftOf(user))[FieldOf(old(ConvOf(user)).phase) := StoredValue(old(ConvOf(user)).phase, ev, old(store.docs), old(store.order))]
        else old(DraftOf(user))
      ensures submission.Some? <==> Submits(old(ConvOf(user)), ev)
      ensures Submits(old(ConvOf(user)), ev) ==> Submittable(DraftOf(user))
      ensures submission.Some? ==> submission.value == SubmissionOutcome(Saves(user, username, DraftOf(user), registeredAt, writeOk), notifyOk)
      ensures store.docs ==
        if Submits(old(ConvOf(user)), ev) && Saves(user, username, DraftOf(user), registeredAt, writeOk) then Submit(old(store.docs), user, username, DraftOf(user), registeredAt)
        else old(store.docs)
      ensures store.order ==
        if Submits(old(ConvOf(user)), ev) && Saves(user, username, DraftOf(user), registeredAt, writeOk) then UpdatedOrder(old(store.docs), old(store.order), user, true)
        else old(store.order)
    {
      submission := None;
      if user !in conversations {
        Enter(user, ev);
        return;
      }
      submission := InPhase(user, username, conversations[user], ev, registeredAt, writeOk, notifyOk);
    }

    /** An update from a user whose conversation waits in `p`: its handler, the `/cancel` fallback, or nothing. */
    method InPhase(user: int, username: Option<string>, p: Phase, ev: Event, registeredAt: DateTime, writeOk: bool, notifyOk: bool)
      returns (submission: Option<Submission>)
      requires Valid() && user in conversations && conversations[user] == p
      modifies this, store
      ensures Valid()
      ensures conversations ==
        match Step(At(p), ev, old(ApprovedMember(store.docs, user)), old(HasTexts(DraftOf(user))))
        case End => old(conversations) - {user}
        case At(q) => old(conversations)[user := q]
      ensures userData ==
        if Handles(p, ev) then old(userData)[user := old(DraftOf(user))[FieldOf(p) := StoredValue(p, ev, old(store.docs), old(store.order))]]
        else old(userData)
      ensures submission.Some? <==> Submits(At(p), ev)
      ensures Submits(At(p), ev) ==> Submittable(DraftOf(user))
      ensures submission.Some? ==> submission.value == SubmissionOutcome(Saves(user, username, DraftOf(user), registeredAt, writeOk), notifyOk)
      ensures store.docs ==
        if Submits(At(p), ev) && Saves(user, username, DraftOf(user), registeredAt, writeOk) then Submit(old(store.docs), user, username, DraftOf(user), registeredAt)
        else old(store.docs)
      ensures store.order ==
        if Submits(At(p), ev) && Saves(user, username, DraftOf(user), registeredAt, writeOk) then UpdatedOrder(old(store.docs), old(store.order), user, true)
        else old(store.order)
    {
      submission := None;
      if Handles(p, ev) {
        submission := Handle(user, username, p, ev, registeredAt, writeOk, notifyOk);
      } else if ev == Command(CANCEL) {
        var r := Cancel(user);
        if r.Returned? {
          conversations := conversations - {user};
        }
      } else {
        assert conversations[user := p] == conversations;
      }
    }
  }
}
