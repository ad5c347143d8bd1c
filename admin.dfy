/**
 * The administrator's decision on a pending registration: the inline
 * "approve_<id>" / "reject_<id>" buttons and the write each one makes.
 */
module Admin {
  import opened Wrappers
  import opened Calendar
  import opened Text
  import opened Store
  import opened Registration

  const APPROVE_PREFIX: string := "approve_"
  const REJECT_PREFIX: string := "reject_"

  datatype Decision = Approve | Reject

  /** `action, user_id_str = data.split('_', 1)` on data the button pattern accepts. */
  function ParseCallback(data: string): (r: (Decision, string))
    requires StartsWith(data, APPROVE_PREFIX) || StartsWith(data, REJECT_PREFIX)
    ensures data == (if r.0 == Approve then APPROVE_PREFIX else REJECT_PREFIX) + r.1
  {
    if StartsWith(data, APPROVE_PREFIX) then (Approve, data[|APPROVE_PREFIX|..])
    else (Reject, data[|REJECT_PREFIX|..])
  }

  /** `callback_data` of the buttons sent with a new registration, and its parse. */
  lemma ParseCallbackOfButton(decision: Decision, id: int)
    ensures var data := (if decision == Approve then APPROVE_PREFIX else REJECT_PREFIX) + ShowInt(id);
      && (StartsWith(data, APPROVE_PREFIX) || StartsWith(data, REJECT_PREFIX))
      && ParseCallback(data) == (decision, ShowInt(id))
      && IntOfText(ParseCallback(data).1) == Some(id)
  {
    var digits := ShowInt(id);
    var data := (if decision == Approve then APPROVE_PREFIX else REJECT_PREFIX) + digits;
    assert data[..|APPROVE_PREFIX|] == APPROVE_PREFIX ==> decision == Approve by {
      if decision == Reject {
        assert data[0] == 'r';
      }
    }
    if decision == Approve {
      assert data[..|APPROVE_PREFIX|] == APPROVE_PREFIX && data[|APPROVE_PREFIX|..] == digits;
    } else {
      assert data[..|REJECT_PREFIX|] == REJECT_PREFIX && data[|REJECT_PREFIX|..] == digits;
    }
    ParseShowInt(id);
    IntOfStrippedText(digits);
  }

  /** The `$set` of an approval: status Approved, the start time, and the renewal date at midnight. */
  function ApprovalFields(startedAt: DateTime, renewal: Date): (r: Record)
    ensures r.Keys == {"status", "subscription_start_date", "subscription_renewal_date"}
    ensures IsApproved(r)
  {
    map[
      "status" := Str("Approved"),
      "subscription_start_date" := Time(startedAt),
      "subscription_renewal_date" := Time(Midnight(renewal))
    ]
  }

  /** The `$set` of a rejection: the status only. */
  function RejectionFields(): (r: Record)
    ensures r.Keys == {"status"} && !IsApproved(r)
  {
    map["status" := Str("Rejected")]
  }

  /**
   * How a decision ends: the id does not parse (`int()` raises), no such
   * member, the renewal date is past year 9999, the store write raises and
   * nothing is written or edited, or the decision is written and then the
   * member is notified, not notified, or no texts are found for the member's
   * language (`get_messages` raises after the write).
   */
  datatype Notice = Notified | NotNotified | NoTexts
  datatype Outcome = BadId | NotFound | RenewalOverflow | NotWritten | Decided(decision: Decision, id: int, notice: Notice)

  function NoticeFor(rec: Record, notifyOk: bool): Notice {
    if !HasTexts(rec) then NoTexts else if notifyOk then Notified else NotNotified
  }

  /**
   * The decision on an existing member: the renewal date (for an approval),
   * the write, then the notification. `writeOk` is whether the store accepts
   * the write.
   */
  method Decide(store: MemberStore, decision: Decision, id: int, today: Date, utcNow: DateTime, writeOk: bool, notifyOk: bool)
    returns (outcome: Outcome)
    requires store.Valid() && ValidDate(today) && id in store.docs
    modifies store
    ensures store.Valid() && store.order == old(store.order)
    ensures decision == Approve && RenewalDate(today).None? ==>
      outcome == RenewalOverflow && store.docs == old(store.docs)
    ensures (decision == Reject || RenewalDate(today).Some?) && !writeOk ==>
      outcome == NotWritten && store.docs == old(store.docs)
    ensures decision == Reject && writeOk ==>
      outcome == Decided(Reject, id, NoticeFor(old(store.docs)[id], notifyOk))
      && store.docs == Updated(old(store.docs), id, RejectionFields(), false)
    ensures decision == Approve && RenewalDate(today).Some? && writeOk ==>
      outcome == Decided(Approve, id, NoticeFor(old(store.docs)[id], notifyOk))
      && store.docs == Updated(old(store.docs), id, ApprovalFields(utcNow, RenewalDate(today).value), false)
  {
    var record := store.docs[id];
    var fields;
    if decision == Approve {
      var renewal := RenewalDate(today);
      if renewal.None? {
        return RenewalOverflow;
      }
      fields := ApprovalFields(utcNow, renewal.value);
    } else {
      fields := RejectionFields();
    }
    if !writeOk {
      return NotWritten;
    }
    store.UpdateOne(id, fields, false);
    outcome := Decided(decision, id, NoticeFor(record, notifyOk));
  }

  /** The member id that callback data names, if its text parses as an integer. */
  function CallbackTarget(data: string): (r: Option<int>)
    requires StartsWith(data, APPROVE_PREFIX) || StartsWith(data, REJECT_PREFIX)
    ensures forall id :: data == APPROVE_PREFIX + ShowInt(id) || data == REJECT_PREFIX + ShowInt(id) ==> r == Some(id)
  {
    assert forall id :: data == APPROVE_PREFIX + ShowInt(id) || data == REJECT_PREFIX + ShowInt(id) ==> IntOfText(ParseCallback(data).1) == Some(id) by {
      forall id | data == APPROVE_PREFIX + ShowInt(id) || data == REJECT_PREFIX + ShowInt(id)
        ensures IntOfText(ParseCallback(data).1) == Some(id)
      {
        if data == APPROVE_PREFIX + ShowInt(id) {
          ParseCallbackOfButton(Approve, id);
        } else {
          ParseCallbackOfButton(Reject, id);
        }
      }
    }
    IntOfText(ParseCallback(data).1)
  }

  /**
   * `admin_callback`: decides on the member named by `data`. `today` is the
   * local date, `utcNow` the UTC time, `writeOk` whether the store accepts the
   * write, and `notifyOk` whether the member's message and the edit of the
   * admin's message are sent. A missing member, a bad id or a failed write
   * changes nothing; a decision is written whatever the member's current
   * status is, and keeps every field it does not set.
   */
  method AdminCallback(store: MemberStore, data: string, today: Date, utcNow: DateTime, writeOk: bool, notifyOk: bool)
    returns (outcome: Outcome)
    requires store.Valid() && ValidDate(today)
    requires StartsWith(data, APPROVE_PREFIX) || StartsWith(data, REJECT_PREFIX)
    modifies store
    ensures store.Valid() && store.order == old(store.order)
    ensures CallbackTarget(data).None? ==> outcome == BadId && store.docs == old(store.docs)
    ensures CallbackTarget(data).Some? && CallbackTarget(data).value !in old(store.docs) ==>
      outcome == NotFound && store.docs == old(store.docs)
    ensures CallbackTarget(data).Some? && CallbackTarget(data).value in old(store.docs) ==>
      var id := CallbackTarget(data).value;
      match ParseCallback(data).0
      case Reject =>
        if !writeOk then
          outcome == NotWritten && store.docs == old(store.docs)
        else
          outcome == Decided(Reject, id, NoticeFor(old(store.docs)[id], notifyOk))
          && store.docs == Updated(old(store.docs), id, RejectionFields(), false)
      case Approve =>
        if RenewalDate(today).None? then
          outcome == RenewalOverflow && store.docs == old(store.docs)
        else if !writeOk then
          outcome == NotWritten && store.docs == old(store.docs)
        else
          outcome == Decided(Approve, id, NoticeFor(old(store.docs)[id], notifyOk))
          && store.docs == Updated(old(store.docs), id, ApprovalFields(utcNow, RenewalDate(today).value), false)
  {
    var (decision, idText) := ParseCallback(data);
    var parsed := IntOfText(idText);
    if parsed.None? {
      return BadId;
    }
    var id := parsed.value;
    if id !in store.docs {
      return NotFound;
    }
    outcome := Decide(store, decision, id, today, utcNow, writeOk, notifyOk);
  }

  /**
   * After an approval the member's document is Approved, renews on the 25th of
   * the month after `today` at midnight, started at `utcNow`, and keeps its
   * registration fields; no document is added and the others are unchanged.
   */
  lemma ApprovalRecord(docs: map<int, Record>, id: int, today: Date, utcNow: DateTime)
    requires id in docs && ValidDate(today) && RenewalDate(today).Some?
    ensures var renewal := RenewalDate(today).value;
      var after := Updated(docs, id, ApprovalFields(utcNow, renewal), false);
      && after.Keys == docs.Keys
      && IsApproved(after[id])
      && after[id]["subscription_start_date"] == Time(utcNow)
      && after[id]["subscription_renewal_date"].Time?
      && after[id]["subscription_renewal_date"].t.micros == 0
      && after[id]["subscription_renewal_date"].t.date.day == RENEWAL_DAY
      && MonthIndex(after[id]["subscription_renewal_date"].t.date) == MonthIndex(today) + 1
      && (forall f :: f in docs[id] && f !in ApprovalFields(utcNow, renewal) ==> after[id][f] == docs[id][f])
      && (forall other :: other in docs && other != id ==> after[other] == docs[other])
  {
    var renewal := RenewalDate(today).value;
    var fields := ApprovalFields(utcNow, renewal);
    assert "subscription_renewal_date" in fields && fields["subscription_renewal_date"] == Time(Midnight(renewal));
    assert "subscription_start_date" in fields && fields["subscription_start_date"] == Time(utcNow);
  }

  /** The later of two decisions sets the status: a rejection after an approval leaves the member Rejected, and the other way round. */
  lemma LastDecisionWins(docs: map<int, Record>, id: int, first: Record, second: Record)
    requires id in docs
    requires second == RejectionFields() || IsApproved(second)
    ensures var after := Updated(Updated(docs, id, first, false), id, second, false);
      IsApproved(after[id]) <==> IsApproved(second)
  {
    var after := Updated(Updated(docs, id, first, false), id, second, false);
    assert "status" in second && after[id]["status"] == second["status"];
  }

  /** A write that leaves matching documents matching never lowers a count. */
  lemma {:induction false} CountKeptBy(docs: map<int, Record>, ids: seq<int>, id: int, fields: Record, f: Filter)
    requires id in docs ==> (Matches(docs[id], f) ==> Matches(SetFields(docs[id], fields), f))
    ensures CountDocuments(docs, ids, f) <= CountDocuments(Updated(docs, id, fields, false), ids, f)
  {
    if ids != [] {
      CountKeptBy(docs, ids[..|ids| - 1], id, fields, f);
    }
  }

  /** A write that leaves unmatched documents unmatched never raises a count. */
  lemma {:induction false} CountNotRaisedBy(docs: map<int, Record>, ids: seq<int>, id: int, fields: Record, f: Filter)
    requires id in docs ==> (Matches(SetFields(docs[id], fields), f) ==> Matches(docs[id], f))
    ensures CountDocuments(Updated(docs, id, fields, false), ids, f) <= CountDocuments(docs, ids, f)
  {
    if ids != [] {
      CountNotRaisedBy(docs, ids[..|ids| - 1], id, fields, f);
    }
  }

  /**
   * An approval never lowers a referral count (all-time, per period, approved
   * or not), and a rejection never raises one: the sponsor and the
   * registration date are kept, and only the status changes.
   */
  lemma DecisionMovesCounts(docs: map<int, Record>, ids: seq<int>, id: int, startedAt: DateTime, renewal: Date, f: Filter)
    ensures CountDocuments(docs, ids, f) <= CountDocuments(Updated(docs, id, ApprovalFields(startedAt, renewal), false), ids, f)
    ensures CountDocuments(Updated(docs, id, RejectionFields(), false), ids, f) <= CountDocuments(docs, ids, f)
  {
    CountKeptBy(docs, ids, id, ApprovalFields(startedAt, renewal), f);
    CountNotRaisedBy(docs, ids, id, RejectionFields(), f);
  }

  /** A decision leaves the all-time counts that ignore the status where they were. */
  lemma DecisionKeepsStats(docs: map<int, Record>, ids: seq<int>, id: int, startedAt: DateTime, renewal: Date, f: Filter)
    requires !f.approvedOnly
    ensures CountDocuments(Updated(docs, id, ApprovalFields(startedAt, renewal), false), ids, f) == CountDocuments(docs, ids, f)
    ensures CountDocuments(Updated(docs, id, RejectionFields(), false), ids, f) == CountDocuments(docs, ids, f)
  {
    CountKeptBy(docs, ids, id, ApprovalFields(startedAt, renewal), f);
    CountNotRaisedBy(docs, ids, id, ApprovalFields(startedAt, renewal), f);
    CountKeptBy(docs, ids, id, RejectionFields(), f);
    CountNotRaisedBy(docs, ids, id, RejectionFields(), f);
  }
}
