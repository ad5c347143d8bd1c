/**
 * Referral accounting: the referral counts of `stats_info`/`referral_stats`,
 * the earnings of `referral_earnings` and the monthly payout report.
 */
module Referral {
  import opened Wrappers
  import opened Calendar
  import opened Store

  /** `settings.REFERRAL_REWARD`: FCFA paid per approved referral. */
  const REFERRAL_REWARD: int := 2000

  /** The billing period of `now` as a registration range, None when its start is not a representable date. */
  function Period(now: DateTime): (r: Option<Range>)
    requires ValidDateTime(now)
    ensures r.None? <==> PeriodStart(now).None?
    ensures r.Some? ==> Le(r.value.lo, now) && Le(now, r.value.hi)
    ensures r.Some? ==> r.value.lo.date.day == RENEWAL_DAY && r.value.lo.micros == 0
    ensures r.Some? ==> r.value.hi.date == now.date && r.value.hi.micros == LAST_MICRO
  {
    match PeriodStart(now)
    case None => None
    case Some(start) => Some(Range(start, PeriodEnd(now)))
  }

  /** `count_documents({"godfather": user_id})`: referrals of any status. */
  function StatsCount(docs: map<int, Record>, order: seq<int>, user: int): (n: nat)
    ensures CountDocuments(docs, order, Filter(Int(user), true, None)) <= n <= |order|
  {
    CountStricter(docs, order, Filter(Int(user), true, None), Filter(Int(user), false, None));
    CountDocuments(docs, order, Filter(Int(user), false, None))
  }

  /** The filter of an approved referral of `sponsor` registered within `range`. */
  function PeriodFilter(sponsor: Value, range: Range): Filter {
    Filter(sponsor, true, Some(range))
  }

  datatype Earnings = Earnings(allTimeCount: nat, allTimeEarnings: int, periodCount: nat, periodEarnings: int)

  /**
   * `referral_earnings` for `user` at `now`: approved referrals of all time and
   * of the current billing period, each with its reward.
   */
  function ReferralEarnings(docs: map<int, Record>, order: seq<int>, user: int, now: DateTime): (r: Option<Earnings>)
    requires ValidDateTime(now)
    ensures r.None? <==> PeriodStart(now).None?
    ensures r.Some? ==> r.value.allTimeCount == CountDocuments(docs, order, Filter(Int(user), true, None))
    ensures r.Some? ==> r.value.periodCount == CountDocuments(docs, order, PeriodFilter(Int(user), Period(now).value))
    ensures r.Some? ==> r.value.allTimeEarnings == r.value.allTimeCount * REFERRAL_REWARD
    ensures r.Some? ==> r.value.periodEarnings == r.value.periodCount * REFERRAL_REWARD
    ensures r.Some? ==> r.value.periodCount <= r.value.allTimeCount <= StatsCount(docs, order, user)
    ensures r.Some? ==> 0 <= r.value.periodEarnings <= r.value.allTimeEarnings
  {
    match Period(now)
    case None => None
    case Some(range) =>
      var allTime := Filter(Int(user), true, None);
      var thisMonth := PeriodFilter(Int(user), range);
      CountStricter(docs, order, thisMonth, allTime);
      CountStricter(docs, order, allTime, Filter(Int(user), false, None));
      var allTimeCount := CountDocuments(docs, order, allTime);
      var periodCount := CountDocuments(docs, order, thisMonth);
      Some(Earnings(allTimeCount, allTimeCount * REFERRAL_REWARD, periodCount, periodCount * REFERRAL_REWARD))
  }

  /** One line of the monthly report: a sponsor, the referrals counted, the payout, and whether the sponsor is messaged. */
  datatype ReportEntry = ReportEntry(sponsor: Value, count: nat, amount: int, notified: bool)

  datatype Report = Report(period: Range, entries: seq<ReportEntry>, total: int)

  /** The sum of the payouts of the entries. */
  function TotalAmount(entries: seq<ReportEntry>): int {
    if entries == [] then 0 else TotalAmount(entries[..|entries| - 1]) + entries[|entries| - 1].amount
  }

  /** The sum of the referral counts of the entries. */
  function TotalCount(entries: seq<ReportEntry>): nat {
    if entries == [] then 0 else TotalCount(entries[..|entries| - 1]) + entries[|entries| - 1].count
  }

  /** When every payout is its count times the reward, the total payout is the total count times the reward. */
  lemma {:induction false} TotalIsRewardPerReferral(entries: seq<ReportEntry>)
    requires forall k :: 0 <= k < |entries| ==> entries[k].amount == entries[k].count * REFERRAL_REWARD
    ensures TotalAmount(entries) == TotalCount(entries) * REFERRAL_REWARD
  {
    if entries != [] {
      TotalIsRewardPerReferral(entries[..|entries| - 1]);
    }
  }

  /** What the report promises of one entry: its count is the sponsor's approved referrals of the period, at least one, paid at the reward rate. */
  predicate EntryFaithful(docs: map<int, Record>, order: seq<int>, range: Range, e: ReportEntry) {
    && Truthy(e.sponsor)
    && e.count == CountDocuments(docs, order, PeriodFilter(e.sponsor, range))
    && e.count >= 1
    && e.amount == e.count * REFERRAL_REWARD
    && e.notified == (e.sponsor.Int? && e.sponsor.i in docs)
  }

  /** `counts` holds, for every truthy sponsor with a referral among `ids`, the number of them. */
  ghost predicate CountsOf(docs: map<int, Record>, ids: seq<int>, range: Range, counts: map<Value, nat>) {
    && (forall g :: g in counts <==> Truthy(g) && CountDocuments(docs, ids, PeriodFilter(g, range)) > 0)
    && (forall g :: g in counts ==> counts[g] == CountDocuments(docs, ids, PeriodFilter(g, range)))
  }

  /** `keys` lists the keys of `counts` once each. */
  ghost predicate KeysOf(counts: map<Value, nat>, keys: seq<Value>) {
    && (forall g :: g in counts <==> g in keys)
    && (forall j, k :: 0 <= j < k < |keys| ==> keys[j] != keys[k])
  }

  /** The counts after one more document: its sponsor, if truthy and if the document counts, gains one. */
  lemma CountsOfSnoc(docs: map<int, Record>, ids: seq<int>, id: int, range: Range, counts: map<Value, nat>)
    requires CountsOf(docs, ids, range, counts) && id in docs
    ensures var user := docs[id];
      if "godfather" in user && Truthy(user["godfather"]) && IsApproved(user) && RegisteredWithin(user, range) then
        var g := user["godfather"];
        CountsOf(docs, ids + [id], range, counts[g := (if g in counts then counts[g] else 0) + 1])
      else CountsOf(docs, ids + [id], range, counts)
  {
    forall g ensures CountDocuments(docs, ids + [id], PeriodFilter(g, range))
      == CountDocuments(docs, ids, PeriodFilter(g, range)) + (if Matches(docs[id], PeriodFilter(g, range)) then 1 else 0)
    {
      CountSnoc(docs, ids, id, PeriodFilter(g, range));
    }
  }

  /** The position among `ids` of the first document counted for sponsor `g` within `range`, `|ids|` when there is none. */
  function FirstCounted(docs: map<int, Record>, ids: seq<int>, range: Range, g: Value): (k: nat)
    ensures k <= |ids|
  {
    if ids == [] then 0
    else
      var n := |ids| - 1;
      var before := FirstCounted(docs, ids[..n], range, g);
      if before < n then before
      else if ids[n] in docs && Matches(docs[ids[n]], PeriodFilter(g, range)) then n
      else n + 1
  }

  /** A sponsor has a first counted document exactly when it has a count. */
  lemma {:induction false} FirstCountedCount(docs: map<int, Record>, ids: seq<int>, range: Range, g: Value)
    ensures FirstCounted(docs, ids, range, g) < |ids| <==> CountDocuments(docs, ids, PeriodFilter(g, range)) > 0
  {
    if ids != [] {
      FirstCountedCount(docs, ids[..|ids| - 1], range, g);
    }
  }

  /** One more document leaves a first counted document where it was. */
  lemma FirstCountedSnoc(docs: map<int, Record>, ids: seq<int>, id: int, range: Range, g: Value)
    ensures FirstCounted(docs, ids, range, g) < |ids| ==> FirstCounted(docs, ids + [id], range, g) == FirstCounted(docs, ids, range, g)
    ensures FirstCounted(docs, ids, range, g) == |ids| && id in docs && Matches(docs[id], PeriodFilter(g, range)) ==>
      FirstCounted(docs, ids + [id], range, g) == |ids|
  {
    assert (ids + [id])[..|ids|] == ids;
  }

  /** `sponsors` are listed in the order in which their first counted document comes among `ids`. */
  ghost predicate FirstMetOrder(docs: map<int, Record>, ids: seq<int>, range: Range, sponsors: seq<Value>) {
    forall j, k :: 0 <= j < k < |sponsors| ==> FirstCounted(docs, ids, range, sponsors[j]) < FirstCounted(docs, ids, range, sponsors[k])
  }

  /**
   * The order of first meeting survives one more document, and a sponsor met
   * for the first time in it goes last.
   */
  lemma FirstMetSnoc(docs: map<int, Record>, ids: seq<int>, id: int, range: Range, counts: map<Value, nat>, sponsors: seq<Value>, g: Value)
    requires CountsOf(docs, ids, range, counts) && KeysOf(counts, sponsors) && FirstMetOrder(docs, ids, range, sponsors)
    ensures FirstMetOrder(docs, ids + [id], range, sponsors)
    ensures Truthy(g) && g !in counts && id in docs && Matches(docs[id], PeriodFilter(g, range)) ==>
      FirstMetOrder(docs, ids + [id], range, sponsors + [g])
  {
    forall k | 0 <= k < |sponsors|
      ensures FirstCounted(docs, ids, range, sponsors[k]) < |ids|
      ensures FirstCounted(docs, ids + [id], range, sponsors[k]) == FirstCounted(docs, ids, range, sponsors[k])
    {
      assert sponsors[k] in counts;
      FirstCountedCount(docs, ids, range, sponsors[k]);
      FirstCountedSnoc(docs, ids, id, range, sponsors[k]);
    }
    if Truthy(g) && g !in counts && id in docs && Matches(docs[id], PeriodFilter(g, range)) {
      FirstCountedCount(docs, ids, range, g);
      FirstCountedSnoc(docs, ids, id, range, g);
      var extended := sponsors + [g];
      forall j, k | 0 <= j < k < |extended|
        ensures FirstCounted(docs, ids + [id], range, extended[j]) < FirstCounted(docs, ids + [id], range, extended[k])
      {
        if k == |sponsors| {
          assert extended[j] == sponsors[j] && extended[k] == g;
        } else {
          assert extended[j] == sponsors[j] && extended[k] == sponsors[k];
        }
      }
    }
  }

  /** One iteration of the first loop of `send_monthly_referral_report`: the document `id` is tallied. */
  method Tally(docs: map<int, Record>, ids: seq<int>, id: int, range: Range, counts: map<Value, nat>, sponsors: seq<Value>)
    returns (counts': map<Value, nat>, sponsors': seq<Value>)
    requires id in docs
    requires CountsOf(docs, ids, range, counts) && KeysOf(counts, sponsors) && FirstMetOrder(docs, ids, range, sponsors)
    ensures CountsOf(docs, ids + [id], range, counts') && KeysOf(counts', sponsors')
    ensures FirstMetOrder(docs, ids + [id], range, sponsors')
  {
    var user := docs[id];
    CountsOfSnoc(docs, ids, id, range, counts);
    FirstMetSnoc(docs, ids, id, range, counts, sponsors, if "godfather" in user then user["godfather"] else Null);
    counts', sponsors' := counts, sponsors;
    if "godfather" in user && Truthy(user["godfather"]) {
      var godfather := user["godfather"];
      if IsApproved(user) && RegisteredWithin(user, range) {
        if godfather !in counts' {
          counts' := counts'[godfather := 0];
          sponsors' := sponsors' + [godfather];
        }
        counts' := counts'[godfather := counts'[godfather] + 1];
      }
    }
  }

  /**
   * The first loop of `send_monthly_referral_report`: over the documents in the
   * order of `find({})`, the per-sponsor counts of approved referrals registered
   * within `range`, and the sponsors in the order they were first met.
   */
  method CountReferrals(store: MemberStore, range: Range) returns (counts: map<Value, nat>, sponsors: seq<Value>)
    requires store.Valid()
    ensures CountsOf(store.docs, store.order, range, counts)
    ensures KeysOf(counts, sponsors)
    ensures FirstMetOrder(store.docs, store.order, range, sponsors)
  {
    var docs, order := store.docs, store.order;
    counts, sponsors := map[], [];
    var i := 0;
    while i < |order|
      invariant 0 <= i <= |order|
      invariant CountsOf(docs, order[..i], range, counts)
      invariant KeysOf(counts, sponsors)
      invariant FirstMetOrder(docs, order[..i], range, sponsors)
    {
      counts, sponsors := Tally(docs, order[..i], order[i], range, counts, sponsors);
      assert order[..i + 1] == order[..i] + [order[i]];
      i := i + 1;
    }
    assert order[..|order|] == order;
  }

  /**
   * The second loop of `send_monthly_referral_report`: one entry per sponsor,
   * in the order they were first met, with its payout, and the running total.
   */
  method ReportEntries(docs: map<int, Record>, order: seq<int>, range: Range, counts: map<Value, nat>, sponsors: seq<Value>)
    returns (entries: seq<ReportEntry>, total: int)
    requires CountsOf(docs, order, range, counts) && KeysOf(counts, sponsors)
    ensures |entries| == |sponsors|
    ensures forall j :: 0 <= j < |entries| ==> entries[j].sponsor == sponsors[j]
    ensures forall j :: 0 <= j < |entries| ==> EntryFaithful(docs, order, range, entries[j])
    ensures total == TotalAmount(entries)
  {
    entries, total := [], 0;
    var k := 0;
    while k < |sponsors|
      invariant 0 <= k <= |sponsors| && |entries| == k
      invariant forall j :: 0 <= j < k ==> entries[j].sponsor == sponsors[j]
      invariant forall j :: 0 <= j < k ==> EntryFaithful(docs, order, range, entries[j])
      invariant total == TotalAmount(entries)
    {
      var godfather := sponsors[k];
      // find_one({"user_id": godfather_id}): only an integer id is a key
      var sponsorRecord := if godfather.Int? && godfather.i in docs then Some(docs[godfather.i]) else None;
      var count := counts[godfather];
      var amount := count * REFERRAL_REWARD;
      total := total + amount;
      var entry := ReportEntry(godfather, count, amount, sponsorRecord.Some? && amount > 0);
      assert (entries + [entry])[..k] == entries;
      entries := entries + [entry];
      k := k + 1;
    }
  }

  /**
   * What the report promises over `range`: each entry is faithful, each
   * sponsor is listed once and in the order its first counted document comes,
   * every sponsor with a referral in the range is listed, and the total is the
   * sum of the payouts.
   */
  ghost predicate ReportOf(docs: map<int, Record>, order: seq<int>, range: Range, entries: seq<ReportEntry>, total: int) {
    && (forall k :: 0 <= k < |entries| ==> EntryFaithful(docs, order, range, entries[k]))
    && (forall j, k :: 0 <= j < k < |entries| ==> entries[j].sponsor != entries[k].sponsor)
    && (forall j, k :: 0 <= j < k < |entries| ==>
          FirstCounted(docs, order, range, entries[j].sponsor) < FirstCounted(docs, order, range, entries[k].sponsor))
    && (forall g :: Truthy(g) && CountDocuments(docs, order, PeriodFilter(g, range)) > 0 ==>
          exists k :: 0 <= k < |entries| && entries[k].sponsor == g)
    && total == TotalAmount(entries)
  }

  /** The body of `send_monthly_referral_report` for a registration range: both loops. */
  method BuildReport(store: MemberStore, range: Range) returns (entries: seq<ReportEntry>, total: int)
    requires store.Valid()
    ensures ReportOf(store.docs, store.order, range, entries, total)
  {
    var counts, sponsors := CountReferrals(store, range);
    var docs, order := store.docs, store.order;
    entries, total := ReportEntries(docs, order, range, counts, sponsors);
    forall g | Truthy(g) && CountDocuments(docs, order, PeriodFilter(g, range)) > 0
      ensures exists k :: 0 <= k < |entries| && entries[k].sponsor == g
    {
      assert g in sponsors;
      var k :| 0 <= k < |sponsors| && sponsors[k] == g;
      assert entries[k].sponsor == g;
    }
  }

  /**
   * `send_monthly_referral_report` at `now`, over the billing period of `now`.
   * None when the period cannot be computed.
   */
  method MonthlyReport(store: MemberStore, now: DateTime) returns (r: Option<Report>)
    requires store.Valid() && ValidDateTime(now)
    ensures r.None? <==> PeriodStart(now).None?
    ensures r.Some? ==> r.value.period == Period(now).value
    ensures r.Some? ==> ReportOf(store.docs, store.order, r.value.period, r.value.entries, r.value.total)
  {
    var period := Period(now);
    if period.None? {
      return None;
    }
    var entries, total := BuildReport(store, period.value);
    r := Some(Report(period.value, entries, total));
  }

  /** When the scheduler runs the report, on RENEWAL_DAY, its period is that one day, from its midnight on. */
  lemma ScheduledPeriodIsOneDay(now: DateTime)
    requires ValidDateTime(now) && now.date.day == RENEWAL_DAY
    ensures Period(now) == Some(Range(Midnight(now.date), DateTime(now.date, LAST_MICRO)))
  {
  }

  /**
   * The billing period that ended when the current one began: from the
   * renewal midnight one month before the current period's start to the last
   * microsecond before that start. None when either start is not a
   * representable date.
   */
  function ClosedPeriod(now: DateTime): (r: Option<Range>)
    requires ValidDateTime(now)
    ensures r.Some? ==> PeriodStart(now).Some?
    ensures r.Some? ==> r.value.lo.date.day == RENEWAL_DAY && r.value.lo.micros == 0
    ensures r.Some? ==> MonthIndex(r.value.lo.date) + 1 == MonthIndex(PeriodStart(now).value.date)
    ensures r.Some? ==> forall t :: ValidDateTime(t) ==>
      (Le(t, r.value.hi) <==> !Le(PeriodStart(now).value, t))
  {
    match PeriodStart(now)
    case None => None
    case Some(start) =>
      match AddMonths(start.date, -1)
      case None => None
      case Some(previous) => Some(Range(Midnight(previous), DateTime(start.date.(day := RENEWAL_DAY - 1), LAST_MICRO)))
  }

  /**
   * A referral registered on the day before the scheduled run is missed by the
   * report as written, and counted over the closed period.
   */
  lemma ScheduledReportMissesTheMonth()
    ensures var now := DateTime(Date(2025, 7, 25), 300_000_000);
      var docs := map[1 := map["godfather" := Int(7), "status" := Str("Approved"),
                               "registration_date" := Time(DateTime(Date(2025, 7, 24), 43_200_000_000))]];
      && CountDocuments(docs, [1], PeriodFilter(Int(7), Period(now).value)) == 0
      && CountDocuments(docs, [1], PeriodFilter(Int(7), ClosedPeriod(now).value)) == 1
  {
  }

  /**
   * The report the scheduled run evidently means: the same loops over the
   * period that has just closed. None when that period cannot be computed.
   */
  method ScheduledReport(store: MemberStore, now: DateTime) returns (r: Option<Report>)
    requires store.Valid() && ValidDateTime(now)
    ensures r.None? <==> ClosedPeriod(now).None?
    ensures r.Some? ==> r.value.period == ClosedPeriod(now).value
    ensures r.Some? ==> ReportOf(store.docs, store.order, r.value.period, r.value.entries, r.value.total)
  {
    var period := ClosedPeriod(now);
    if period.None? {
      return None;
    }
    var entries, total := BuildReport(store, period.value);
    r := Some(Report(period.value, entries, total));
  }
}
