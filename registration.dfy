/**
 * The registration conversation: the seven waiting states of the
 * ConversationHandler, the per-user draft (`context.user_data`) that its
 * handlers fill in, and the submission that upserts a Pending document.
 */
module Registration {
  import opened Wrappers
  import opened Calendar
  import opened Text
  import opened Store
  import opened Sponsor

  /** The waiting states `range(7)`, in the order of the state table. */
  datatype Phase = LanguageSelection | NameInput | NumberInput | EmailInput | GodfatherInput | PaymentMethod | TransactionId

  /** One user's conversation: ended (`ConversationHandler.END`, or never started) or waiting in a phase. */
  datatype Conv = End | At(phase: Phase)

  /** An update for the conversation: a command, a text message that is not a command, or a button press with its callback data. */
  datatype Event = Command(name: string) | Message(text: string) | Button(data: string)

  /** The position of a phase in the state table, LANGUAGE_SELECTION = 0 ... TRANSACTION_ID = 6. */
  function Rank(p: Phase): (k: nat)
    ensures k < 7
  {
    match p
    case LanguageSelection => 0
    case NameInput => 1
    case NumberInput => 2
    case EmailInput => 3
    case GodfatherInput => 4
    case PaymentMethod => 5
    case TransactionId => 6
  }

  function PhaseOfRank(k: nat): (p: Phase)
    requires k < 7
    ensures Rank(p) == k
  {
    if k == 0 then LanguageSelection
    else if k == 1 then NameInput
    else if k == 2 then NumberInput
    else if k == 3 then EmailInput
    else if k == 4 then GodfatherInput
    else if k == 5 then PaymentMethod
    else TransactionId
  }

  /** The state a phase's handler returns: the next phase, and END after the transaction id. */
  function Successor(p: Phase): (c: Conv)
    ensures p == TransactionId <==> c == End
    ensures c.At? ==> Rank(c.phase) == Rank(p) + 1
  {
    match p
    case LanguageSelection => At(NameInput)
    case NameInput => At(NumberInput)
    case NumberInput => At(EmailInput)
    case EmailInput => At(GodfatherInput)
    case GodfatherInput => At(PaymentMethod)
    case PaymentMethod => At(TransactionId)
    case TransactionId => End
  }

  const START: string := "start"
  const CANCEL: string := "cancel"
  const LANG_PREFIX: string := "lang_"
  const PAYMENT_PREFIX: string := "payment_"

  predicate StartsWith(s: string, prefix: string) {
    |prefix| <= |s| && s[..|prefix|] == prefix
  }

  /** The state table of `main`: whether the handler registered for phase `p` accepts `ev`. */
  predicate Handles(p: Phase, ev: Event) {
    match p
    case LanguageSelection => ev.Button? && StartsWith(ev.data, LANG_PREFIX)
    case PaymentMethod => ev.Button? && StartsWith(ev.data, PAYMENT_PREFIX)
    case _ => ev.Message?
  }

  /** The text of `s` before its first underscore. */
  function UntilUnderscore(s: string): (r: string)
    ensures |r| <= |s| && r == s[..|r|] && '_' !in r
    ensures |r| < |s| ==> s[|r|] == '_'
  {
    if s == [] || s[0] == '_' then [] else [s[0]] + UntilUnderscore(s[1..])
  }

  /** `data.split('_')[1]` for callback data that starts with `prefix`, a word followed by one underscore. */
  function Choice(data: string, prefix: string): (r: string)
    requires StartsWith(data, prefix)
    ensures '_' !in r && |prefix| + |r| <= |data|
    ensures forall k :: 0 <= k < |r| ==> r[k] == data[|prefix| + k]
    ensures |prefix| + |r| < |data| ==> data[|prefix| + |r|] == '_'
  {
    UntilUnderscore(data[|prefix|..])
  }

  /** The languages that `get_messages` has texts for. */
  predicate KnownLanguage(lang: string) {
    lang == "fr" || lang == "en"
  }

  /**
   * The language that a draft or a member document names, read as
   * `.get('language', 'en')`, has texts.
   */
  predicate HasTexts(fields: map<string, Value>) {
    "language" !in fields || (fields["language"].Str? && KnownLanguage(fields["language"].s))
  }

  /** The payment methods that `PAYMENT_DETAILS` has instructions for. */
  predicate KnownPaymentMethod(choice: string) {
    choice == "mtn" || choice == "orange"
  }

  /**
   * Whether the handler of `p` raises KeyError on `ev` (after writing its draft
   * field): a language or payment method without texts.
   */
  predicate Raises(p: Phase, ev: Event)
    requires Handles(p, ev)
  {
    || (p == LanguageSelection && !KnownLanguage(Choice(ev.data, LANG_PREFIX)))
    || (p == PaymentMethod && !KnownPaymentMethod(Choice(ev.data, PAYMENT_PREFIX)))
  }

  /** The handler of `p` runs on `ev` and returns normally. */
  predicate Advances(p: Phase, ev: Event) {
    Handles(p, ev) && !Raises(p, ev)
  }

  /**
   * One update of one user's conversation. `approved` is whether the user's
   * document is Approved, and `hasTexts` whether `get_messages` has texts for
   * the draft's language (English when the draft has none). From END only
   * `/start` enters, and `start` answers END at once to a user whose document
   * is Approved. In a phase, the phase's handler runs when it accepts the
   * update (a handler that raises leaves the state as it was); otherwise the
   * `/cancel` fallback ends the conversation, unless it raises for want of
   * texts; any other update is ignored.
   */
  function Step(c: Conv, ev: Event, approved: bool, hasTexts: bool): (r: Conv)
    ensures c == End ==> (r == End || r == At(LanguageSelection)) && (r != End <==> ev == Command(START) && !approved)
    ensures c.At? ==> r == c || r == Successor(c.phase) || r == End
  {
    match c
    case End => if ev == Command(START) && !approved then At(LanguageSelection) else End
    case At(p) =>
      if Handles(p, ev) then (if Raises(p, ev) then c else Successor(p))
      else if ev == Command(CANCEL) then (if hasTexts then End else c)
      else c
  }

  /** `/cancel` ends the conversation from every phase when the draft's language has texts. */
  lemma CancelEnds(p: Phase, approved: bool)
    ensures Step(At(p), Command(CANCEL), approved, true) == End
  {
  }

  /** `/cancel` with a draft language that has no texts raises, and the conversation stays where it was. */
  lemma CancelWithoutTextsStays(p: Phase, approved: bool)
    ensures Step(At(p), Command(CANCEL), approved, false) == At(p)
  {
  }

  /** A user whose document is Approved never enters the conversation. */
  lemma ApprovedNeverEnters(ev: Event, hasTexts: bool)
    ensures Step(End, ev, true, hasTexts) == End
  {
  }

  /**
   * A step moves at most one phase forward: it stays, ends, or goes to the
   * successor, and goes to the successor exactly when the phase's handler runs
   * and returns.
   */
  lemma StepAdvancesOnePhase(p: Phase, ev: Event, approved: bool, hasTexts: bool)
    ensures Step(At(p), ev, approved, hasTexts) in {At(p), Successor(p), End}
    ensures Step(At(p), ev, approved, hasTexts) == Successor(p) <==>
      Advances(p, ev) || (p == TransactionId && ev == Command(CANCEL) && hasTexts)
  {
  }

  /** How a phase can be reached: by staying in it, from the phase before it, or, for the first, by `/start`. */
  lemma StepInto(c: Conv, ev: Event, approved: bool, hasTexts: bool, p: Phase)
    requires Step(c, ev, approved, hasTexts) == At(p) && c != At(p)
    ensures Rank(p) == 0 ==> c == End && ev == Command(START) && !approved
    ensures Rank(p) > 0 ==> c == At(PhaseOfRank(Rank(p) - 1)) && Advances(c.phase, ev)
  {
  }

  /** An update together with whether the user's document was Approved and the draft's language had texts when it arrived. */
  datatype Input = Input(ev: Event, approved: bool, hasTexts: bool)

  /** The states of a conversation that starts in `c` and receives `inputs`, one more than the inputs. */
  function Trace(c: Conv, inputs: seq<Input>): (t: seq<Conv>)
    ensures |t| == |inputs| + 1 && t[0] == c
    ensures forall k :: 0 <= k < |inputs| ==> t[k + 1] == Step(t[k], inputs[k].ev, inputs[k].approved, inputs[k].hasTexts)
  {
    if inputs == [] then [c]
    else
      var before := Trace(c, inputs[..|inputs| - 1]);
      var last := inputs[|inputs| - 1];
      before + [Step(before[|before| - 1], last.ev, last.approved, last.hasTexts)]
  }

  /**
   * The last entry into phase `p` before position `j` of a trace from END:
   * from position `i + 1` to `j` the conversation waits in `p`, and position
   * `i` is the state it came from.
   */
  lemma {:induction false} LastEntry(t: seq<Conv>, inputs: seq<Input>, j: nat, p: Phase) returns (i: nat)
    requires t == Trace(End, inputs) && j <= |inputs| && t[j] == At(p)
    ensures i < j && t[i] != At(p) && Step(t[i], inputs[i].ev, inputs[i].approved, inputs[i].hasTexts) == At(p)
    ensures forall m :: i < m <= j ==> t[m] == At(p)
  {
    if t[j - 1] == At(p) {
      i := LastEntry(t, inputs, j - 1, p);
    } else {
      i := j - 1;
    }
  }

  /**
   * Reaching the handler of phase `k` at input `j` needs every earlier handler:
   * `steps[r]` is the input on which the handler of phase `r` ran and returned,
   * in increasing order, with no END between `/start` at input `started` and `j`.
   */
  lemma {:induction false} StepsBefore(t: seq<Conv>, inputs: seq<Input>, k: nat, j: nat) returns (started: nat, steps: seq<nat>)
    requires t == Trace(End, inputs) && k < 7 && j < |inputs|
    requires t[j] == At(PhaseOfRank(k)) && Advances(PhaseOfRank(k), inputs[j].ev)
    ensures |steps| == k + 1 && steps[k] == j
    ensures forall r :: 0 <= r <= k ==> steps[r] < |inputs| && t[steps[r]] == At(PhaseOfRank(r)) && Advances(PhaseOfRank(r), inputs[steps[r]].ev)
    ensures forall r :: 0 <= r < k ==> steps[r] < steps[r + 1]
    ensures started < steps[0] && t[started] == End && inputs[started].ev == Command(START) && !inputs[started].approved
    ensures forall m :: started < m <= j ==> t[m] != End
  {
    var p := PhaseOfRank(k);
    var i := LastEntry(t, inputs, j, p);
    StepInto(t[i], inputs[i].ev, inputs[i].approved, inputs[i].hasTexts, p);
    if k == 0 {
      started, steps := i, [j];
    } else {
      var before;
      started, before := StepsBefore(t, inputs, k - 1, i);
      steps := before + [j];
    }
  }

  /**
   * A submission (the TRANSACTION_ID handler running) in a conversation that
   * began at END was preceded, in this order and without a cancel between, by
   * `/start` and by a successful run of every earlier phase's handler.
   */
  lemma SubmissionNeedsEveryStep(inputs: seq<Input>, j: nat) returns (started: nat, steps: seq<nat>)
    requires j < |inputs| && Trace(End, inputs)[j] == At(TransactionId) && Advances(TransactionId, inputs[j].ev)
    ensures |steps| == 7 && steps[6] == j
    ensures forall r :: 0 <= r < 7 ==>
              && steps[r] < |inputs| && Trace(End, inputs)[steps[r]] == At(PhaseOfRank(r))
              && Advances(PhaseOfRank(r), inputs[steps[r]].ev)
    ensures forall r :: 0 <= r < 6 ==> steps[r] < steps[r + 1]
    ensures started < steps[0] && inputs[started].ev == Command(START) && !inputs[started].approved
    ensures forall m :: started < m <= j ==> Trace(End, inputs)[m] != End
  {
    started, steps := StepsBefore(Trace(End, inputs), inputs, 6, j);
  }
}
