/**
 * Sponsor ("godfather") resolution: the free text of the GODFATHER_INPUT step
 * becomes a user id or no sponsor.
 */
module Sponsor {
  import opened Wrappers
  import opened Text
  import opened Store

  /**
   * `normalize_godfather(text)`: `int(text)` when the text is an integer, with
   * no check that such a member exists; otherwise the `user_id` of the first
   * member whose `telegram_username` is the text; otherwise None.
   */
  function NormalizeGodfather(docs: map<int, Record>, order: seq<int>, text: string): (r: Option<int>)
    requires WellFormed(docs, order)
    ensures IntOfText(text).Some? ==> r == IntOfText(text)
    ensures IntOfText(text).None? && r.Some? ==> r.value in docs && HasUsername(docs[r.value], text)
    ensures r.None? <==> IntOfText(text).None? && forall id :: id in docs ==> !HasUsername(docs[id], text)
  {
    match IntOfText(text)
    case Some(n) => Some(n)
    case None => FindByUsername(docs, order, text)
  }

  /** The sentinel by which a registrant says there is no sponsor, compared after `lower()`. */
  const SKIP: string := "skip"

  /**
   * What `handle_godfather` stores for the message text: nothing for "skip"
   * in any case, otherwise the normalized sponsor of the stripped text.
   */
  function ResolveSponsor(docs: map<int, Record>, order: seq<int>, message: string): (r: Option<int>)
    requires WellFormed(docs, order)
    ensures Lower(Strip(message)) == SKIP ==> r.None?
    ensures r.Some? ==> IntOfText(Strip(message)) == r || (r.value in docs && HasUsername(docs[r.value], Strip(message)))
  {
    var input := Strip(message);
    if Lower(input) == SKIP then None else NormalizeGodfather(docs, order, input)
  }

  /** The draft value of a resolved sponsor: the id, or `None` (null). */
  function SponsorValue(sponsor: Option<int>): (v: Value)
    ensures v == Null <==> sponsor.None?
    ensures v.Int? ==> sponsor == Some(v.i)
  {
    match sponsor
    case None => Null
    case Some(id) => Int(id)
  }

  /** "skip" in any case, with any surrounding whitespace, means no sponsor, whatever the store holds. */
  lemma SkipMeansNoSponsor(docs: map<int, Record>, order: seq<int>, message: string)
    requires WellFormed(docs, order)
    requires Lower(Strip(message)) == SKIP
    ensures ResolveSponsor(docs, order, message) == None
  {
  }

  /** An integer, with any surrounding whitespace, is the sponsor id as it is, with no lookup. */
  lemma IntegerIsSponsorId(docs: map<int, Record>, order: seq<int>, message: string, n: int)
    requires WellFormed(docs, order)
    requires ParseInt(Strip(message)) == Some(n)
    ensures ResolveSponsor(docs, order, message) == Some(n)
  {
    var input := Strip(message);
    LowerIsSkip(input);
    IntOfStrippedText(message);
    assert IntOfText(input) == ParseInt(Strip(input));
    StripIdempotent(message);
  }

  /**
   * Any other text names a sponsor by username: the result is a member with
   * that `telegram_username`, and there is none exactly when no member has it.
   */
  lemma UsernameIsLookedUp(docs: map<int, Record>, order: seq<int>, message: string)
    requires WellFormed(docs, order)
    requires Lower(Strip(message)) != SKIP && ParseInt(Strip(message)).None?
    ensures ResolveSponsor(docs, order, message) == FindByUsername(docs, order, Strip(message))
  {
    var input := Strip(message);
    StripIdempotent(message);
    assert IntOfText(input) == ParseInt(input);
  }

  /**
   * The result of sponsor resolution is never a dangling username: it is an
   * integer typed in, or an existing member with the typed username. No
   * sponsor means "skip", or text that is no integer and no member's username.
   */
  lemma SponsorOrigin(docs: map<int, Record>, order: seq<int>, message: string)
    requires WellFormed(docs, order)
    ensures var r := ResolveSponsor(docs, order, message);
      r.Some? ==> ParseInt(Strip(message)) == r || (r.value in docs && HasUsername(docs[r.value], Strip(message)))
    ensures var r := ResolveSponsor(docs, order, message);
      r.None? ==> Lower(Strip(message)) == SKIP
                  || (ParseInt(Strip(message)).None? && forall id :: id in docs ==> !HasUsername(docs[id], Strip(message)))
  {
    StripIdempotent(message);
  }
}
