/**
 * The member collection: one document per `user_id`, each a map from field
 * name to value, with the `update_one(..., {"$set": ...})`, `find_one` and
 * `count_documents` operations the bot uses.
 */
module Store {
  import opened Wrappers
  import opened Calendar

  /** A stored field value. */
  datatype Value = Null | Int(i: int) | Str(s: string) | Time(t: DateTime)

  /** A member document. */
  type Record = map<string, Value>

  /** Python truthiness of a stored value, as in `if godfather:`. */
  predicate Truthy(v: Value) {
    match v
    case Null => false
    case Int(i) => i != 0
    case Str(s) => s != ""
    case Time(_) => true
  }

  /** The range of the 8-byte integers that BSON can hold. */
  const INT64_MIN: int := -0x8000_0000_0000_0000
  const INT64_MAX: int := 0x7FFF_FFFF_FFFF_FFFF

  /** Every integer of the fields fits in 8 bytes; encoding a larger one makes the driver raise OverflowError. */
  predicate Encodable(fields: Record) {
    forall f :: f in fields && fields[f].Int? ==> INT64_MIN <= fields[f].i <= INT64_MAX
  }

  /** `{"$set": fields}` applied to a document: the listed fields are written, the others kept. */
  function SetFields(rec: Record, fields: Record): (r: Record)
    ensures r.Keys == rec.Keys + fields.Keys
    ensures forall k :: k in fields ==> r[k] == fields[k]
    ensures forall k :: k in rec && k !in fields ==> r[k] == rec[k]
  {
    rec + fields
  }

  /** The document an upsert starts from: the equality part of the query `{"user_id": id}`. */
  function NewDocument(id: int): (r: Record)
    ensures r.Keys == {"user_id"} && r["user_id"] == Int(id)
  {
    map["user_id" := Int(id)]
  }

  /**
   * The collection after `update_one({"user_id": id}, {"$set": fields}, upsert=upsert)`:
   * the matching document gets the listed fields; when there is none, an upsert
   * creates one and a plain update changes nothing.
   */
  function Updated(docs: map<int, Record>, id: int, fields: Record, upsert: bool): (r: map<int, Record>)
    ensures r.Keys == if upsert then docs.Keys + {id} else docs.Keys
    ensures forall other :: other in docs && other != id ==> r[other] == docs[other]
    ensures id in r ==> forall k :: k in fields ==> k in r[id] && r[id][k] == fields[k]
    ensures id in docs ==> r[id].Keys == docs[id].Keys + fields.Keys
    ensures id in docs ==> forall k :: k in docs[id] && k !in fields ==> r[id][k] == docs[id][k]
    ensures id !in docs && upsert ==> r[id].Keys == fields.Keys + {"user_id"}
    ensures id !in docs && upsert && "user_id" !in fields ==> r[id]["user_id"] == Int(id)
    ensures id !in docs && !upsert ==> r == docs
  {
    if id in docs then docs[id := SetFields(docs[id], fields)]
    else if upsert then docs[id := SetFields(NewDocument(id), fields)]
    else docs
  }

  /** Writing the same fields a second time changes nothing more: re-submission overwrites, it does not add. */
  lemma UpdatedIdempotent(docs: map<int, Record>, id: int, fields: Record, upsert: bool)
    ensures Updated(Updated(docs, id, fields, upsert), id, fields, upsert) == Updated(docs, id, fields, upsert)
  {
    var once := Updated(docs, id, fields, upsert);
    if id in once {
      assert SetFields(once[id], fields) == once[id];
      assert once[id := once[id]] == once;
    }
  }

  /**
   * A second write of at least the same fields replaces the first one: the
   * result is as if only the second write had happened.
   */
  lemma UpdatedOverwrites(docs: map<int, Record>, id: int, first: Record, second: Record, upsert: bool)
    requires first.Keys <= second.Keys
    ensures Updated(Updated(docs, id, first, upsert), id, second, upsert) == Updated(docs, id, second, upsert)
  {
    if id in docs {
      SetFieldsOverwrites(docs[id], first, second);
      assert docs[id := SetFields(docs[id], first)][id := SetFields(docs[id], second)] == docs[id := SetFields(docs[id], second)];
    } else if upsert {
      SetFieldsOverwrites(NewDocument(id), first, second);
      assert docs[id := SetFields(NewDocument(id), first)][id := SetFields(NewDocument(id), second)] == docs[id := SetFields(NewDocument(id), second)];
    }
  }

  lemma SetFieldsOverwrites(rec: Record, first: Record, second: Record)
    requires first.Keys <= second.Keys
    ensures SetFields(SetFields(rec, first), second) == SetFields(rec, second)
  {
    var twice := SetFields(SetFields(rec, first), second);
    var direct := SetFields(rec, second);
    assert twice.Keys == direct.Keys;
    forall k | k in twice
      ensures twice[k] == direct[k]
    {
    }
  }

  /** Every document carries its own key in its `user_id` field (the bot queries and writes by it). */
  predicate KeyFields(docs: map<int, Record>) {
    forall id :: id in docs ==> "user_id" in docs[id] && docs[id]["user_id"] == Int(id)
  }

  /** `order` lists every document once, in insertion (natural) order. */
  predicate Ordered(docs: map<int, Record>, order: seq<int>) {
    (forall i, j :: 0 <= i < j < |order| ==> order[i] != order[j])
    && (forall id :: id in docs ==> id in order)
    && (forall k :: 0 <= k < |order| ==> order[k] in docs)
  }

  predicate WellFormed(docs: map<int, Record>, order: seq<int>) {
    KeyFields(docs) && Ordered(docs, order)
  }

  /** A `$set` that leaves the `user_id` field of document `id` as it is. */
  predicate KeepsUserId(fields: Record, id: int) {
    "user_id" in fields ==> fields["user_id"] == Int(id)
  }

  /** The insertion order after an update: an upserted document comes last. */
  function UpdatedOrder(docs: map<int, Record>, order: seq<int>, id: int, upsert: bool): seq<int> {
    if id !in docs && upsert then order + [id] else order
  }

  lemma UpdatedWellFormed(docs: map<int, Record>, order: seq<int>, id: int, fields: Record, upsert: bool)
    requires WellFormed(docs, order) && KeepsUserId(fields, id)
    ensures WellFormed(Updated(docs, id, fields, upsert), UpdatedOrder(docs, order, id, upsert))
  {
  }

  predicate HasUsername(rec: Record, name: string) {
    "telegram_username" in rec && rec["telegram_username"] == Str(name)
  }

  /** The position of the first document, in natural order, whose `telegram_username` is `name`; |order| if none. */
  function FirstWithUsername(docs: map<int, Record>, order: seq<int>, name: string): (i: nat)
    ensures i <= |order|
    ensures forall j :: 0 <= j < i ==> !(order[j] in docs && HasUsername(docs[order[j]], name))
    ensures i < |order| ==> order[i] in docs && HasUsername(docs[order[i]], name)
  {
    if order == [] then 0
    else if order[0] in docs && HasUsername(docs[order[0]], name) then 0
    else 1 + FirstWithUsername(docs, order[1..], name)
  }

  /**
   * `find_one({"telegram_username": name})["user_id"]`: the id of the first
   * document in natural order with that username, or None when no document has it.
   */
  function FindByUsername(docs: map<int, Record>, order: seq<int>, name: string): (r: Option<int>)
    requires WellFormed(docs, order)
    ensures r.Some? ==> r.value in docs && HasUsername(docs[r.value], name)
    ensures r.None? <==> forall id :: id in docs ==> !HasUsername(docs[id], name)
  {
    var i := FirstWithUsername(docs, order, name);
    if i < |order| then Some(order[i])
    else
      assert forall id :: id in docs ==> !HasUsername(docs[id], name) by {
        forall id | id in docs ensures !HasUsername(docs[id], name) {
          var j :| 0 <= j < |order| && order[j] == id;
        }
      }
      None
  }

  /** An inclusive range of registration date-times, `{"$gte": lo, "$lte": hi}`. */
  datatype Range = Range(lo: DateTime, hi: DateTime)

  /** A `count_documents` filter: `godfather` equality, optionally `status == "Approved"` and a registration range. */
  datatype Filter = Filter(godfather: Value, approvedOnly: bool, registered: Option<Range>)

  predicate IsApproved(rec: Record) {
    "status" in rec && rec["status"] == Str("Approved")
  }

  predicate RegisteredWithin(rec: Record, range: Range) {
    "registration_date" in rec && rec["registration_date"].Time?
    && Le(range.lo, rec["registration_date"].t) && Le(rec["registration_date"].t, range.hi)
  }

  predicate Matches(rec: Record, f: Filter) {
    "godfather" in rec && rec["godfather"] == f.godfather
    && (f.approvedOnly ==> IsApproved(rec))
    && (f.registered.Some? ==> RegisteredWithin(rec, f.registered.value))
  }

  /** The number of documents among `ids` that match `f`. */
  function CountDocuments(docs: map<int, Record>, ids: seq<int>, f: Filter): (n: nat)
    ensures n <= |ids|
  {
    if ids == [] then 0
    else
      var last := ids[|ids| - 1];
      CountDocuments(docs, ids[..|ids| - 1], f) + (if last in docs && Matches(docs[last], f) then 1 else 0)
  }

  /** Counting one more document adds one exactly when it matches. */
  lemma CountSnoc(docs: map<int, Record>, ids: seq<int>, id: int, f: Filter)
    ensures CountDocuments(docs, ids + [id], f)
      == CountDocuments(docs, ids, f) + (if id in docs && Matches(docs[id], f) then 1 else 0)
  {
    assert (ids + [id])[..|ids|] == ids;
  }

  /** `f` asks for everything `g` asks for, and possibly more. */
  predicate Stricter(f: Filter, g: Filter) {
    f.godfather == g.godfather
    && (g.approvedOnly ==> f.approvedOnly)
    && (g.registered.Some? ==> f.registered == g.registered)
  }

  /** A stricter filter never counts more documents. */
  lemma {:induction false} CountStricter(docs: map<int, Record>, ids: seq<int>, f: Filter, g: Filter)
    requires Stricter(f, g)
    ensures CountDocuments(docs, ids, f) <= CountDocuments(docs, ids, g)
  {
    if ids != [] {
      CountStricter(docs, ids[..|ids| - 1], f, g);
    }
  }

  /** The collection that the bot's database handle stands for. */
  class MemberStore {
    var docs: map<int, Record>
    var order: seq<int>

    ghost predicate Valid()
      reads this
    {
      WellFormed(docs, order)
    }

    constructor ()
      ensures Valid() && docs == map[] && order == []
    {
      docs := map[];
      order := [];
    }

    /** `update_one({"user_id": id}, {"$set": fields}, upsert=upsert)`. */
    method UpdateOne(id: int, fields: Record, upsert: bool)
      requires Valid() && KeepsUserId(fields, id)
      modifies this
      ensures Valid()
      ensures docs == Updated(old(docs), id, fields, upsert)
      ensures order == UpdatedOrder(old(docs), old(order), id, upsert)
    {
      UpdatedWellFormed(docs, order, id, fields, upsert);
      order := UpdatedOrder(docs, order, id, upsert);
      docs := Updated(docs, id, fields, upsert);
    }
  }
}
