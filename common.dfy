/** Shared vocabulary: identifiers, optional values, the error codes the API answers with,
    and the two query shapes every controller repeats (`.single()` and the buyer-only read). */
module Common {

  /** Row identifiers (UUIDs in the database) and opaque strings such as download tokens. */
  type Id = string

  datatype Option<T> = None | Some(value: T) {
    function GetOr(default: T): T {
      match this
      case Some(v) => v
      case None => default
    }
  }

  /** A JSON number that `z.number().int()` accepts. */
  predicate IsInt(x: real)
  {
    x.Floor as real == x
  }

  /** The `code` of an error response. Payloads carry what the message text depends on. */
  datatype Error =
    | NotFound
    | Forbidden
    | Unauthorized
    | ValidationError
    | InvalidTransition(from: string, to: string)
    | InvalidStatus
    | InvalidRole
    | InvalidVariant
    | OutOfStock(shortage: Shortage)
    | OrderNotCompleted
    | ReviewExists
    | NotAccepting
    | InvalidVideoType
    | MissingToken
    | TokenExpired
    | StorageError
    | NoFile
    | UploadError
    | VariantHasOrders(count: nat)
    | CategoryHasCelebrities(count: nat)
    | CategoryHasProducts(count: nat)
    | DbError

  /** The two messages OUT_OF_STOCK can carry: sold out, or only `left` pieces available. */
  datatype Shortage = SoldOut | OnlyLeft(left: int)

  datatype Result<T> = Ok(value: T) | Err(error: Error)

  /** HTTP status sent with each error; `error()` defaults to 400. */
  function StatusCode(e: Error): (code: nat)
    ensures code in {400, 401, 403, 404, 410, 500}
    ensures code == 404 <==> e == NotFound
    ensures code == 410 <==> e == TokenExpired
  {
    match e
    case NotFound => 404
    case Forbidden => 403
    case Unauthorized => 401
    case TokenExpired => 410
    case StorageError => 500
    case UploadError => 500
    case DbError => 500
    case _ => 400
  }

  /** What `.single()` yields for a filtered query: the matching row only when exactly one
      row matches, and nothing when none or several do. */
  ghost function Single(ids: set<Id>): (r: Option<Id>)
    ensures r.Some? <==> |ids| == 1
    ensures r.Some? ==> ids == {r.value}
  {
    if |ids| == 1 then
      var x :| x in ids;
      SingletonIs(ids, x);
      Some(x)
    else None
  }

  lemma SingletonIs(ids: set<Id>, x: Id)
    requires |ids| == 1 && x in ids
    ensures ids == {x}
  {
    var rest := ids - {x};
    assert |rest| == 0;
    assert rest == {};
  }

  /** Runs a `.single()` query whose matching rows are `ids`. */
  method PickSingle(ids: set<Id>) returns (r: Option<Id>)
    ensures r == Single(ids)
  {
    if |ids| == 1 {
      var x :| x in ids;
      SingletonIs(ids, x);
      r := Some(x);
    } else {
      r := None;
    }
  }

  /** The buyer-side read shared by the three `get...OrderById` handlers: a missing row is
      NOT_FOUND, somebody else's row FORBIDDEN, and the owner gets the row. */
  function BuyerRead<T>(table: map<Id, T>, buyerOf: T -> Id, caller: Id, id: Id): (r: Result<T>)
    ensures r == Err(NotFound) <==> id !in table
    ensures r == Err(Forbidden) <==> id in table && buyerOf(table[id]) != caller
    ensures r.Ok? <==> id in table && buyerOf(table[id]) == caller
    ensures r.Ok? ==> r.value == table[id]
  {
    if id !in table then Err(NotFound)
    else if buyerOf(table[id]) != caller then Err(Forbidden)
    else Ok(table[id])
  }

  /** `rows` lists each id of `ids` exactly once: the rows a query returned, in the order
      the database chose. */
  ghost predicate Enumerates(rows: seq<Id>, ids: set<Id>)
  {
    (forall i, j :: 0 <= i < j < |rows| ==> rows[i] != rows[j]) &&
    (forall i :: 0 <= i < |rows| ==> rows[i] in ids) &&
    (forall k :: k in ids ==> k in rows)
  }

  /** Number of rows of `table` that satisfy `p` (a `count: 'exact'` query). */
  function CountWhere<T>(table: map<Id, T>, p: T -> bool): nat
  {
    |set k | k in table && p(table[k])|
  }

  lemma CountWherePositive<T>(table: map<Id, T>, p: T -> bool, k: Id)
    requires k in table && p(table[k])
    ensures CountWhere(table, p) > 0
  {
    var s := set j | j in table && p(table[j]);
    assert k in s;
    assert |s| >= |{k}| by { assert {k} <= s; }
  }

  lemma CountWhereZero<T>(table: map<Id, T>, p: T -> bool)
    requires CountWhere(table, p) == 0
    ensures forall k :: k in table ==> !p(table[k])
  {
    forall k | k in table
      ensures !p(table[k])
    {
      if p(table[k]) { CountWherePositive(table, p, k); }
    }
  }

  lemma CountWhereWitness<T>(table: map<Id, T>, p: T -> bool)
    requires CountWhere(table, p) > 0
    ensures exists k :: k in table && p(table[k])
  {
    var s := set j | j in table && p(table[j]);
    assert s != {};
    var k :| k in s;
  }
}
