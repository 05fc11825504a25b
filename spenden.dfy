/** The donation details: a single `spenden` record (IBAN, bank, clearing
    number, SWIFT, postal account, note) that privileged users create,
    change and delete and that anyone may read. */
module Spenden {
  import opened Js
  import opened Table
  import opened Auth
  import Http

  datatype Spende = Spende(iban: Value, bank: Value, clearing: Value, swift: Value,
                           postcheck: Value, hinweis: Value)

  const Columns: seq<string> := ["iban", "bank", "clearing", "swift", "postcheck", "hinweis"]

  function Column(d: Spende, key: string): Value {
    match key
    case "iban" => d.iban
    case "bank" => d.bank
    case "clearing" => d.clearing
    case "swift" => d.swift
    case "postcheck" => d.postcheck
    case _ => d.hinweis
  }

  /** The row an INSERT stores for the six body fields. */
  function FromBody(body: map<string, Value>): (r: Spende)
    ensures forall k :: k in Columns ==> Column(r, k) == Stored(Field(body, k))
  {
    Spende(Stored(Field(body, "iban")), Stored(Field(body, "bank")),
           Stored(Field(body, "clearing")), Stored(Field(body, "swift")),
           Stored(Field(body, "postcheck")), Stored(Field(body, "hinweis")))
  }

  /** `sent !== undefined ? sent : current` */
  function Keep(sent: Value, current: Value): Value {
    if sent != Undefined then sent else current
  }

  /** The values the update writes back: every sent field, the current value
      for every field that was not sent. */
  function Merge(current: Spende, body: map<string, Value>): Spende {
    Spende(Keep(Field(body, "iban"), current.iban), Keep(Field(body, "bank"), current.bank),
           Keep(Field(body, "clearing"), current.clearing), Keep(Field(body, "swift"), current.swift),
           Keep(Field(body, "postcheck"), current.postcheck), Keep(Field(body, "hinweis"), current.hinweis))
  }

  /** Each column takes the body value exactly when one is present; `null`
      and `""` overwrite like any other value. */
  lemma MergeColumns(current: Spende, body: map<string, Value>, k: string)
    requires k in Columns
    ensures Field(body, k) != Undefined ==> Column(Merge(current, body), k) == Field(body, k)
    ensures Field(body, k) == Undefined ==> Column(Merge(current, body), k) == Column(current, k)
  {
  }

  /** A body that sends none of the six fields changes nothing. */
  lemma MergeNothingSent(current: Spende, body: map<string, Value>)
    requires forall k :: k in Columns ==> Field(body, k) == Undefined
    ensures Merge(current, body) == current
  {
    assert Field(body, Columns[0]) == Undefined && Field(body, Columns[1]) == Undefined;
    assert Field(body, Columns[2]) == Undefined && Field(body, Columns[3]) == Undefined;
    assert Field(body, Columns[4]) == Undefined && Field(body, Columns[5]) == Undefined;
  }

  /** Sending the same body twice has the effect of sending it once. */
  lemma MergeIdempotent(current: Spende, body: map<string, Value>)
    ensures Merge(Merge(current, body), body) == Merge(current, body)
  {
  }

  /** Sending `null` clears a field, where the `||` merges keep it. */
  lemma NullClears(current: Spende)
    ensures Merge(current, map["hinweis" := Null]).hinweis == Null
    ensures Merge(current, map["hinweis" := Null]).iban == current.iban
  {
    assert Field(map["hinweis" := Null], "iban") == Undefined;
  }

  /** A handler's answer and the table afterwards. */
  datatype Outcome = Outcome(status: int, db: Store<Spende>)

  /** `create`: role, then no existing record, then IBAN and bank. */
  function CreateRule(db: Store<Spende>, user: Value, body: map<string, Value>): (r: Outcome)
    ensures r.status == Http.Created <==>
      SomeRole(user) == Allow && db.rows == [] && Truthy(Field(body, "iban")) && Truthy(Field(body, "bank"))
    ensures r.status == Http.Created ==> r.db == Insert(db, FromBody(body))
    ensures r.status != Http.Created ==> r.db == db
    ensures SomeRole(user) == Allow && db.rows != [] ==> r.status == Http.BadRequest
    ensures SomeRole(user) == Allow && !(Truthy(Field(body, "iban")) && Truthy(Field(body, "bank"))) ==>
      r.status == Http.BadRequest
    ensures SomeRole(user) == Deny ==> r.status == Http.Forbidden
    ensures SomeRole(user) == Throws ==> r.status == Http.Internal
    ensures |db.rows| <= 1 ==> |r.db.rows| <= 1
    ensures WellKeyed(db) ==> WellKeyed(r.db)
  {
    if SomeRoleInTry(user).Some? then Outcome(SomeRoleInTry(user).value, db)
    else if db.rows != [] then Outcome(Http.BadRequest, db)
    else if !Truthy(Field(body, "iban")) || !Truthy(Field(body, "bank")) then Outcome(Http.BadRequest, db)
    else Outcome(Http.Created, Insert(db, FromBody(body)))
  }

  /** `update`: role, then an existing record, then the merge written back
      to the first row by its id. */
  function UpdateRule(db: Store<Spende>, user: Value, body: map<string, Value>): (r: Outcome)
    ensures r.status == Http.Ok <==> SomeRole(user) == Allow && db.rows != []
    ensures SomeRole(user) == Allow && db.rows == [] ==> r.status == Http.NotFound
    ensures SomeRole(user) == Deny ==> r.status == Http.Forbidden
    ensures SomeRole(user) == Throws ==> r.status == Http.Internal
    ensures r.status != Http.Ok ==> r.db == db
    ensures r.status == Http.Ok && WellKeyed(db) ==>
      r.db == Store([Row(db.rows[0].id, Merge(db.rows[0].data, body))] + db.rows[1..], db.next)
    ensures WellKeyed(db) ==> WellKeyed(r.db)
    ensures |r.db.rows| == |db.rows|
  {
    if SomeRoleInTry(user).Some? then Outcome(SomeRoleInTry(user).value, db)
    else if db.rows == [] then Outcome(Http.NotFound, db)
    else
      var f := (d: Spende) => Merge(db.rows[0].data, body);
      Outcome(Http.Ok, UpdateHead(db, f))
  }

  /** `delete`: role, then an existing record, which is deleted by its id. */
  function DeleteRule(db: Store<Spende>, user: Value): (r: Outcome)
    ensures r.status == Http.Ok <==> SomeRole(user) == Allow && db.rows != []
    ensures SomeRole(user) == Allow && db.rows == [] ==> r.status == Http.NotFound
    ensures SomeRole(user) == Deny ==> r.status == Http.Forbidden
    ensures SomeRole(user) == Throws ==> r.status == Http.Internal
    ensures r.status != Http.Ok ==> r.db == db
    ensures r.status == Http.Ok && WellKeyed(db) ==> r.db == Store(db.rows[1..], db.next)
    ensures WellKeyed(db) ==> WellKeyed(r.db)
  {
    if SomeRoleInTry(user).Some? then Outcome(SomeRoleInTry(user).value, db)
    else if db.rows == [] then Outcome(Http.NotFound, db)
    else Outcome(Http.Ok, DeleteHead(db))
  }

  /** Starting from a table with at most one record (an empty one, say),
      no sequence of these handlers ever leaves more than one record. */
  lemma {:induction false} AtMostOneRecord(db: Store<Spende>, steps: seq<Step>)
    requires |db.rows| <= 1
    ensures |Run(db, steps).rows| <= 1
    decreases |steps|
  {
    if steps != [] {
      AtMostOneRecord(Apply(db, steps[0]), steps[1..]);
    }
  }

  /** One handler call with its inputs. */
  datatype Step =
    | CreateStep(user: Value, body: map<string, Value>)
    | UpdateStep(user: Value, body: map<string, Value>)
    | DeleteStep(user: Value)

  function Apply(db: Store<Spende>, step: Step): Store<Spende> {
    match step
    case CreateStep(user, body) => CreateRule(db, user, body).db
    case UpdateStep(user, body) => UpdateRule(db, user, body).db
    case DeleteStep(user) => DeleteRule(db, user).db
  }

  function Run(db: Store<Spende>, steps: seq<Step>): Store<Spende>
    decreases |steps|
  {
    if steps == [] then db else Run(Apply(db, steps[0]), steps[1..])
  }

  /** After a successful delete, a valid create succeeds again. */
  lemma DeleteAllowsCreate(db: Store<Spende>, user: Value, body: map<string, Value>)
    requires WellKeyed(db) && |db.rows| == 1
    requires SomeRole(user) == Allow && Truthy(Field(body, "iban")) && Truthy(Field(body, "bank"))
    ensures DeleteRule(db, user).status == Http.Ok
    ensures CreateRule(DeleteRule(db, user).db, user, body).status == Http.Created
  {
  }

  /** The `spenden` table. */
  class SpendenTable {
    var rows: seq<Row<Spende>>
    var next: int

    ghost predicate Valid()
      reads this
    {
      WellKeyed(Store(rows, next)) && |rows| <= 1
    }

    function Db(): Store<Spende>
      reads this
    {
      Store(rows, next)
    }

    constructor ()
      ensures Valid() && rows == []
    {
      rows, next := [], 1;
    }

    method Create(user: Value, body: map<string, Value>) returns (status: int)
      requires Valid()
      modifies this
      ensures Valid()
      ensures Outcome(status, Db()) == CreateRule(old(Db()), user, body)
    {
      var refused := SomeRoleInTry(user);
      if refused.Some? {
        return refused.value;
      }
      if |rows| > 0 {
        return Http.BadRequest;
      }
      var iban, bank := Field(body, "iban"), Field(body, "bank");
      if !Truthy(iban) || !Truthy(bank) {
        return Http.BadRequest;
      }
      var stored := Insert(Db(), FromBody(body));
      rows, next := stored.rows, stored.next;
      status := Http.Created;
    }

    /** `getAll`: the first record, or 404. */
    method GetAll() returns (status: int, record: Option<Row<Spende>>)
      ensures status == Http.NotFound <==> rows == []
      ensures status == Http.Ok <==> rows != []
      ensures record == Head(rows)
    {
      if |rows| == 0 {
        return Http.NotFound, None;
      }
      return Http.Ok, Some(rows[0]);
    }

    method Update(user: Value, body: map<string, Value>) returns (status: int)
      requires Valid()
      modifies this
      ensures Valid()
      ensures Outcome(status, Db()) == UpdateRule(old(Db()), user, body)
    {
      var refused := SomeRoleInTry(user);
      if refused.Some? {
        return refused.value;
      }
      if |rows| == 0 {
        return Http.NotFound;
      }
      var current := rows[0];
      var merged := Merge(current.data, body);
      rows := [Row(current.id, merged)] + rows[1..];
      status := Http.Ok;
    }

    method Delete(user: Value) returns (status: int)
      requires Valid()
      modifies this
      ensures Valid()
      ensures Outcome(status, Db()) == DeleteRule(old(Db()), user)
    {
      var refused := SomeRoleInTry(user);
      if refused.Some? {
        return refused.value;
      }
      if |rows| == 0 {
        return Http.NotFound;
      }
      rows := rows[1..];
      status := Http.Ok;
    }
  }
}
