/** Contact requests (`anfragen`): board members file them and read them
    back. Every handler first demands the string claim
    `userType === "vorstand"`. */
module Anfrage {
  import opened Js
  import opened Table
  import opened Auth
  import Http

  /** A request; `erstelltAm` is the `NOW()` of its insert. */
  datatype Anfrage = Anfrage(name: Value, email: Value, nachricht: Value, erstelltAm: int)

  function Stamp(a: Anfrage): int {
    a.erstelltAm
  }

  /** The request fields that must be truthy. */
  predicate Complete(body: map<string, Value>) {
    Truthy(Field(body, "name")) && Truthy(Field(body, "email")) && Truthy(Field(body, "nachricht"))
  }

  /** A handler's answer, the id it reports, and the table afterwards. */
  datatype Outcome = Outcome(status: int, anfrageId: Option<int>, db: Store<Anfrage>)

  /** `createAnfrage`: the role, then the three fields, then one
      timestamped row whose new id is reported. */
  function CreateRule(db: Store<Anfrage>, user: Value, body: map<string, Value>, now: int): (r: Outcome)
    ensures r.status == Http.Created <==> UserTypeIsVorstand(user) && Complete(body)
    ensures r.status == Http.Created ==>
      r.anfrageId == Some(db.next) &&
      r.db == Insert(db, Anfrage(Field(body, "name"), Field(body, "email"), Field(body, "nachricht"), now))
    ensures r.status != Http.Created ==> r.anfrageId.None? && r.db == db
    ensures Nullish(user) ==> r.status == Http.NoResponse
    ensures !Nullish(user) && !UserTypeIsVorstand(user) ==> r.status == Http.Forbidden
    ensures UserTypeIsVorstand(user) && !Complete(body) ==> r.status == Http.BadRequest
    ensures WellKeyed(db) ==> WellKeyed(r.db)
  {
    if UserTypeBeforeTry(user).Some? then Outcome(UserTypeBeforeTry(user).value, None, db)
    else if !Complete(body) then Outcome(Http.BadRequest, None, db)
    else
      var a := Anfrage(Field(body, "name"), Field(body, "email"), Field(body, "nachricht"), now);
      Outcome(Http.Created, Some(db.next), Insert(db, a))
  }

  /** The reported id names the inserted row. */
  lemma CreatedIdFindsRow(db: Store<Anfrage>, user: Value, body: map<string, Value>, now: int)
    requires WellKeyed(db)
    requires CreateRule(db, user, body, now).status == Http.Created
    ensures var r := CreateRule(db, user, body, now);
            First(r.db.rows, IdEq(r.anfrageId.value)) ==
              Some(Row(db.next, Anfrage(Field(body, "name"), Field(body, "email"), Field(body, "nachricht"), now)))
  {
    var r := CreateRule(db, user, body, now);
    var x := r.db.rows[|db.rows|];
    assert forall i :: 0 <= i < |db.rows| ==> !IdEq(db.next)(r.db.rows[i]);
    FirstIsEarliest(r.db.rows, IdEq(db.next));
    var i :| 0 <= i < |r.db.rows| && r.db.rows[i] == First(r.db.rows, IdEq(db.next)).value &&
             forall j :: 0 <= j < i ==> !IdEq(db.next)(r.db.rows[j]);
    assert i == |db.rows|;
  }

  /** The `anfragen` table. */
  class AnfrageTable {
    var rows: seq<Row<Anfrage>>
    var next: int

    ghost predicate Valid()
      reads this
    {
      WellKeyed(Store(rows, next))
    }

    function Db(): Store<Anfrage>
      reads this
    {
      Store(rows, next)
    }

    constructor ()
      ensures Valid() && rows == []
    {
      rows, next := [], 1;
    }

    method CreateAnfrage(user: Value, body: map<string, Value>, now: int) returns (status: int, anfrageId: Option<int>)
      requires Valid()
      modifies this
      ensures Valid()
      ensures Outcome(status, anfrageId, Db()) == CreateRule(old(Db()), user, body, now)
    {
      var refused := UserTypeBeforeTry(user);
      if refused.Some? {
        return refused.value, None;
      }
      var name, email, nachricht := Field(body, "name"), Field(body, "email"), Field(body, "nachricht");
      if !Truthy(name) || !Truthy(email) || !Truthy(nachricht) {
        return Http.BadRequest, None;
      }
      anfrageId := Some(next);
      rows, next := rows + [Row(next, Anfrage(name, email, nachricht, now))], next + 1;
      status := Http.Created;
    }

    /** `getAnfragen`: every request, newest first. */
    method GetAnfragen(user: Value) returns (status: int, list: seq<Row<Anfrage>>)
      ensures status == Http.Ok <==> UserTypeIsVorstand(user)
      ensures Nullish(user) ==> status == Http.NoResponse
      ensures !Nullish(user) && !UserTypeIsVorstand(user) ==> status == Http.Forbidden
      ensures status != Http.Ok ==> list == []
      ensures status == Http.Ok ==> NewestFirstOrder(list, Stamp) && multiset(list) == multiset(rows)
    {
      var refused := UserTypeBeforeTry(user);
      if refused.Some? {
        return refused.value, [];
      }
      return Http.Ok, NewestFirst(rows, Stamp);
    }

    /** `getAnfrageById`: 404 exactly when no row has the id. */
    method GetAnfrageById(user: Value, id: Value) returns (status: int, row: Option<Row<Anfrage>>)
      ensures status == Http.Ok <==> UserTypeIsVorstand(user) && exists i :: 0 <= i < |rows| && IdIs(rows[i].id, id)
      ensures UserTypeIsVorstand(user) && (forall i :: 0 <= i < |rows| ==> !IdIs(rows[i].id, id)) ==>
        status == Http.NotFound
      ensures Nullish(user) ==> status == Http.NoResponse
      ensures !Nullish(user) && !UserTypeIsVorstand(user) ==> status == Http.Forbidden
      ensures row.Some? <==> status == Http.Ok
      ensures row.Some? ==> row.value in rows && IdIs(row.value.id, id)
    {
      var refused := UserTypeBeforeTry(user);
      if refused.Some? {
        return refused.value, None;
      }
      var found := Where(rows, (r: Row<Anfrage>) => IdIs(r.id, id));
      if |found| == 0 {
        return Http.NotFound, None;
      }
      return Http.Ok, Some(found[0]);
    }
  }
}
