/** The contact e-mail address: the `mail_kontakt` table, of which the
    handlers only ever read, change and delete the first row. */
module MailKontakt {
  import opened Js
  import opened Table
  import Http

  datatype Kontakt = Kontakt(email: Value, hinweis: Value)

  /** A handler's answer and the table afterwards. */
  datatype Outcome = Outcome(status: int, db: Store<Kontakt>)

  /** The values the update writes: `sent || existing` for each column. */
  function Merge(current: Kontakt, body: map<string, Value>): Kontakt {
    Kontakt(Or(Field(body, "email"), current.email), Or(Field(body, "hinweis"), current.hinweis))
  }

  /** A column changes exactly when a truthy value is sent, so neither `""`
      nor `null` clears it. */
  lemma MergeOnlyTruthy(current: Kontakt, body: map<string, Value>)
    ensures Merge(current, body).email == if Truthy(Field(body, "email")) then Field(body, "email") else current.email
    ensures Merge(current, body).hinweis == if Truthy(Field(body, "hinweis")) then Field(body, "hinweis") else current.hinweis
    ensures !Truthy(Field(body, "email")) && !Truthy(Field(body, "hinweis")) ==> Merge(current, body) == current
  {
  }

  /** `createMailKontakt`: an e-mail address is all it needs; it does not
      look for an existing row. */
  function CreateRule(db: Store<Kontakt>, body: map<string, Value>): (r: Outcome)
    ensures r.status == Http.Created <==> Truthy(Field(body, "email"))
    ensures r.status == Http.Created ==>
      r.db == Insert(db, Kontakt(Field(body, "email"), Stored(Field(body, "hinweis"))))
    ensures r.status != Http.Created ==> r.status == Http.BadRequest && r.db == db
    ensures WellKeyed(db) ==> WellKeyed(r.db)
  {
    var email := Field(body, "email");
    if !Truthy(email) then Outcome(Http.BadRequest, db)
    else Outcome(Http.Created, Insert(db, Kontakt(email, Stored(Field(body, "hinweis")))))
  }

  /** A second create adds a second row. */
  lemma CreateTwice(db: Store<Kontakt>, body: map<string, Value>)
    requires Truthy(Field(body, "email"))
    ensures |CreateRule(CreateRule(db, body).db, body).db.rows| == |db.rows| + 2
  {
  }

  function UpdateRule(db: Store<Kontakt>, body: map<string, Value>): (r: Outcome)
    ensures r.status == Http.Ok <==> db.rows != []
    ensures r.status != Http.Ok ==> r.status == Http.NotFound && r.db == db
    ensures r.status == Http.Ok && WellKeyed(db) ==>
      r.db == Store([Row(db.rows[0].id, Merge(db.rows[0].data, body))] + db.rows[1..], db.next)
    ensures WellKeyed(db) ==> WellKeyed(r.db)
  {
    if db.rows == [] then Outcome(Http.NotFound, db)
    else
      var merged := Merge(db.rows[0].data, body);
      Outcome(Http.Ok, UpdateHead(db, (k: Kontakt) => merged))
  }

  function DeleteRule(db: Store<Kontakt>): (r: Outcome)
    ensures r.status == Http.Ok <==> db.rows != []
    ensures r.status != Http.Ok ==> r.status == Http.NotFound && r.db == db
    ensures r.status == Http.Ok && WellKeyed(db) ==> r.db == Store(db.rows[1..], db.next)
    ensures WellKeyed(db) ==> WellKeyed(r.db)
  {
    if db.rows == [] then Outcome(Http.NotFound, db)
    else Outcome(Http.Ok, DeleteHead(db))
  }

  /** The `mail_kontakt` table. */
  class MailKontaktTable {
    var rows: seq<Row<Kontakt>>
    var next: int

    ghost predicate Valid()
      reads this
    {
      WellKeyed(Store(rows, next))
    }

    function Db(): Store<Kontakt>
      reads this
    {
      Store(rows, next)
    }

    constructor ()
      ensures Valid() && rows == []
    {
      rows, next := [], 1;
    }

    /** `getMailKontakt`: the first row, or 404. */
    method GetMailKontakt() returns (status: int, row: Option<Row<Kontakt>>)
      ensures status == Http.NotFound <==> rows == []
      ensures status == Http.Ok <==> rows != []
      ensures row == Head(rows)
    {
      if |rows| == 0 {
        return Http.NotFound, None;
      }
      return Http.Ok, Some(rows[0]);
    }

    method CreateMailKontakt(body: map<string, Value>) returns (status: int)
      requires Valid()
      modifies this
      ensures Valid()
      ensures Outcome(status, Db()) == CreateRule(old(Db()), body)
    {
      var email, hinweis := Field(body, "email"), Field(body, "hinweis");
      if !Truthy(email) {
        return Http.BadRequest;
      }
      rows, next := rows + [Row(next, Kontakt(email, Stored(hinweis)))], next + 1;
      status := Http.Created;
    }

    method UpdateMailKontakt(body: map<string, Value>) returns (status: int)
      requires Valid()
      modifies this
      ensures Valid()
      ensures Outcome(status, Db()) == UpdateRule(old(Db()), body)
    {
      if |rows| == 0 {
        return Http.NotFound;
      }
      var existing := rows[0];
      rows := [Row(existing.id, Merge(existing.data, body))] + rows[1..];
      status := Http.Ok;
    }

    method DeleteMailKontakt() returns (status: int)
      requires Valid()
      modifies this
      ensures Valid()
      ensures Outcome(status, Db()) == DeleteRule(old(Db()))
    {
      if |rows| == 0 {
        return Http.NotFound;
      }
      rows := rows[1..];
      status := Http.Ok;
    }
  }
}
