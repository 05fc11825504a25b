/** The postal address: the `post_kontakt` table, of which the handlers
    only ever read, change and delete the first row. */
module PostKontakt {
  import opened Js
  import opened Table
  import Http

  datatype Adresse = Adresse(firma: Value, name: Value, strasse: Value, plz: Value, ort: Value)

  const Columns: seq<string> := ["firma", "name", "strasse", "plz", "ort"]

  function Column(a: Adresse, key: string): Value {
    match key
    case "firma" => a.firma
    case "name" => a.name
    case "strasse" => a.strasse
    case "plz" => a.plz
    case _ => a.ort
  }

  /** The fields create insists on; `name` is optional. */
  predicate Complete(body: map<string, Value>) {
    Truthy(Field(body, "firma")) && Truthy(Field(body, "strasse")) &&
    Truthy(Field(body, "plz")) && Truthy(Field(body, "ort"))
  }

  function FromBody(body: map<string, Value>): (r: Adresse)
    ensures forall k :: k in Columns ==> Column(r, k) == Stored(Field(body, k))
  {
    Adresse(Stored(Field(body, "firma")), Stored(Field(body, "name")), Stored(Field(body, "strasse")),
            Stored(Field(body, "plz")), Stored(Field(body, "ort")))
  }

  /** `sent || existing` for each of the five columns. */
  function Merge(current: Adresse, body: map<string, Value>): Adresse {
    Adresse(Or(Field(body, "firma"), current.firma), Or(Field(body, "name"), current.name),
            Or(Field(body, "strasse"), current.strasse), Or(Field(body, "plz"), current.plz),
            Or(Field(body, "ort"), current.ort))
  }

  /** Every column keeps its stored value unless a truthy one is sent. */
  lemma MergeColumns(current: Adresse, body: map<string, Value>, k: string)
    requires k in Columns
    ensures Column(Merge(current, body), k) ==
            if Truthy(Field(body, k)) then Field(body, k) else Column(current, k)
  {
  }

  /** A body with no truthy field changes nothing, so a plz of `0` or an
      empty name cannot be stored through an update. */
  lemma MergeNothingTruthy(current: Adresse, body: map<string, Value>)
    requires forall k :: k in Columns ==> !Truthy(Field(body, k))
    ensures Merge(current, body) == current
  {
    assert !Truthy(Field(body, Columns[0])) && !Truthy(Field(body, Columns[1]));
    assert !Truthy(Field(body, Columns[2])) && !Truthy(Field(body, Columns[3]));
    assert !Truthy(Field(body, Columns[4]));
  }

  /** A handler's answer and the table afterwards. */
  datatype Outcome = Outcome(status: int, db: Store<Adresse>)

  /** `createPostKontakt`: four mandatory fields, and no check for an
      existing row. */
  function CreateRule(db: Store<Adresse>, body: map<string, Value>): (r: Outcome)
    ensures r.status == Http.Created <==> Complete(body)
    ensures r.status == Http.Created ==> r.db == Insert(db, FromBody(body))
    ensures r.status != Http.Created ==> r.status == Http.BadRequest && r.db == db
    ensures WellKeyed(db) ==> WellKeyed(r.db)
  {
    if !Complete(body) then Outcome(Http.BadRequest, db)
    else Outcome(Http.Created, Insert(db, FromBody(body)))
  }

  function UpdateRule(db: Store<Adresse>, body: map<string, Value>): (r: Outcome)
    ensures r.status == Http.Ok <==> db.rows != []
    ensures r.status != Http.Ok ==> r.status == Http.NotFound && r.db == db
    ensures r.status == Http.Ok && WellKeyed(db) ==>
      r.db == Store([Row(db.rows[0].id, Merge(db.rows[0].data, body))] + db.rows[1..], db.next)
    ensures WellKeyed(db) ==> WellKeyed(r.db)
  {
    if db.rows == [] then Outcome(Http.NotFound, db)
    else
      var merged := Merge(db.rows[0].data, body);
      Outcome(Http.Ok, UpdateHead(db, (a: Adresse) => merged))
  }

  function DeleteRule(db: Store<Adresse>): (r: Outcome)
    ensures r.status == Http.Ok <==> db.rows != []
    ensures r.status != Http.Ok ==> r.status == Http.NotFound && r.db == db
    ensures r.status == Http.Ok && WellKeyed(db) ==> r.db == Store(db.rows[1..], db.next)
    ensures WellKeyed(db) ==> WellKeyed(r.db)
  {
    if db.rows == [] then Outcome(Http.NotFound, db)
    else Outcome(Http.Ok, DeleteHead(db))
  }

  /** Deleting removes the first row only: with two addresses stored, the
      second becomes the one that is read. */
  lemma DeleteExposesSecond(db: Store<Adresse>)
    requires WellKeyed(db) && |db.rows| >= 2
    ensures Head(DeleteRule(db).db.rows) == Some(db.rows[1])
  {
  }

  /** The `post_kontakt` table. */
  class PostKontaktTable {
    var rows: seq<Row<Adresse>>
    var next: int

    ghost predicate Valid()
      reads this
    {
      WellKeyed(Store(rows, next))
    }

    function Db(): Store<Adresse>
      reads this
    {
      Store(rows, next)
    }

    constructor ()
      ensures Valid() && rows == []
    {
      rows, next := [], 1;
    }

    /** `getPostKontakt`: the first row, or 404. */
    method GetPostKontakt() returns (status: int, row: Option<Row<Adresse>>)
      ensures status == Http.NotFound <==> rows == []
      ensures status == Http.Ok <==> rows != []
      ensures row == Head(rows)
    {
      if |rows| == 0 {
        return Http.NotFound, None;
      }
      return Http.Ok, Some(rows[0]);
    }

    method CreatePostKontakt(body: map<string, Value>) returns (status: int)
      requires Valid()
      modifies this
      ensures Valid()
      ensures Outcome(status, Db()) == CreateRule(old(Db()), body)
    {
      var firma, strasse, plz, ort := Field(body, "firma"), Field(body, "strasse"), Field(body, "plz"), Field(body, "ort");
      if !Truthy(firma) || !Truthy(strasse) || !Truthy(plz) || !Truthy(ort) {
        return Http.BadRequest;
      }
      rows, next := rows + [Row(next, FromBody(body))], next + 1;
      status := Http.Created;
    }

    method UpdatePostKontakt(body: map<string, Value>) returns (status: int)
      requires Valid()
      modifies this
      ensures Valid()
      ensures Outcome(status, Db()) == UpdateRule(old(Db()), body)
    {
      if |rows| == 0 {
        return Http.NotFound;
      }
      var existing := rows[0];
      rows := [Row(existing.id, Merge(existing.data, body))] + rows[1..];
      status := Http.Ok;
    }

    method DeletePostKontakt() returns (status: int)
      requires Valid()
      modifies this
      ensures Valid()
      ensures Outcome(status, Db()) == DeleteRule(old(Db()))
    {
      if |rows| == 0 {
        return Http.NotFound;
      }
      rows := rows[1..];
      status := Http.Ok;
    }
  }
}
