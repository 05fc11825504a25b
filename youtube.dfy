/** The YouTube link shown on the site: a single `youtube_links` row
    holding one `link`. */
module YoutubeLinks {
  import opened Js
  import opened Table
  import opened Auth
  import Http

  /** A handler's answer and the table afterwards. */
  datatype Outcome = Outcome(status: int, db: Store<Value>)

  /** `createYoutubeLink`: role (before `try`), a link, then no existing
      row. */
  function CreateRule(db: Store<Value>, user: Value, body: map<string, Value>): (r: Outcome)
    ensures r.status == Http.Created <==>
      SomeRole(user) == Allow && Truthy(Field(body, "youtubelink")) && db.rows == []
    ensures r.status == Http.Created ==> r.db == Insert(db, Field(body, "youtubelink"))
    ensures r.status != Http.Created ==> r.db == db
    ensures SomeRole(user) != Allow ==> r.status in {Http.Forbidden, Http.NoResponse}
    ensures !Nullish(user) && SomeRole(user) == Deny ==> r.status == Http.Forbidden
    ensures Nullish(user) || SomeRole(user) == Throws ==> r.status == Http.NoResponse
    ensures SomeRole(user) == Allow && !Truthy(Field(body, "youtubelink")) ==> r.status == Http.BadRequest
    ensures |db.rows| <= 1 ==> |r.db.rows| <= 1
    ensures WellKeyed(db) ==> WellKeyed(r.db)
  {
    var link := Field(body, "youtubelink");
    if SomeRoleBeforeTry(user).Some? then Outcome(SomeRoleBeforeTry(user).value, db)
    else if !Truthy(link) then Outcome(Http.BadRequest, db)
    else if db.rows != [] then Outcome(Http.BadRequest, db)
    else Outcome(Http.Created, Insert(db, link))
  }

  /** `updateYoutubeLink`: role, a new link, then an existing row (a missing
      one is answered with 400, not 404); only the first row's link
      changes. */
  function UpdateRule(db: Store<Value>, user: Value, body: map<string, Value>): (r: Outcome)
    ensures r.status == Http.Ok <==>
      SomeRole(user) == Allow && Truthy(Field(body, "newLink")) && db.rows != []
    ensures SomeRole(user) == Allow && Truthy(Field(body, "newLink")) && db.rows == [] ==>
      r.status == Http.BadRequest
    ensures SomeRole(user) == Allow && !Truthy(Field(body, "newLink")) ==> r.status == Http.BadRequest
    ensures !Nullish(user) && SomeRole(user) == Deny ==> r.status == Http.Forbidden
    ensures Nullish(user) || SomeRole(user) == Throws ==> r.status == Http.NoResponse
    ensures r.status != Http.Ok ==> r.db == db
    ensures r.status == Http.Ok && WellKeyed(db) ==>
      r.db == Store([Row(db.rows[0].id, Field(body, "newLink"))] + db.rows[1..], db.next)
    ensures WellKeyed(db) ==> WellKeyed(r.db)
  {
    var newLink := Field(body, "newLink");
    if SomeRoleBeforeTry(user).Some? then Outcome(SomeRoleBeforeTry(user).value, db)
    else if !Truthy(newLink) then Outcome(Http.BadRequest, db)
    else if db.rows == [] then Outcome(Http.BadRequest, db)
    else Outcome(Http.Ok, UpdateHead(db, (old_link: Value) => newLink))
  }

  /** Create never adds a second row, whatever was called before. */
  lemma CreateKeepsOneRow(db: Store<Value>, user: Value, body: map<string, Value>)
    requires |db.rows| == 1
    ensures CreateRule(db, user, body).db == db
    ensures SomeRole(user) == Allow && Truthy(Field(body, "youtubelink")) ==>
      CreateRule(db, user, body).status == Http.BadRequest
  {
  }

  /** The role check comes first: an unprivileged caller is refused even
      without a link. */
  lemma RoleBeforeLink(db: Store<Value>, user: Value)
    requires !Nullish(user) && SomeRole(user) == Deny
    ensures CreateRule(db, user, map[]).status == Http.Forbidden
    ensures UpdateRule(db, user, map[]).status == Http.Forbidden
  {
  }

  /** The `youtube_links` table. */
  class YoutubeTable {
    var rows: seq<Row<Value>>
    var next: int

    ghost predicate Valid()
      reads this
    {
      WellKeyed(Store(rows, next)) && |rows| <= 1
    }

    function Db(): Store<Value>
      reads this
    {
      Store(rows, next)
    }

    constructor ()
      ensures Valid() && rows == []
    {
      rows, next := [], 1;
    }

    method CreateYoutubeLink(user: Value, body: map<string, Value>) returns (status: int)
      requires Valid()
      modifies this
      ensures Valid()
      ensures Outcome(status, Db()) == CreateRule(old(Db()), user, body)
    {
      var link := Field(body, "youtubelink");
      var refused := SomeRoleBeforeTry(user);
      if refused.Some? {
        return refused.value;
      }
      if !Truthy(link) {
        return Http.BadRequest;
      }
      if |rows| > 0 {
        return Http.BadRequest;
      }
      rows, next := rows + [Row(next, link)], next + 1;
      status := Http.Created;
    }

    /** `getYoutubeLink`: the first row, or 404. */
    method GetYoutubeLink() returns (status: int, row: Option<Row<Value>>)
      ensures status == Http.NotFound <==> rows == []
      ensures status == Http.Ok <==> rows != []
      ensures row == Head(rows)
    {
      if |rows| == 0 {
        return Http.NotFound, None;
      }
      return Http.Ok, Some(rows[0]);
    }

    method UpdateYoutubeLink(user: Value, body: map<string, Value>) returns (status: int)
      requires Valid()
      modifies this
      ensures Valid()
      ensures Outcome(status, Db()) == UpdateRule(old(Db()), user, body)
    {
      var newLink := Field(body, "newLink");
      var refused := SomeRoleBeforeTry(user);
      if refused.Some? {
        return refused.value;
      }
      if !Truthy(newLink) {
        return Http.BadRequest;
      }
      if |rows| == 0 {
        return Http.BadRequest;
      }
      rows := [Row(rows[0].id, newLink)] + rows[1..];
      status := Http.Ok;
    }
  }
}
