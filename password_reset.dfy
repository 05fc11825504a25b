/** The password reset of board members over the `password_resets` table:
    a reset request keeps one live token per user, and a reset with that
    token changes the password once. The token signature, the mail and the
    hash are parameters. */
module PasswordReset {
  import opened Js
  import opened Table
  import Http
  import Board

  /** A row of `password_resets`; `used` is 0 until the token is spent. */
  datatype Reset = Reset(userId: int, token: Value, expiresAt: int, used: int)

  datatype Db = Db(members: Store<Board.Member>, resets: Store<Reset>)

  ghost predicate Sound(db: Db) {
    WellKeyed(db.members) && WellKeyed(db.resets)
  }

  datatype Outcome = Outcome(status: int, db: Db)

  /** A token is valid for one hour; times are in milliseconds. */
  const ValidFor: int := 60 * 60 * 1000

  /** `WHERE user_id = ?` and its complement. */
  function ForUser(userId: int): Row<Reset> -> bool {
    (r: Row<Reset>) => r.data.userId == userId
  }

  function NotForUser(userId: int): Row<Reset> -> bool {
    (r: Row<Reset>) => r.data.userId != userId
  }

  // ---------------------------------------------------------------------
  // requestReset

  /** The user the request resolves to: the first board row with the name. */
  function Requested(db: Db, name: Value): Option<Row<Board.Member>> {
    Head(Where(db.members.rows, Board.NamedAs(name)))
  }

  /** The reset table after the user's old rows are deleted and the new
      token is stored. */
  function Reissued(resets: Store<Reset>, userId: int, token: Value, now: int): Store<Reset> {
    Insert(Store(Where(resets.rows, NotForUser(userId)), resets.next), Reset(userId, token, now + ValidFor, 0))
  }

  /** `requestReset`: a truthy name (400), a board member with it (404);
      then that member's reset rows are replaced by one with `token`,
      expiring an hour from `now`. `mailSent` is whether sending the mail
      succeeds; when it throws the answer is 500 with the token stored. */
  function RequestRule(db: Db, body: map<string, Value>, token: Value, now: int, mailSent: bool): (r: Outcome)
    ensures !Truthy(Field(body, "benutzername")) ==> r == Outcome(Http.BadRequest, db)
    ensures Truthy(Field(body, "benutzername")) && Requested(db, Field(body, "benutzername")).None? ==>
      r == Outcome(Http.NotFound, db)
    ensures r.status in {Http.BadRequest, Http.NotFound, Http.Ok, Http.Internal}
    ensures r.status in {Http.BadRequest, Http.NotFound} ==> r.db == db
    ensures r.status in {Http.Ok, Http.Internal} ==>
      && Requested(db, Field(body, "benutzername")).Some?
      && r.db == db.(resets := Reissued(db.resets, Requested(db, Field(body, "benutzername")).value.id, token, now))
    ensures r.status == Http.Ok <==>
      Truthy(Field(body, "benutzername")) && Requested(db, Field(body, "benutzername")).Some? && mailSent
    ensures Truthy(Field(body, "benutzername")) && Requested(db, Field(body, "benutzername")).Some? && !mailSent ==>
      r.status == Http.Internal
    ensures Sound(db) ==> Sound(r.db)
  {
    var name := Field(body, "benutzername");
    if !Truthy(name) then Outcome(Http.BadRequest, db)
    else match Requested(db, name)
      case None => Outcome(Http.NotFound, db)
      case Some(user) =>
        assert Sound(db) ==> WellKeyed(Reissued(db.resets, user.id, token, now)) by {
          if Sound(db) { WhereKeyed(db.resets.rows, db.resets.next, NotForUser(user.id)); }
        }
        var after := db.(resets := Reissued(db.resets, user.id, token, now));
        Outcome(if mailSent then Http.Ok else Http.Internal, after)
  }

  /** After a request the user has exactly one reset row: the new token,
      unused, expiring an hour after the request. Other users' rows stay. */
  lemma OneTokenPerUser(resets: Store<Reset>, userId: int, token: Value, now: int)
    ensures Where(Reissued(resets, userId, token, now).rows, ForUser(userId)) ==
      [Row(resets.next, Reset(userId, token, now + ValidFor, 0))]
    ensures Where(Reissued(resets, userId, token, now).rows, NotForUser(userId)) == Where(resets.rows, NotForUser(userId))
  {
    var kept := Where(resets.rows, NotForUser(userId));
    var row := Row(resets.next, Reset(userId, token, now + ValidFor, 0));
    WhereAppend(kept, [row], ForUser(userId));
    WhereNone(kept, ForUser(userId));
    WhereAppend(kept, [row], NotForUser(userId));
    WhereIdempotent(resets.rows, NotForUser(userId));
  }

  // ---------------------------------------------------------------------
  // resetPassword

  /** `WHERE token = ? AND expires_at > NOW() AND used = 0` */
  function Live(token: Value, now: int): Row<Reset> -> bool {
    (r: Row<Reset>) => SqlEq(r.data.token, token) && r.data.expiresAt > now && r.data.used == 0
  }

  /** `SET passwort = ?, passwort_geaendert = 1` */
  function NewPassword(hashed: Value): Board.Member -> Board.Member {
    (m: Board.Member) => m.(passwort := hashed, passwortGeaendert := Num(1))
  }

  /** `SET used = 1` */
  function Spend(r: Reset): Reset {
    r.(used := 1)
  }

  /** `resetPassword`: a truthy token and password (400); `decoded` is the
      verified token's payload, None when the signature or the token's own
      expiry fails (500); the payload type (403); a live unused row for the
      token (400); then the password of that row's user is replaced and the
      row is spent. */
  function ResetRule(db: Db, body: map<string, Value>, decoded: Option<Value>, now: int, hash: Value -> Value): (r: Outcome)
    ensures r.status in {Http.BadRequest, Http.Internal, Http.Forbidden, Http.Ok}
    ensures r.status != Http.Ok ==> r.db == db
    ensures (!Truthy(Field(body, "token")) || !Truthy(Field(body, "neuesPasswort"))) ==> r.status == Http.BadRequest
    ensures Truthy(Field(body, "token")) && Truthy(Field(body, "neuesPasswort")) && decoded.None? ==>
      r.status == Http.Internal
    ensures Truthy(Field(body, "token")) && Truthy(Field(body, "neuesPasswort")) && decoded.Some? &&
            Prop(decoded.value, "type") != Str("password_reset") ==>
      r.status == Http.Forbidden
    ensures Truthy(Field(body, "token")) && Truthy(Field(body, "neuesPasswort")) && decoded.Some? &&
            Prop(decoded.value, "type") == Str("password_reset") &&
            Where(db.resets.rows, Live(Field(body, "token"), now)) == [] ==>
      r.status == Http.BadRequest
    ensures r.status == Http.Ok <==>
      && Truthy(Field(body, "token")) && Truthy(Field(body, "neuesPasswort"))
      && decoded.Some? && Prop(decoded.value, "type") == Str("password_reset")
      && Where(db.resets.rows, Live(Field(body, "token"), now)) != []
    ensures r.status == Http.Ok ==>
      var reset := Where(db.resets.rows, Live(Field(body, "token"), now))[0];
      r.db == Db(Store(Modify(db.members.rows, IdEq(reset.data.userId), NewPassword(hash(Field(body, "neuesPasswort")))),
                       db.members.next),
                 Store(Modify(db.resets.rows, IdEq(reset.id), Spend), db.resets.next))
    ensures Sound(db) ==> Sound(r.db)
  {
    var token, pw := Field(body, "token"), Field(body, "neuesPasswort");
    if !Truthy(token) || !Truthy(pw) then Outcome(Http.BadRequest, db)
    else if decoded.None? then Outcome(Http.Internal, db)
    else if Prop(decoded.value, "type") != Str("password_reset") then Outcome(Http.Forbidden, db)
    else
      var rows := Where(db.resets.rows, Live(token, now));
      if rows == [] then Outcome(Http.BadRequest, db)
      else
        var reset := rows[0];
        var members := Modify(db.members.rows, IdEq(reset.data.userId), NewPassword(hash(pw)));
        var resets := Modify(db.resets.rows, IdEq(reset.id), Spend);
        assert Sound(db) ==> Keyed(members, db.members.next) && Keyed(resets, db.resets.next) by {
          if Sound(db) {
            ModifyKeyed(db.members.rows, db.members.next, IdEq(reset.data.userId), NewPassword(hash(pw)));
            ModifyKeyed(db.resets.rows, db.resets.next, IdEq(reset.id), Spend);
          }
        }
        Outcome(Http.Ok, Db(Store(members, db.members.next), Store(resets, db.resets.next)))
  }

  /** Only one row carries the token. */
  ghost predicate TokenOnce(t: seq<Row<Reset>>, token: Value) {
    forall i, j :: 0 <= i < |t| && 0 <= j < |t| && SqlEq(t[i].data.token, token) && SqlEq(t[j].data.token, token) ==> i == j
  }

  /** A token works once: after a successful reset, the same token fails
      whatever the time, the password and the payload. */
  lemma SingleUse(db: Db, body: map<string, Value>, decoded: Option<Value>, now: int, hash: Value -> Value,
                  body2: map<string, Value>, decoded2: Option<Value>, now2: int, hash2: Value -> Value)
    requires Sound(db) && TokenOnce(db.resets.rows, Field(body, "token"))
    requires ResetRule(db, body, decoded, now, hash).status == Http.Ok
    requires Field(body2, "token") == Field(body, "token")
    ensures ResetRule(ResetRule(db, body, decoded, now, hash).db, body2, decoded2, now2, hash2).status != Http.Ok
  {
    var token := Field(body, "token");
    var t := db.resets.rows;
    var reset := Where(t, Live(token, now))[0];
    var after := ResetRule(db, body, decoded, now, hash).db.resets.rows;
    assert reset in t && Live(token, now)(reset);
    var k :| 0 <= k < |t| && t[k] == reset;
    forall i | 0 <= i < |after| ensures !Live(token, now2)(after[i]) {
      ModifyAt(t, IdEq(reset.id), Spend, i);
      if SqlEq(after[i].data.token, token) {
        assert i == k;
      }
    }
    WhereNone(after, Live(token, now2));
  }

  /** A token is refused once its row has expired, and nothing changes. */
  lemma ExpiredRefused(db: Db, body: map<string, Value>, decoded: Option<Value>, now: int, hash: Value -> Value)
    requires forall i :: 0 <= i < |db.resets.rows| && SqlEq(db.resets.rows[i].data.token, Field(body, "token")) ==>
      db.resets.rows[i].data.expiresAt <= now
    ensures ResetRule(db, body, decoded, now, hash).status != Http.Ok
    ensures ResetRule(db, body, decoded, now, hash).db == db
  {
    WhereNone(db.resets.rows, Live(Field(body, "token"), now));
  }

  /** A request with a token not yet in the table keeps every token once. */
  lemma RequestKeepsTokenOnce(resets: Store<Reset>, userId: int, token: Value, now: int, other: Value)
    requires WellKeyed(resets) && TokenOnce(resets.rows, other)
    requires forall i :: 0 <= i < |resets.rows| ==> !SqlEq(resets.rows[i].data.token, token)
    ensures TokenOnce(Reissued(resets, userId, token, now).rows, other)
  {
    var kept := Where(resets.rows, NotForUser(userId));
    WhereKeyed(resets.rows, resets.next, NotForUser(userId));
    var after := Reissued(resets, userId, token, now).rows;
    forall i, j | 0 <= i < |after| && 0 <= j < |after| && SqlEq(after[i].data.token, other) && SqlEq(after[j].data.token, other)
      ensures i == j
    {
    }
  }

  // ---------------------------------------------------------------------
  // The store

  class ResetStore {
    var members: seq<Row<Board.Member>>
    var memberNext: int
    var resets: seq<Row<Reset>>
    var resetNext: int

    function State(): Db
      reads this
    {
      Db(Store(members, memberNext), Store(resets, resetNext))
    }

    ghost predicate Valid()
      reads this
    {
      Sound(State())
    }

    constructor (members: seq<Row<Board.Member>>, memberNext: int)
      requires WellKeyed(Store(members, memberNext))
      ensures Valid() && this.members == members && resets == []
    {
      this.members, this.memberNext, resets, resetNext := members, memberNext, [], 1;
    }

    /** `requestReset` */
    method RequestReset(body: map<string, Value>, token: Value, now: int, mailSent: bool) returns (status: int)
      requires Valid()
      modifies this
      ensures Valid()
      ensures Outcome(status, State()) == RequestRule(old(State()), body, token, now, mailSent)
    {
      var benutzername := Field(body, "benutzername");
      if !Truthy(benutzername) {
        return Http.BadRequest;
      }
      var users := Where(members, Board.NamedAs(benutzername));
      if |users| == 0 {
        return Http.NotFound;
      }
      var user := users[0];
      ghost var before := State();
      assert Requested(before, benutzername) == Some(user);
      WhereKeyed(resets, resetNext, NotForUser(user.id));
      resets := Where(resets, NotForUser(user.id));
      var expiresAt := now + 60 * 60 * 1000;
      resets, resetNext := resets + [Row(resetNext, Reset(user.id, token, expiresAt, 0))], resetNext + 1;
      assert Store(resets, resetNext) == Reissued(before.resets, user.id, token, now);
      assert State() == before.(resets := Reissued(before.resets, user.id, token, now));
      if !mailSent {
        return Http.Internal;
      }
      return Http.Ok;
    }

    /** `resetPassword` */
    method ResetPassword(body: map<string, Value>, decoded: Option<Value>, now: int, hash: Value -> Value)
      returns (status: int)
      requires Valid()
      modifies this
      ensures Valid()
      ensures Outcome(status, State()) == ResetRule(old(State()), body, decoded, now, hash)
    {
      var token, neuesPasswort := Field(body, "token"), Field(body, "neuesPasswort");
      if !Truthy(token) || !Truthy(neuesPasswort) {
        return Http.BadRequest;
      }
      if decoded.None? {
        return Http.Internal;
      }
      if Prop(decoded.value, "type") != Str("password_reset") {
        return Http.Forbidden;
      }
      var rows := Where(resets, Live(token, now));
      if |rows| == 0 {
        return Http.BadRequest;
      }
      var reset := rows[0];
      var hashed := hash(neuesPasswort);
      ModifyKeyed(members, memberNext, IdEq(reset.data.userId), NewPassword(hashed));
      ModifyKeyed(resets, resetNext, IdEq(reset.id), Spend);
      members := Modify(members, IdEq(reset.data.userId), NewPassword(hashed));
      resets := Modify(resets, IdEq(reset.id), Spend);
      return Http.Ok;
    }
  }
}
