/** The board-member table (`vorstand`): creating members, the login list,
    a member's own profile and its update, and the password changes. The
    password hash and the photo conversion are parameters. */
module Board {
  import opened Js
  import opened Table
  import opened Auth
  import Http
  import DataUri

  /** A row of `vorstand`. `passwort` holds the hash; `passwortGeaendert` is
      the flag the password reset sets, 0 for a new row. */
  datatype Member = Member(
    geschlecht: Value, vorname: Value, nachname: Value, adresse: Value, plz: Value, ort: Value,
    benutzername: Value, passwort: Value, telefon: Value, email: Value, foto: Value,
    beschreibung: Value, rolle: Value, passwortGeaendert: Value)

  /** A row of the separate `vorstands` table the profile lookup falls back to. */
  datatype Account = Account(benutzername: Value, email: Value, foto: Value)

  datatype Db = Db(members: Store<Member>, accounts: seq<Row<Account>>)

  ghost predicate Sound(db: Db) {
    WellKeyed(db.members)
  }

  datatype Outcome = Outcome(status: int, db: Db)

  /** `WHERE benutzername = ?` */
  function NamedAs(name: Value): Row<Member> -> bool {
    (r: Row<Member>) => SqlEq(r.data.benutzername, name)
  }

  /** `WHERE id = ?` */
  function MemberIs(param: Value): Row<Member> -> bool {
    (r: Row<Member>) => IdIs(r.id, param)
  }

  /** No two rows share a user name. */
  ghost predicate UniqueNames(t: seq<Row<Member>>) {
    forall i, j :: 0 <= i < j < |t| ==> !SqlEq(t[i].data.benutzername, t[j].data.benutzername)
  }

  // ---------------------------------------------------------------------
  // createVorstand

  /** The eleven fields that must all be truthy, `rolle` included;
      `beschreibung` and `foto` are optional. */
  const RequiredFields: seq<string> :=
    ["geschlecht", "vorname", "nachname", "adresse", "plz", "ort", "benutzername", "passwort", "telefon", "email", "rolle"]

  predicate HasRequired(body: map<string, Value>) {
    forall k :: k in RequiredFields ==> Truthy(Field(body, k))
  }

  /** The photo step: no photo, the converted one, or the answer. */
  datatype PhotoStep = Photo(foto: Value) | Answer(status: int)

  /** `if (foto) { ... }`: a truthy photo must be a string (`foto.match`
      throws otherwise), match the letters-only data-URI pattern and carry
      one of the four MIME types exactly as written; `convert` stands for the
      resize and PNG re-encoding, None when it throws. */
  function PhotoOf(foto: Value, convert: string -> Option<string>): (r: PhotoStep)
    ensures !Truthy(foto) ==> r == Photo(Null)
    ensures Truthy(foto) && !foto.Str? ==> r == Answer(Http.Internal)
    ensures Truthy(foto) && foto.Str? && DataUri.CheckMemberPhoto(foto.s).Refused? ==> r == Answer(Http.BadRequest)
    ensures Truthy(foto) && foto.Str? && DataUri.CheckMemberPhoto(foto.s).Accepted? ==>
      r == (match convert(DataUri.CheckMemberPhoto(foto.s).payload)
            case None => Answer(Http.Internal)
            case Some(b) => Photo(Str(b)))
  {
    if !Truthy(foto) then Photo(Null)
    else if !foto.Str? then Answer(Http.Internal)
    else match DataUri.CheckMemberPhoto(foto.s)
      case Refused(_) => Answer(Http.BadRequest)
      case Accepted(_, payload) =>
        match convert(payload)
        case None => Answer(Http.Internal)
        case Some(b) => Photo(Str(b))
  }

  /** The inserted row: the sent fields, the hash for the password, the
      photo step's value, `beschreibung || null`. */
  function NewMember(body: map<string, Value>, hashed: Value, foto: Value): (r: Member)
    ensures r.benutzername == Field(body, "benutzername") && r.passwort == hashed && r.foto == foto
    ensures r.beschreibung == (if Truthy(Field(body, "beschreibung")) then Field(body, "beschreibung") else Null)
    ensures r.passwortGeaendert == Num(0)
  {
    Member(Field(body, "geschlecht"), Field(body, "vorname"), Field(body, "nachname"), Field(body, "adresse"),
           Field(body, "plz"), Field(body, "ort"), Field(body, "benutzername"), hashed, Field(body, "telefon"),
           Field(body, "email"), foto, Or(Field(body, "beschreibung"), Null), Field(body, "rolle"), Num(0))
  }

  predicate NameTaken(db: Db, name: Value) {
    Where(db.members.rows, NamedAs(name)) != []
  }

  /** `createVorstand`: role (403), the required fields (400), a free user
      name (409), the photo (400, or 500 when conversion fails), then one
      new row. */
  function CreateRule(db: Db, user: Value, body: map<string, Value>, hash: Value -> Value,
                      convert: string -> Option<string>): (r: Outcome)
    ensures !HasRoleArray(user) ==> r == Outcome(Http.Forbidden, db)
    ensures HasRoleArray(user) && !HasRequired(body) ==> r == Outcome(Http.BadRequest, db)
    ensures HasRoleArray(user) && HasRequired(body) && NameTaken(db, Field(body, "benutzername")) ==>
      r == Outcome(Http.Conflict, db)
    ensures r.status == Http.Created <==>
      HasRoleArray(user) && HasRequired(body) && !NameTaken(db, Field(body, "benutzername")) &&
      PhotoOf(Field(body, "foto"), convert).Photo?
    ensures r.status != Http.Created ==> r.db == db
    ensures r.status == Http.Created ==>
      r.db == db.(members := Insert(db.members, NewMember(body, hash(Field(body, "passwort")),
                                                          PhotoOf(Field(body, "foto"), convert).foto)))
    ensures Sound(db) ==> Sound(r.db)
  {
    if RoleArrayChained(user).Some? then Outcome(Http.Forbidden, db)
    else if !HasRequired(body) then Outcome(Http.BadRequest, db)
    else if NameTaken(db, Field(body, "benutzername")) then Outcome(Http.Conflict, db)
    else match PhotoOf(Field(body, "foto"), convert)
      case Answer(status) => Outcome(status, db)
      case Photo(foto) =>
        Outcome(Http.Created, db.(members := Insert(db.members, NewMember(body, hash(Field(body, "passwort")), foto))))
  }

  /** Once role, fields and name pass, the photo step decides: its answer,
      or the new row with the hashed password and the converted photo. */
  lemma CreateChecked(db: Db, user: Value, body: map<string, Value>, hash: Value -> Value,
                      convert: string -> Option<string>)
    requires HasRoleArray(user) && HasRequired(body) && !NameTaken(db, Field(body, "benutzername"))
    ensures CreateRule(db, user, body, hash, convert) ==
      match PhotoOf(Field(body, "foto"), convert)
      case Answer(status) => Outcome(status, db)
      case Photo(foto) =>
        Outcome(Http.Created, db.(members := Insert(db.members, NewMember(body, hash(Field(body, "passwort")), foto))))
  {
  }

  /** Creating a member never makes two rows share a user name. */
  lemma CreateKeepsNamesUnique(db: Db, user: Value, body: map<string, Value>, hash: Value -> Value,
                               convert: string -> Option<string>)
    requires UniqueNames(db.members.rows)
    ensures UniqueNames(CreateRule(db, user, body, hash, convert).db.members.rows)
  {
    var r := CreateRule(db, user, body, hash, convert);
    if r.status == Http.Created {
      var t, name := db.members.rows, Field(body, "benutzername");
      var after := r.db.members.rows;
      forall i, j | 0 <= i < j < |after| ensures !SqlEq(after[i].data.benutzername, after[j].data.benutzername) {
      }
    }
  }

  // ---------------------------------------------------------------------
  // getVorstandLogins

  datatype Login = Login(benutzername: Value, vorname: Value, nachname: Value)

  function Logins(t: seq<Row<Member>>): (r: seq<Login>)
    ensures |r| == |t|
    ensures forall i :: 0 <= i < |t| ==> r[i] == Login(t[i].data.benutzername, t[i].data.vorname, t[i].data.nachname)
  {
    seq(|t|, i requires 0 <= i < |t| => Login(t[i].data.benutzername, t[i].data.vorname, t[i].data.nachname))
  }

  // ---------------------------------------------------------------------
  // getMyProfile

  /** The three answers of `getMyProfile`. */
  datatype Profile =
    | Full(id: int, vorname: Value, nachname: Value, adresse: Value, plz: Value, ort: Value, telefon: Value,
           email: Value, beschreibung: Value, benutzername: Value, foto: Value)
    | FromAccount(id: int, benutzername: Value, email: Value, foto: Value)
    | Basic(claimedId: Value, claimedName: Value)

  /** `WHERE id = ? OR benutzername = ?` with the claims' id and name. */
  function MemberMatches(claims: Value): Row<Member> -> bool {
    (r: Row<Member>) => IdIs(r.id, Prop(claims, "id")) || SqlEq(r.data.benutzername, Prop(claims, "benutzername"))
  }

  function AccountMatches(claims: Value): Row<Account> -> bool {
    (r: Row<Account>) => IdIs(r.id, Prop(claims, "id")) || SqlEq(r.data.benutzername, Prop(claims, "benutzername"))
  }

  function FullOf(r: Row<Member>): Profile {
    var m := r.data;
    Full(r.id, m.vorname, m.nachname, m.adresse, m.plz, m.ort, m.telefon, m.email, m.beschreibung,
         m.benutzername, Or(m.foto, Null))
  }

  /** `getMyProfile`: None when there are no claims (destructuring them
      throws, answered with 500); otherwise the first matching board row,
      else for a `userType` of "vorstand" the first matching `vorstands`
      row, else the claims themselves. Every answer is 200. The contract
      says which source answers and pins each answer's fields to that row
      (or to the claims); `ProfileFallbacks` says when each source is
      reached. */
  function ProfileOf(db: Db, claims: Value): (r: Option<Profile>)
    ensures r.None? <==> Nullish(claims)
    ensures (r.Some? && r.value.Full?) <==> !Nullish(claims) && MemberFound(db, claims)
    ensures (r.Some? && r.value.Full?) ==> r.value == FullOf(First(db.members.rows, MemberMatches(claims)).value)
    ensures (r.Some? && r.value.FromAccount?) <==>
      && !Nullish(claims) && !MemberFound(db, claims)
      && Prop(claims, "userType") == Vorstand && First(db.accounts, AccountMatches(claims)).Some?
    ensures (r.Some? && r.value.FromAccount?) ==>
      var a := First(db.accounts, AccountMatches(claims)).value;
      r.value == FromAccount(a.id, a.data.benutzername, a.data.email, Or(a.data.foto, Null))
    ensures (r.Some? && r.value.Basic?) ==> r.value == Basic(Prop(claims, "id"), Prop(claims, "benutzername"))
  {
    if Nullish(claims) then None
    else match First(db.members.rows, MemberMatches(claims))
      case Some(v) => Some(FullOf(v))
      case None =>
        if Prop(claims, "userType") == Vorstand && First(db.accounts, AccountMatches(claims)).Some? then
          var a := First(db.accounts, AccountMatches(claims)).value;
          Some(FromAccount(a.id, a.data.benutzername, a.data.email, Or(a.data.foto, Null)))
        else Some(Basic(Prop(claims, "id"), Prop(claims, "benutzername")))
  }

  /** Some board row matches the claims' id or name. */
  predicate MemberFound(db: Db, claims: Value) {
    First(db.members.rows, MemberMatches(claims)).Some?
  }

  /** A board row found by the claims wins over any `vorstands` row, whatever
      the `userType`; a `userType` other than "vorstand" never reaches the
      `vorstands` table. */
  lemma ProfileFallbacks(db: Db, claims: Value)
    requires !Nullish(claims)
    ensures (exists i :: 0 <= i < |db.members.rows| && MemberMatches(claims)(db.members.rows[i])) ==>
      ProfileOf(db, claims).value.Full?
    ensures Prop(claims, "userType") != Vorstand && !MemberFound(db, claims) ==>
      ProfileOf(db, claims) == Some(Basic(Prop(claims, "id"), Prop(claims, "benutzername")))
  {
    if exists i :: 0 <= i < |db.members.rows| && MemberMatches(claims)(db.members.rows[i]) {
      var i :| 0 <= i < |db.members.rows| && MemberMatches(claims)(db.members.rows[i]);
      assert MemberFound(db, claims);
    }
  }

  // ---------------------------------------------------------------------
  // updateMyProfile

  /** What `req.file` brings: nothing, a converted photo (the bare base64
      text), or a file whose conversion throws. */
  datatype Upload = NoFile | Converted(data: string) | ConversionFails

  /** The nine columns the statement always sets, from the body (`undefined`
      stored as NULL), and `foto` only for a non-empty converted upload. */
  function ProfileSet(body: map<string, Value>, upload: Upload): Member -> Member {
    (m: Member) =>
      var m1 := m.(vorname := Stored(Field(body, "vorname")), nachname := Stored(Field(body, "nachname")),
                   adresse := Stored(Field(body, "adresse")), plz := Stored(Field(body, "plz")),
                   ort := Stored(Field(body, "ort")), telefon := Stored(Field(body, "telefon")),
                   email := Stored(Field(body, "email")), beschreibung := Stored(Field(body, "beschreibung")),
                   benutzername := Stored(Field(body, "benutzername")));
      if upload.Converted? && upload.data != "" then m1.(foto := Str(upload.data)) else m1
  }

  /** `updateMyProfile`: no claims or a failing conversion is 500; otherwise
      the row with the claims' id is overwritten and the answer is 200,
      whether or not such a row exists. */
  function UpdateProfileRule(db: Db, claims: Value, body: map<string, Value>, upload: Upload): (r: Outcome)
    ensures r.status in {Http.Ok, Http.Internal}
    ensures r.status == Http.Internal <==> Nullish(claims) || upload.ConversionFails?
    ensures r.status == Http.Internal ==> r.db == db
    ensures r.status == Http.Ok ==>
      r.db == db.(members := Store(Modify(db.members.rows, MemberIs(Prop(claims, "id")), ProfileSet(body, upload)),
                                   db.members.next))
    ensures Sound(db) ==> Sound(r.db)
  {
    if Nullish(claims) || upload.ConversionFails? then Outcome(Http.Internal, db)
    else
      var rows := Modify(db.members.rows, MemberIs(Prop(claims, "id")), ProfileSet(body, upload));
      assert Sound(db) ==> Keyed(rows, db.members.next) by {
        if Sound(db) { ModifyKeyed(db.members.rows, db.members.next, MemberIs(Prop(claims, "id")), ProfileSet(body, upload)); }
      }
      Outcome(Http.Ok, db.(members := Store(rows, db.members.next)))
  }

  /** The own row gets all nine sent fields, the photo only from a non-empty
      upload, and keeps gender, password, role and the changed flag; every
      other row stays as it was. */
  lemma UpdateProfileColumns(db: Db, claims: Value, body: map<string, Value>, upload: Upload, i: int)
    requires UpdateProfileRule(db, claims, body, upload).status == Http.Ok && 0 <= i < |db.members.rows|
    ensures var before := db.members.rows[i];
      var after := UpdateProfileRule(db, claims, body, upload).db.members.rows[i];
      && after.id == before.id
      && (!IdIs(before.id, Prop(claims, "id")) ==> after == before)
      && (IdIs(before.id, Prop(claims, "id")) ==>
            && after.data.vorname == Stored(Field(body, "vorname"))
            && after.data.benutzername == Stored(Field(body, "benutzername"))
            && after.data.beschreibung == Stored(Field(body, "beschreibung"))
            && after.data.foto == (if upload.Converted? && upload.data != "" then Str(upload.data) else before.data.foto)
            && after.data.geschlecht == before.data.geschlecht && after.data.passwort == before.data.passwort
            && after.data.rolle == before.data.rolle && after.data.passwortGeaendert == before.data.passwortGeaendert)
  {
    ModifyAt(db.members.rows, MemberIs(Prop(claims, "id")), ProfileSet(body, upload), i);
  }

  /** Unlike `createVorstand`, the profile update does not look for the
      user name: it can give a member the name another member has. */
  lemma ProfileUpdateCanDuplicateName()
    ensures var m := Member(Null, Null, Null, Null, Null, Null, Str("a"), Null, Null, Null, Null, Null, Null, Num(0));
      var db := Db(Store([Row(1, m), Row(2, m.(benutzername := Str("b")))], 3), []);
      var after := UpdateProfileRule(db, Obj(map["id" := Num(2)]), map["benutzername" := Str("a")], NoFile).db;
      UniqueNames(db.members.rows) && !UniqueNames(after.members.rows)
  {
    var m := Member(Null, Null, Null, Null, Null, Null, Str("a"), Null, Null, Null, Null, Null, Null, Num(0));
    var db := Db(Store([Row(1, m), Row(2, m.(benutzername := Str("b")))], 3), []);
    var claims, body := Obj(map["id" := Num(2)]), map["benutzername" := Str("a")];
    var after := UpdateProfileRule(db, claims, body, NoFile).db;
    assert Prop(claims, "id") == Num(2);
    ModifyAt(db.members.rows, MemberIs(Num(2)), ProfileSet(body, NoFile), 0);
    ModifyAt(db.members.rows, MemberIs(Num(2)), ProfileSet(body, NoFile), 1);
    assert Field(body, "benutzername") == Str("a");
    assert after.members.rows[1].data.benutzername == Str("a");
  }

  // ---------------------------------------------------------------------
  // changePasswordByvorstand, changeMultiplePasswords

  /** `SET passwort = ?` */
  function SetPassword(hashed: Value): Member -> Member {
    (m: Member) => m.(passwort := hashed)
  }

  /** `changePasswordByvorstand`: the string `userType` "vorstand" (403),
      a truthy id and password (400), then the UPDATE; 200 whether or not a
      row had the id. */
  function ChangePasswordRule(db: Db, claims: Value, body: map<string, Value>, hash: Value -> Value): (r: Outcome)
    ensures UserTypeInTry(claims).Some? ==> r == Outcome(UserTypeInTry(claims).value, db)
    ensures UserTypeIsVorstand(claims) && (!Truthy(Field(body, "id")) || !Truthy(Field(body, "neuesPasswort"))) ==>
      r == Outcome(Http.BadRequest, db)
    ensures r.status == Http.Ok <==>
      UserTypeIsVorstand(claims) && Truthy(Field(body, "id")) && Truthy(Field(body, "neuesPasswort"))
    ensures r.status == Http.Ok ==>
      r.db == db.(members := Store(Modify(db.members.rows, MemberIs(Field(body, "id")),
                                          SetPassword(hash(Field(body, "neuesPasswort")))), db.members.next))
    ensures Sound(db) ==> Sound(r.db)
  {
    var id, pw := Field(body, "id"), Field(body, "neuesPasswort");
    if UserTypeInTry(claims).Some? then Outcome(UserTypeInTry(claims).value, db)
    else if !Truthy(id) || !Truthy(pw) then Outcome(Http.BadRequest, db)
    else
      var rows := Modify(db.members.rows, MemberIs(id), SetPassword(hash(pw)));
      assert Sound(db) ==> Keyed(rows, db.members.next) by {
        if Sound(db) { ModifyKeyed(db.members.rows, db.members.next, MemberIs(id), SetPassword(hash(pw))); }
      }
      Outcome(Http.Ok, db.(members := Store(rows, db.members.next)))
  }

  /** `!update.id || !update.neuesPasswort` */
  predicate Incomplete(u: Value) {
    !Truthy(Prop(u, "id")) || !Truthy(Prop(u, "neuesPasswort"))
  }

  /** The validation loop: the first entry that is null (reading its id
      throws, 500) or incomplete (400) decides; None when every entry is
      complete. */
  function FirstInvalid(updates: seq<Value>): (r: Option<int>)
    ensures r.None? <==> forall i :: 0 <= i < |updates| ==> !Nullish(updates[i]) && !Incomplete(updates[i])
    ensures r.Some? ==> r.value in {Http.Internal, Http.BadRequest}
    ensures r == Some(Http.Internal) <==>
      exists i :: 0 <= i < |updates| && Nullish(updates[i]) && AllValid(updates[..i])
  {
    if updates == [] then None
    else if Nullish(updates[0]) then
      assert AllValid(updates[..0]);
      Some(Http.Internal)
    else if Incomplete(updates[0]) then
      assert forall i :: 0 < i < |updates| ==> !AllValid(updates[..i]) by {
        forall i | 0 < i < |updates| ensures !AllValid(updates[..i]) {
          assert updates[..i][0] == updates[0];
        }
      }
      Some(Http.BadRequest)
    else
      var rest := FirstInvalid(updates[1..]);
      FirstInvalidShift(updates);
      rest
  }

  /** Every entry is a complete object. */
  predicate AllValid(updates: seq<Value>) {
    forall i :: 0 <= i < |updates| ==> !Nullish(updates[i]) && !Incomplete(updates[i])
  }

  lemma FirstInvalidShift(updates: seq<Value>)
    requires updates != [] && !Nullish(updates[0]) && !Incomplete(updates[0])
    ensures (exists i :: 0 <= i < |updates| && Nullish(updates[i]) && AllValid(updates[..i])) <==>
            (exists i :: 0 <= i < |updates[1..]| && Nullish(updates[1..][i]) && AllValid(updates[1..][..i]))
  {
    var tail := updates[1..];
    if exists i :: 0 <= i < |updates| && Nullish(updates[i]) && AllValid(updates[..i]) {
      var i :| 0 <= i < |updates| && Nullish(updates[i]) && AllValid(updates[..i]);
      assert i > 0;
      assert tail[..i - 1] == updates[1..i];
      assert Nullish(tail[i - 1]) && AllValid(tail[..i - 1]);
    }
    if exists i :: 0 <= i < |tail| && Nullish(tail[i]) && AllValid(tail[..i]) {
      var i :| 0 <= i < |tail| && Nullish(tail[i]) && AllValid(tail[..i]);
      assert updates[..i + 1] == [updates[0]] + tail[..i];
      assert Nullish(updates[i + 1]) && AllValid(updates[..i + 1]);
    }
  }

  /** The UPDATEs of the first `|updates|` entries, in order. */
  function Repassword(t: seq<Row<Member>>, updates: seq<Value>, hash: Value -> Value): (r: seq<Row<Member>>)
    ensures |r| == |t|
    decreases |updates|
  {
    if updates == [] then t
    else
      var u := updates[|updates| - 1];
      Modify(Repassword(t, updates[..|updates| - 1], hash), MemberIs(Prop(u, "id")), SetPassword(hash(Prop(u, "neuesPasswort"))))
  }

  /** The last entry naming the row id. */
  function LastFor(updates: seq<Value>, id: int): (r: Option<nat>)
    ensures r.None? <==> forall k :: 0 <= k < |updates| ==> !IdIs(id, Prop(updates[k], "id"))
    ensures r.Some? ==> r.value < |updates| && IdIs(id, Prop(updates[r.value], "id"))
    ensures r.Some? ==> forall k :: r.value < k < |updates| ==> !IdIs(id, Prop(updates[k], "id"))
    decreases |updates|
  {
    if updates == [] then None
    else if IdIs(id, Prop(updates[|updates| - 1], "id")) then Some(|updates| - 1)
    else
      assert forall k :: 0 <= k < |updates| - 1 ==> updates[..|updates| - 1][k] == updates[k];
      LastFor(updates[..|updates| - 1], id)
  }

  /** `changeMultiplePasswords`: no role check; a non-empty array (400);
      every entry checked before any change (400, or 500 for a null entry);
      then every entry's UPDATE. */
  function ChangeManyRule(db: Db, body: map<string, Value>, hash: Value -> Value): (r: Outcome)
    ensures r.status in {Http.Ok, Http.BadRequest, Http.Internal}
    ensures r.status != Http.Ok ==> r.db == db
    ensures r.status == Http.Ok <==>
      Field(body, "updates").Arr? && Field(body, "updates").items != [] && AllValid(Field(body, "updates").items)
    ensures (!Field(body, "updates").Arr? || Field(body, "updates").items == []) ==> r.status == Http.BadRequest
    ensures Field(body, "updates").Arr? && Field(body, "updates").items != [] &&
            FirstInvalid(Field(body, "updates").items).Some? ==>
      r.status == FirstInvalid(Field(body, "updates").items).value
    ensures r.status == Http.Ok ==>
      r.db == db.(members := Store(Repassword(db.members.rows, Field(body, "updates").items, hash), db.members.next))
    ensures Sound(db) ==> Sound(r.db)
  {
    var updates := Field(body, "updates");
    if !updates.Arr? || |updates.items| == 0 then Outcome(Http.BadRequest, db)
    else if FirstInvalid(updates.items).Some? then Outcome(FirstInvalid(updates.items).value, db)
    else
      RepasswordKeyed(db.members.rows, updates.items, hash, db.members.next);
      Outcome(Http.Ok, db.(members := Store(Repassword(db.members.rows, updates.items, hash), db.members.next)))
  }

  lemma {:induction false} RepasswordKeyed(t: seq<Row<Member>>, updates: seq<Value>, hash: Value -> Value, next: int)
    ensures Keyed(t, next) ==> Keyed(Repassword(t, updates, hash), next)
    decreases |updates|
  {
    if updates != [] {
      var prefix := updates[..|updates| - 1];
      var u := updates[|updates| - 1];
      RepasswordKeyed(t, prefix, hash, next);
      if Keyed(t, next) {
        ModifyKeyed(Repassword(t, prefix, hash), next, MemberIs(Prop(u, "id")), SetPassword(hash(Prop(u, "neuesPasswort"))));
      }
    }
  }

  /** After the bulk change a row named by an entry has the hash of the
      password of the last entry naming it; every other row, and every
      column but the password, is as before. */
  lemma {:induction false} RepasswordRow(t: seq<Row<Member>>, updates: seq<Value>, hash: Value -> Value, j: int)
    requires 0 <= j < |t|
    ensures var r := Repassword(t, updates, hash)[j];
      && r.id == t[j].id && r.data == t[j].data.(passwort := r.data.passwort)
      && r.data.passwort == match LastFor(updates, t[j].id)
                            case Some(k) => hash(Prop(updates[k], "neuesPasswort"))
                            case None => t[j].data.passwort
    decreases |updates|
  {
    if updates != [] {
      RepasswordRow(t, updates[..|updates| - 1], hash, j);
    }
  }

  // ---------------------------------------------------------------------
  // The store

  class BoardStore {
    var members: seq<Row<Member>>
    var memberNext: int
    var accounts: seq<Row<Account>>

    function State(): Db
      reads this
    {
      Db(Store(members, memberNext), accounts)
    }

    ghost predicate Valid()
      reads this
    {
      Sound(State())
    }

    constructor (accounts: seq<Row<Account>>)
      ensures Valid() && members == [] && this.accounts == accounts
    {
      members, memberNext, this.accounts := [], 1, accounts;
    }

    /** `createVorstand` */
    method CreateVorstand(user: Value, body: map<string, Value>, hash: Value -> Value,
                          convert: string -> Option<string>) returns (status: int)
      requires Valid()
      modifies this
      ensures Valid()
      ensures Outcome(status, State()) == CreateRule(old(State()), user, body, hash, convert)
    {
      var refused := RoleArrayChained(user);
      if refused.Some? {
        return refused.value;
      }
      var complete := CheckRequired(body);
      if !complete {
        return Http.BadRequest;
      }
      var benutzername := Field(body, "benutzername");
      var existing := Where(members, NamedAs(benutzername));
      if |existing| > 0 {
        return Http.Conflict;
      }
      status := InsertChecked(user, body, hash, convert);
    }

    /** The rest of `createVorstand` once role, fields and name pass: the
        password hash, the photo, then the INSERT. */
    method InsertChecked(user: Value, body: map<string, Value>, hash: Value -> Value,
                         convert: string -> Option<string>) returns (status: int)
      requires Valid()
      requires HasRoleArray(user) && HasRequired(body) && !NameTaken(State(), Field(body, "benutzername"))
      modifies this
      ensures Valid()
      ensures Outcome(status, State()) == CreateRule(old(State()), user, body, hash, convert)
    {
      var hashedPassword := hash(Field(body, "passwort"));
      CreateChecked(State(), user, body, hash, convert);
      var photo := ConvertPhoto(Field(body, "foto"), convert);
      if photo.Answer? {
        return photo.status;
      }
      var stored := Insert(Store(members, memberNext), NewMember(body, hashedPassword, photo.foto));
      members, memberNext := stored.rows, stored.next;
      return Http.Created;
    }

    /** `getVorstandLogins` */
    method GetVorstandLogins(user: Value) returns (status: int, logins: seq<Login>)
      ensures IncludesVorstandInTry(user).Some? ==> status == IncludesVorstandInTry(user).value && logins == []
      ensures IncludesVorstandInTry(user).None? ==> status == Http.Ok && logins == Logins(members)
    {
      var refused := IncludesVorstandInTry(user);
      if refused.Some? {
        return refused.value, [];
      }
      return Http.Ok, Logins(members);
    }

    /** `getMyProfile` */
    method GetMyProfile(claims: Value) returns (status: int, profile: Option<Profile>)
      ensures profile == ProfileOf(State(), claims)
      ensures status == if profile.Some? then Http.Ok else Http.Internal
    {
      if Nullish(claims) {
        return Http.Internal, None;
      }
      var rows := First(members, MemberMatches(claims));
      if rows.Some? {
        return Http.Ok, Some(FullOf(rows.value));
      }
      if Prop(claims, "userType") == Vorstand {
        var vorstandRows := First(accounts, AccountMatches(claims));
        if vorstandRows.Some? {
          var a := vorstandRows.value;
          return Http.Ok, Some(FromAccount(a.id, a.data.benutzername, a.data.email, Or(a.data.foto, Null)));
        }
      }
      return Http.Ok, Some(Basic(Prop(claims, "id"), Prop(claims, "benutzername")));
    }

    /** `updateMyProfile` */
    method UpdateMyProfile(claims: Value, body: map<string, Value>, upload: Upload) returns (status: int)
      requires Valid()
      modifies this
      ensures Valid()
      ensures Outcome(status, State()) == UpdateProfileRule(old(State()), claims, body, upload)
    {
      if Nullish(claims) || upload.ConversionFails? {
        return Http.Internal;
      }
      ModifyKeyed(members, memberNext, MemberIs(Prop(claims, "id")), ProfileSet(body, upload));
      members := Modify(members, MemberIs(Prop(claims, "id")), ProfileSet(body, upload));
      return Http.Ok;
    }

    /** `changePasswordByvorstand` */
    method ChangePasswordByVorstand(claims: Value, body: map<string, Value>, hash: Value -> Value) returns (status: int)
      requires Valid()
      modifies this
      ensures Valid()
      ensures Outcome(status, State()) == ChangePasswordRule(old(State()), claims, body, hash)
    {
      var refused := UserTypeInTry(claims);
      if refused.Some? {
        return refused.value;
      }
      var id, neuesPasswort := Field(body, "id"), Field(body, "neuesPasswort");
      if !Truthy(id) || !Truthy(neuesPasswort) {
        return Http.BadRequest;
      }
      ModifyKeyed(members, memberNext, MemberIs(id), SetPassword(hash(neuesPasswort)));
      members := Modify(members, MemberIs(id), SetPassword(hash(neuesPasswort)));
      return Http.Ok;
    }

    /** `changeMultiplePasswords`: the checking loop, then the updates. */
    method ChangeMultiplePasswords(body: map<string, Value>, hash: Value -> Value) returns (status: int)
      requires Valid()
      modifies this
      ensures Valid()
      ensures Outcome(status, State()) == ChangeManyRule(old(State()), body, hash)
    {
      var updates := Field(body, "updates");
      if !updates.Arr? || |updates.items| == 0 {
        return Http.BadRequest;
      }
      var invalid := CheckUpdates(updates.items);
      if invalid.Some? {
        return invalid.value;
      }
      RepasswordKeyed(members, updates.items, hash, memberNext);
      ghost var start := members;
      for i := 0 to |updates.items|
        invariant members == Repassword(start, updates.items[..i], hash)
        invariant memberNext == old(memberNext) && accounts == old(accounts)
      {
        var u := updates.items[i];
        members := Modify(members, MemberIs(Prop(u, "id")), SetPassword(hash(Prop(u, "neuesPasswort"))));
        assert updates.items[..i + 1][..i] == updates.items[..i];
      }
      assert updates.items[..|updates.items|] == updates.items;
      return Http.Ok;
    }
  }

  /** The eleven `!field ||` tests of `createVorstand`. */
  method CheckRequired(body: map<string, Value>) returns (complete: bool)
    ensures complete == HasRequired(body)
  {
    var geschlecht, vorname, nachname := Field(body, "geschlecht"), Field(body, "vorname"), Field(body, "nachname");
    var adresse, plz, ort := Field(body, "adresse"), Field(body, "plz"), Field(body, "ort");
    var benutzername, passwort, telefon := Field(body, "benutzername"), Field(body, "passwort"), Field(body, "telefon");
    var email, rolle := Field(body, "email"), Field(body, "rolle");
    complete := !(!Truthy(geschlecht) || !Truthy(vorname) || !Truthy(nachname) || !Truthy(adresse) || !Truthy(plz) ||
                  !Truthy(ort) || !Truthy(benutzername) || !Truthy(passwort) || !Truthy(telefon) || !Truthy(email) ||
                  !Truthy(rolle));
    RequiredByIndex(body);
  }

  /** The required fields are truthy exactly when each of the eleven, taken
      by its position, is. */
  lemma RequiredByIndex(body: map<string, Value>)
    ensures HasRequired(body) <==>
      && Truthy(Field(body, RequiredFields[0])) && Truthy(Field(body, RequiredFields[1]))
      && Truthy(Field(body, RequiredFields[2])) && Truthy(Field(body, RequiredFields[3]))
      && Truthy(Field(body, RequiredFields[4])) && Truthy(Field(body, RequiredFields[5]))
      && Truthy(Field(body, RequiredFields[6])) && Truthy(Field(body, RequiredFields[7]))
      && Truthy(Field(body, RequiredFields[8])) && Truthy(Field(body, RequiredFields[9]))
      && Truthy(Field(body, RequiredFields[10]))
  {
    if forall i :: 0 <= i < |RequiredFields| ==> Truthy(Field(body, RequiredFields[i])) {
      forall k | k in RequiredFields ensures Truthy(Field(body, k)) {
        var i :| 0 <= i < |RequiredFields| && RequiredFields[i] == k;
      }
    }
  }

  /** The photo branch of `createVorstand`. */
  method ConvertPhoto(foto: Value, convert: string -> Option<string>) returns (step: PhotoStep)
    ensures step == PhotoOf(foto, convert)
  {
    var fotoBase64 := Null;
    if Truthy(foto) {
      if !foto.Str? {
        return Answer(Http.Internal);
      }
      var matches := DataUri.CheckMemberPhoto(foto.s);
      if matches.Refused? {
        return Answer(Http.BadRequest);
      }
      var resized := convert(matches.payload);
      if resized.None? {
        return Answer(Http.Internal);
      }
      fotoBase64 := Str(resized.value);
    }
    return Photo(fotoBase64);
  }

  /** `for (const update of updates) if (!update.id || ...) return 400`,
      where reading a property of a null entry throws. */
  method CheckUpdates(updates: seq<Value>) returns (r: Option<int>)
    ensures r == FirstInvalid(updates)
  {
    for i := 0 to |updates|
      invariant AllValid(updates[..i])
      invariant FirstInvalid(updates) == FirstInvalid(updates[i..])
    {
      var u := updates[i];
      if Nullish(u) {
        return Some(Http.Internal);
      }
      if !Truthy(Prop(u, "id")) || !Truthy(Prop(u, "neuesPasswort")) {
        return Some(Http.BadRequest);
      }
      CheckedStep(updates, i);
    }
    return None;
  }

  /** One complete entry more: the checked prefix grows and the outcome is
      still that of the rest. */
  lemma CheckedStep(updates: seq<Value>, i: int)
    requires 0 <= i < |updates| && AllValid(updates[..i])
    requires !Nullish(updates[i]) && !Incomplete(updates[i])
    ensures AllValid(updates[..i + 1])
    ensures FirstInvalid(updates[i..]) == FirstInvalid(updates[i + 1..])
  {
    FirstInvalidStep(updates[i..]);
    assert updates[i..][1..] == updates[i + 1..];
    assert updates[..i + 1] == updates[..i] + [updates[i]];
  }

  lemma FirstInvalidStep(updates: seq<Value>)
    requires updates != [] && !Nullish(updates[0]) && !Incomplete(updates[0])
    ensures FirstInvalid(updates) == FirstInvalid(updates[1..])
  {
  }
}
