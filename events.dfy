/** The event handlers over the subsystem's four tables: `events`,
    `event_preise`, `event_formulare` and `event_anmeldungen`. Each handler
    is stated as a rule over the tables (a function) and implemented step
    by step by a method of `EventStore` that is proved to follow it. */
module Events {
  import opened Js
  import opened Table
  import Http
  import opened Auth
  import DataUri
  import opened EventData
  import opened EventListing
  import EventUpdate
  import opened EventForms

  /** The four tables with their AUTO_INCREMENT counters. */
  datatype Db = Db(events: Store<Event>, preise: Store<Preis>, formulare: Store<Feld>, anmeldungen: Store<Anmeldung>)

  ghost predicate Sound(db: Db) {
    WellKeyed(db.events) && WellKeyed(db.preise) && WellKeyed(db.formulare) && WellKeyed(db.anmeldungen)
  }

  datatype Outcome = Outcome(status: int, db: Db)

  /** `WHERE id = ?` on `events`, with its negation for DELETE. */
  function EventIs(param: Value): Row<Event> -> bool {
    (r: Row<Event>) => IdIs(r.id, param)
  }

  function NotEventIs(param: Value): Row<Event> -> bool {
    (r: Row<Event>) => !IdIs(r.id, param)
  }

  /** The id filter of the expiry UPDATE: every id, or the requested one. */
  function AnyId(): int -> bool {
    (k: int) => true
  }

  function IdMatches(param: Value): int -> bool {
    (k: int) => IdIs(k, param)
  }

  // ---------------------------------------------------------------------
  // The image of createEvent and updateEvent

  /** `if (bild) { ... }`: no image, the converted one, or the answer when
      the format or type is refused (400) or the conversion throws (500).
      `convert` stands for decoding the payload and re-encoding it as PNG
      base64; None means it threw. */
  datatype ImageStep = Converted(image: Option<string>) | Answer(status: int)

  function ImageOf(bild: Value, convert: string -> Option<string>): (r: ImageStep)
    ensures !Truthy(bild) <==> r == Converted(None)
    ensures r == Answer(Http.BadRequest) <==> Truthy(bild) && DataUri.CheckEventImage(bild).Refused?
    ensures r.Converted? && r.image.Some? ==>
      DataUri.CheckEventImage(bild).Accepted? && convert(DataUri.CheckEventImage(bild).payload) == r.image
    ensures Truthy(bild) && DataUri.CheckEventImage(bild).Accepted? ==>
      r == (if convert(DataUri.CheckEventImage(bild).payload).None? then Answer(Http.Internal)
            else Converted(convert(DataUri.CheckEventImage(bild).payload)))
  {
    if !Truthy(bild) then Converted(None)
    else
      match DataUri.CheckEventImage(bild)
      case Refused(_) => Answer(Http.BadRequest)
      case Accepted(_, payload) =>
        match convert(payload)
        case None => Answer(Http.Internal)
        case Some(png) => Converted(Some(png))
  }

  // ---------------------------------------------------------------------
  // createEvent

  predicate HasRequired(body: map<string, Value>)
    ensures HasRequired(body) ==>
      "titel" in body && "beschreibung" in body && "ort" in body && "von" in body && "bis" in body
  {
    Truthy(Field(body, "titel")) && Truthy(Field(body, "beschreibung")) && Truthy(Field(body, "ort")) &&
    Truthy(Field(body, "von")) && Truthy(Field(body, "bis"))
  }

  /** The inserted row: status 'aktiv', `bildtitel || null`, the flags as
      1 or 0, and the converted image or NULL. */
  function NewEvent(body: map<string, Value>, image: Option<string>): (r: Event)
    ensures r.status == Aktiv
    ensures r.titel == Field(body, "titel") && r.beschreibung == Field(body, "beschreibung") &&
            r.ort == Field(body, "ort") && r.von == Field(body, "von") && r.bis == Field(body, "bis")
    ensures r.bild == Null <==> image.None?
    ensures image.Some? ==> r.bild == Str(image.value)
    ensures r.bildtitel == Null || Truthy(r.bildtitel)
    ensures r.supporter == Num(if Truthy(Field(body, "supporter")) then 1 else 0)
    ensures r.alle == Num(if Truthy(Field(body, "alle")) then 1 else 0)
  {
    Event(Field(body, "titel"), Field(body, "beschreibung"), Field(body, "ort"), Field(body, "von"),
          Field(body, "bis"), if image.Some? then Str(image.value) else Null,
          Or(Field(body, "bildtitel"), Null), Num(Flag(Field(body, "supporter"))),
          Num(Flag(Field(body, "alle"))), Aktiv)
  }

  /** `createEvent`: role (403), the five required fields (400), the image
      (400 or 500), then the event and its tiers in one transaction. */
  function CreateEventRule(db: Db, user: Value, body: map<string, Value>, convert: string -> Option<string>): (r: Outcome)
    ensures !IsVorstand(user) ==> r == Outcome(Http.Forbidden, db)
    ensures IsVorstand(user) && !HasRequired(body) ==> r == Outcome(Http.BadRequest, db)
    ensures (IsVorstand(user) && HasRequired(body) && Truthy(Field(body, "bild")) &&
             DataUri.CheckEventImage(Field(body, "bild")).Refused?) ==> r == Outcome(Http.BadRequest, db)
    ensures (IsVorstand(user) && HasRequired(body) && ImageOf(Field(body, "bild"), convert).Answer?) ==>
      r == Outcome(ImageOf(Field(body, "bild"), convert).status, db)
    ensures r.status == Http.Created <==>
      IsVorstand(user) && HasRequired(body) && ImageOf(Field(body, "bild"), convert).Converted?
    ensures r.status != Http.Created ==> r.db == db
    ensures r.status == Http.Created ==>
      && r.db.events == Insert(db.events, NewEvent(body, ImageOf(Field(body, "bild"), convert).image))
      && r.db.preise == InsertAll(db.preise, PriceRows(db.events.next, Field(body, "preise")))
      && r.db.formulare == db.formulare && r.db.anmeldungen == db.anmeldungen
    ensures Sound(db) ==> Sound(r.db)
  {
    if !IsVorstand(user) then Outcome(Http.Forbidden, db)
    else if !HasRequired(body) then Outcome(Http.BadRequest, db)
    else
      match ImageOf(Field(body, "bild"), convert)
      case Answer(status) => Outcome(status, db)
      case Converted(image) => Outcome(Http.Created, Created(db, body, image))
  }

  /** The tables after `createEvent` commits: the event, then its tiers
      under the event's id. */
  function Created(db: Db, body: map<string, Value>, image: Option<string>): Db {
    db.(events := Insert(db.events, NewEvent(body, image)),
        preise := InsertAll(db.preise, PriceRows(db.events.next, Field(body, "preise"))))
  }

  lemma CreatedOutcome(db: Db, user: Value, body: map<string, Value>, convert: string -> Option<string>)
    requires IsVorstand(user) && HasRequired(body) && ImageOf(Field(body, "bild"), convert).Converted?
    ensures CreateEventRule(db, user, body, convert) ==
            Outcome(Http.Created, Created(db, body, ImageOf(Field(body, "bild"), convert).image))
  {
  }

  /** A created event is active, has its flags as 1 or 0, and has exactly
      the kept tiers, in input order, under its own id. */
  lemma CreatedEventShape(db: Db, user: Value, body: map<string, Value>, convert: string -> Option<string>)
    requires CreateEventRule(db, user, body, convert).status == Http.Created
    ensures var r := CreateEventRule(db, user, body, convert);
      var e := r.db.events.rows[|db.events.rows|];
      && e.id == db.events.next
      && e.data.status == Aktiv
      && e.data.alle == (if Truthy(Field(body, "alle")) then Num(1) else Num(0))
      && e.data.supporter == (if Truthy(Field(body, "supporter")) then Num(1) else Num(0))
      && r.db.preise.rows[|db.preise.rows|..] ==
         Numbered(db.preise.next, if Field(body, "preise").Arr? then Tiers(e.id, Field(body, "preise").items) else [])
  {
    var r := CreateEventRule(db, user, body, convert);
    var tiers := PriceRows(db.events.next, Field(body, "preise"));
    assert r.db.preise.rows == db.preise.rows + Numbered(db.preise.next, tiers);
  }

  // ---------------------------------------------------------------------
  // updateEvent

  /** `updateEvent`: role (403), the image (400 or 500), no field at all
      (400), then one UPDATE of the row with the id, answered with 200 even
      when no row has it. */
  function UpdateEventRule(db: Db, user: Value, id: string, body: map<string, Value>,
                           convert: string -> Option<string>): (r: Outcome)
    ensures !IsVorstand(user) ==> r == Outcome(Http.Forbidden, db)
    ensures (IsVorstand(user) && Truthy(Field(body, "bild")) &&
             DataUri.CheckEventImage(Field(body, "bild")).Refused?) ==> r == Outcome(Http.BadRequest, db)
    ensures (IsVorstand(user) && !Truthy(Field(body, "bild")) &&
             forall c :: c != EventUpdate.Bild ==> !EventUpdate.IsSent(body, c)) ==> r == Outcome(Http.BadRequest, db)
    ensures (IsVorstand(user) && ImageOf(Field(body, "bild"), convert).Answer?) ==>
      r == Outcome(ImageOf(Field(body, "bild"), convert).status, db)
    ensures (IsVorstand(user) && ImageOf(Field(body, "bild"), convert).Converted? &&
             EventUpdate.Plan(body, ImageOf(Field(body, "bild"), convert).image) == []) ==> r == Outcome(Http.BadRequest, db)
    ensures r.status != Http.Ok ==> r.db == db
    ensures r.status == Http.Ok ==>
      && IsVorstand(user) && ImageOf(Field(body, "bild"), convert).Converted?
      && EventUpdate.Plan(body, ImageOf(Field(body, "bild"), convert).image) != []
      && r.db == db.(events := Store(Modify(db.events.rows, EventIs(Str(id)),
           Updated(EventUpdate.Plan(body, ImageOf(Field(body, "bild"), convert).image))),
           db.events.next))
    ensures Sound(db) ==> Sound(r.db)
  {
    if !IsVorstand(user) then Outcome(Http.Forbidden, db)
    else
      match ImageOf(Field(body, "bild"), convert)
      case Answer(status) => Outcome(status, db)
      case Converted(image) =>
        EventUpdate.PlanEmpty(body, image);
        var plan := EventUpdate.Plan(body, image);
        if plan == [] then Outcome(Http.BadRequest, db)
        else
          assert Sound(db) ==> Keyed(Modify(db.events.rows, EventIs(Str(id)), Updated(plan)), db.events.next) by {
            if Sound(db) { ModifyKeyed(db.events.rows, db.events.next, EventIs(Str(id)), Updated(plan)); }
          }
          Outcome(Http.Ok, UpdatedDb(db, id, plan))
  }

  /** The tables after the UPDATE: the rows with the id rewritten by the
      plan, every other table as before. */
  function UpdatedDb(db: Db, id: string, plan: seq<EventUpdate.Assign>): Db {
    db.(events := Store(Modify(db.events.rows, EventIs(Str(id)), Updated(plan)), db.events.next))
  }

  lemma UpdatedOutcome(db: Db, user: Value, id: string, body: map<string, Value>, convert: string -> Option<string>)
    requires IsVorstand(user) && ImageOf(Field(body, "bild"), convert).Converted?
    requires EventUpdate.Plan(body, ImageOf(Field(body, "bild"), convert).image) != []
    ensures UpdateEventRule(db, user, id, body, convert) ==
            Outcome(Http.Ok, UpdatedDb(db, id, EventUpdate.Plan(body, ImageOf(Field(body, "bild"), convert).image)))
  {
  }

  /** What the UPDATE does to a row it matches. */
  function Updated(plan: seq<EventUpdate.Assign>): Event -> Event {
    (e: Event) => EventUpdate.ApplyAll(e, plan)
  }

  /** After a successful update the row with the id has each column as
      sent (flags as 1 or 0), `bild` only when a valid image was converted,
      every other column as before; every other row is unchanged. */
  lemma UpdateEventColumns(db: Db, user: Value, id: string, body: map<string, Value>,
                           convert: string -> Option<string>, i: int, c: EventUpdate.Column)
    requires UpdateEventRule(db, user, id, body, convert).status == Http.Ok
    requires 0 <= i < |db.events.rows|
    ensures var after := UpdateEventRule(db, user, id, body, convert).db.events.rows;
      var image := ImageOf(Field(body, "bild"), convert).image;
      var before := db.events.rows[i];
      && after[i].id == before.id
      && (!IdIs(before.id, Str(id)) ==> after[i] == before)
      && (IdIs(before.id, Str(id)) ==>
           EventUpdate.Get(after[i].data, c) ==
             if c == EventUpdate.Bild then (if image.Some? then Str(image.value) else before.data.bild)
             else if EventUpdate.IsSent(body, c) then EventUpdate.Param(c, Field(body, EventUpdate.Name(c)))
             else EventUpdate.Get(before.data, c))
  {
    var image := ImageOf(Field(body, "bild"), convert).image;
    EventUpdate.UpdateSetsOnlySent(db.events.rows[i].data, body, image, c);
  }

  // ---------------------------------------------------------------------
  // deleteEvent

  /** `deleteEvent`: role (403), then the DELETE of the events row alone;
      404 exactly when no row had the id. Tiers, form fields and
      registrations of the event stay. */
  function DeleteEventRule(db: Db, user: Value, id: string): (r: Outcome)
    ensures !IsVorstand(user) ==> r == Outcome(Http.Forbidden, db)
    ensures IsVorstand(user) ==>
      (r.status == Http.NotFound <==> forall i :: 0 <= i < |db.events.rows| ==> !IdIs(db.events.rows[i].id, Str(id)))
    ensures IsVorstand(user) ==> r.status in {Http.Ok, Http.NotFound}
    ensures r.status != Http.Ok ==> r.db == db
    ensures r.status == Http.Ok ==>
      r.db == db.(events := Store(Where(db.events.rows, NotEventIs(Str(id))), db.events.next))
    ensures Sound(db) ==> Sound(r.db)
  {
    if !IsVorstand(user) then Outcome(Http.Forbidden, db)
    else
      var kept := Where(db.events.rows, NotEventIs(Str(id)));
      WhereKeepsAll(db.events.rows, NotEventIs(Str(id)));
      assert Sound(db) ==> Keyed(kept, db.events.next) by {
        if Sound(db) { WhereKeyed(db.events.rows, db.events.next, NotEventIs(Str(id))); }
      }
      if |kept| == |db.events.rows| then Outcome(Http.NotFound, db)
      else Outcome(Http.Ok, db.(events := Store(kept, db.events.next)))
  }

  // ---------------------------------------------------------------------
  // createFormFields

  /** The field table once the event's fields are deleted. */
  function Cleared(db: Db, eventId: Value): Store<Feld> {
    db.formulare.(rows := Where(db.formulare.rows, NotFormOf(eventId)))
  }

  /** `createFormFields`: role (403), a truthy `eventId` and an array
      `felder` (400); then the event's fields are deleted and the new list
      inserted. There is no transaction: when building the rows throws (a
      null element, 500) or the id is no integer (500), the old fields are
      gone already. */
  function CreateFormFieldsRule(db: Db, user: Value, body: map<string, Value>): (r: Outcome)
    ensures !IsVorstand(user) ==> r == Outcome(Http.Forbidden, db)
    ensures (IsVorstand(user) && (!Truthy(Field(body, "eventId")) || !Field(body, "felder").Arr?)) ==>
      r == Outcome(Http.BadRequest, db)
    ensures r.status in {Http.Forbidden, Http.BadRequest, Http.Internal, Http.Created}
    ensures (IsVorstand(user) && Truthy(Field(body, "eventId")) && Field(body, "felder").Arr? &&
             (Field(body, "felder").items == [] ||
              (NoneNullish(Field(body, "felder").items) && SqlInt(Field(body, "eventId")).Some?))) ==>
      r.status == Http.Created
    ensures (IsVorstand(user) && Truthy(Field(body, "eventId")) && Field(body, "felder").Arr? &&
             Field(body, "felder").items != [] &&
             (!NoneNullish(Field(body, "felder").items) || SqlInt(Field(body, "eventId")).None?)) ==>
      r == Outcome(Http.Internal, db.(formulare := Cleared(db, Field(body, "eventId"))))
    ensures r.status in {Http.Forbidden, Http.BadRequest} ==> r.db == db
    ensures r.status in {Http.Internal, Http.Created} ==>
      && IsVorstand(user) && Truthy(Field(body, "eventId")) && Field(body, "felder").Arr?
      && r.db.events == db.events && r.db.preise == db.preise && r.db.anmeldungen == db.anmeldungen
    ensures r.status == Http.Internal ==>
      && Field(body, "felder").items != []
      && (!NoneNullish(Field(body, "felder").items) || SqlInt(Field(body, "eventId")).None?)
      && r.db.formulare == Cleared(db, Field(body, "eventId"))
    ensures (r.status == Http.Created && Field(body, "felder").items == []) ==>
      r.db.formulare == Cleared(db, Field(body, "eventId"))
    ensures (r.status == Http.Created && Field(body, "felder").items != []) ==>
      && NoneNullish(Field(body, "felder").items) && SqlInt(Field(body, "eventId")).Some?
      && r.db.formulare == InsertAll(Cleared(db, Field(body, "eventId")),
                                     FelderOf(SqlInt(Field(body, "eventId")).value, Field(body, "felder").items))
    ensures Sound(db) ==> Sound(r.db)
  {
    var eventId, felder := Field(body, "eventId"), Field(body, "felder");
    if !IsVorstand(user) then Outcome(Http.Forbidden, db)
    else if !Truthy(eventId) || !felder.Arr? then Outcome(Http.BadRequest, db)
    else
      var cleared := Cleared(db, eventId);
      assert Sound(db) ==> WellKeyed(cleared) by {
        if Sound(db) { WhereKeyed(db.formulare.rows, db.formulare.next, NotFormOf(eventId)); }
      }
      if felder.items == [] then Outcome(Http.Created, db.(formulare := cleared))
      else if !NoneNullish(felder.items) || SqlInt(eventId).None? then Outcome(Http.Internal, db.(formulare := cleared))
      else Outcome(Http.Created, db.(formulare := InsertAll(cleared, FelderOf(SqlInt(eventId).value, felder.items))))
  }

  /** Whatever `createFormFields` does, the fields of every other event stay
      as they were. */
  lemma FormReplaceKeepsOthers(db: Db, user: Value, body: map<string, Value>)
    ensures var eventId := Field(body, "eventId");
      Where(CreateFormFieldsRule(db, user, body).db.formulare.rows, NotFormOf(eventId)) ==
      Where(db.formulare.rows, NotFormOf(eventId))
  {
    var r := CreateFormFieldsRule(db, user, body);
    var eventId, felder := Field(body, "eventId"), Field(body, "felder");
    if r.status in {Http.Internal, Http.Created} {
      var kept := Where(db.formulare.rows, NotFormOf(eventId));
      WhereIdempotent(db.formulare.rows, NotFormOf(eventId));
      if r.status == Http.Created && felder.items != [] {
        NewFieldsBelong(kept, db.formulare.next, SqlInt(eventId).value, felder.items, eventId);
      }
    }
  }

  /** The inserted fields all belong to the event, and the rows that stay
      do not. */
  lemma NewFieldsBelong(kept: seq<Row<Feld>>, next: int, n: int, felder: seq<Value>, eventId: Value)
    requires NoneNullish(felder) && SqlInt(eventId) == Some(n)
    requires forall i :: 0 <= i < |kept| ==> NotFormOf(eventId)(kept[i])
    ensures Where(kept + Numbered(next, FelderOf(n, felder)), NotFormOf(eventId)) == Where(kept, NotFormOf(eventId))
  {
    var added := Numbered(next, FelderOf(n, felder));
    WhereAppend(kept, added, NotFormOf(eventId));
    WhereNone(added, NotFormOf(eventId));
    WhereAll(kept, NotFormOf(eventId));
  }

  /** The rows `getFormFields` reads for an id. */
  function FormFieldsOf(db: Db, id: string): seq<FeldView> {
    Views(Where(db.formulare.rows, FormOf(Str(id))))
  }

  /** What `getFormFields` answers for one sent field stored under `id`. */
  function SentView(id: int, f: Value): FeldView {
    FeldView(id, Stored(Prop(f, "feldname")), Or(Prop(f, "typ"), Str("text")), Truthy(Prop(f, "pflicht")),
             if Prop(f, "typ") == Str("select") && Prop(f, "optionen").Arr? then JsonCopy(Prop(f, "optionen"))
             else Arr([]))
  }

  /** Replacing and reading back: after a successful `createFormFields`,
      `getFormFields` for the same event id answers exactly the sent
      fields, in order, each with its new id, its name, its type or
      "text", a boolean `pflicht`, and its options or `[]`. */
  lemma FormReadBack(db: Db, user: Value, body: map<string, Value>, id: string)
    requires CreateFormFieldsRule(db, user, body).status == Http.Created
    requires SqlInt(Str(id)) == SqlInt(Field(body, "eventId"))
    ensures var felder := Field(body, "felder").items;
      var read := FormFieldsOf(CreateFormFieldsRule(db, user, body).db, id);
      && |read| == |felder|
      && forall i :: 0 <= i < |felder| ==> read[i] == SentView(db.formulare.next + i, felder[i])
  {
    var eventId, felder := Field(body, "eventId"), Field(body, "felder").items;
    var kept := Cleared(db, eventId);
    assert kept.next == db.formulare.next;
    ClearedHasNone(kept.rows, eventId, id);
    ReadBackAfter(kept, CreateFormFieldsRule(db, user, body).db, eventId, felder, id);
  }

  /** The field table after the delete and the insert reads back the sent
      fields, whichever of the two inserts (none, or the list) was made. */
  lemma ReadBackAfter(kept: Store<Feld>, after: Db, eventId: Value, felder: seq<Value>, id: string)
    requires Where(kept.rows, FormOf(Str(id))) == []
    requires felder == [] ==> after.formulare == kept
    requires felder != [] ==>
      && NoneNullish(felder) && SqlInt(eventId).Some? && SqlInt(Str(id)) == SqlInt(eventId)
      && after.formulare == InsertAll(kept, FelderOf(SqlInt(eventId).value, felder))
    ensures var read := FormFieldsOf(after, id);
      |read| == |felder| && forall i :: 0 <= i < |felder| ==> read[i] == SentView(kept.next + i, felder[i])
  {
    if felder == [] {
      assert FormFieldsOf(after, id) == [];
    } else {
      var n := SqlInt(eventId).value;
      var rows := kept.rows + Numbered(kept.next, FelderOf(n, felder));
      assert after.formulare.rows == rows;
      assert FormFieldsOf(after, id) == Views(Where(rows, FormOf(Str(id))));
      InsertedRead(kept.rows, kept.next, n, felder, id);
    }
  }

  /** The fields appended after a delete that left none of the event's are
      exactly the event's fields. */
  lemma InsertedRead(kept: seq<Row<Feld>>, next: int, n: int, felder: seq<Value>, id: string)
    requires Where(kept, FormOf(Str(id))) == []
    requires NoneNullish(felder) && SqlInt(Str(id)) == Some(n)
    ensures var read := Views(Where(kept + Numbered(next, FelderOf(n, felder)), FormOf(Str(id))));
      |read| == |felder| && forall i :: 0 <= i < |felder| ==> read[i] == SentView(next + i, felder[i])
  {
    var added := Numbered(next, FelderOf(n, felder));
    WhereAppend(kept, added, FormOf(Str(id)));
    assert Where(kept + added, FormOf(Str(id))) == Where(added, FormOf(Str(id)));
    AddedRead(next, n, felder, id);
  }

  /** No field left after the delete belongs to an event with the same
      integer id. */
  lemma ClearedHasNone(kept: seq<Row<Feld>>, eventId: Value, id: string)
    requires forall i :: 0 <= i < |kept| ==> NotFormOf(eventId)(kept[i])
    requires SqlInt(Str(id)) == SqlInt(eventId)
    ensures Where(kept, FormOf(Str(id))) == []
  {
    forall i | 0 <= i < |kept| ensures !FormOf(Str(id))(kept[i]) {
      assert NotFormOf(eventId)(kept[i]);
    }
    WhereNone(kept, FormOf(Str(id)));
  }

  /** The inserted fields read back as sent. */
  lemma AddedRead(next: int, n: int, felder: seq<Value>, id: string)
    requires NoneNullish(felder) && SqlInt(Str(id)) == Some(n)
    ensures var read := Views(Where(Numbered(next, FelderOf(n, felder)), FormOf(Str(id))));
      |read| == |felder| && forall i :: 0 <= i < |felder| ==> read[i] == SentView(next + i, felder[i])
  {
    var added := Numbered(next, FelderOf(n, felder));
    WhereAll(added, FormOf(Str(id)));
    forall i | 0 <= i < |felder| ensures ViewOf(added[i]) == SentView(next + i, felder[i]) {
      ReadBackField(next + i, n, felder[i]);
    }
  }

  // ---------------------------------------------------------------------
  // registerForEvent

  function FieldsOfEvent(db: Db, id: string): seq<Row<Feld>> {
    Where(db.formulare.rows, FormOf(Str(id)))
  }

  /** `registerForEvent`: an object or array `daten` (400), every required
      field of the event filled (400), then the registration is stored with
      `daten` as it comes back from JSON. The event itself is not looked up. */
  function RegisterRule(db: Db, id: string, body: map<string, Value>, now: int): (r: Outcome)
    ensures r.status == Http.BadRequest <==>
      var daten := Field(body, "daten");
      !Truthy(daten) || !IsObjectType(daten) || FirstMissing(FieldsOfEvent(db, id), daten).Some?
    ensures r.status == Http.Created <==>
      var daten := Field(body, "daten");
      Truthy(daten) && IsObjectType(daten) && FirstMissing(FieldsOfEvent(db, id), daten).None? &&
      SqlInt(Str(id)).Some?
    ensures (var daten := Field(body, "daten");
             Truthy(daten) && IsObjectType(daten) && FirstMissing(FieldsOfEvent(db, id), daten).None? &&
             SqlInt(Str(id)).None?) ==>
      r == Outcome(Http.Internal, db)
    ensures r.status != Http.Created ==> r.db == db
    ensures r.status == Http.Created ==>
      r.db == db.(anmeldungen := Insert(db.anmeldungen,
                    Anmeldung(SqlInt(Str(id)).value, JsonCopy(Field(body, "daten")), now)))
    ensures Sound(db) ==> Sound(r.db)
  {
    var daten := Field(body, "daten");
    if !Truthy(daten) || !IsObjectType(daten) then Outcome(Http.BadRequest, db)
    else if FirstMissing(FieldsOfEvent(db, id), daten).Some? then Outcome(Http.BadRequest, db)
    else if SqlInt(Str(id)).None? then Outcome(Http.Internal, db)
    else Outcome(Http.Created, db.(anmeldungen := Insert(db.anmeldungen,
                                     Anmeldung(SqlInt(Str(id)).value, JsonCopy(daten), now))))
  }

  /** Registrations as `getRegistrations` lists them: that event's rows,
      newest first. */
  function RegistrationsOf(db: Db, id: string): seq<RegistrationView> {
    RegistrationViews(NewestFirst(Where(db.anmeldungen.rows, RegistrationOf(Str(id))), CreatedAt))
  }

  /** A registration that was accepted is listed afterwards with its whole
      `daten`, as it comes back from JSON. */
  lemma RegistrationListed(db: Db, id: string, body: map<string, Value>, now: int)
    requires RegisterRule(db, id, body, now).status == Http.Created
    ensures exists i :: Listed(RegistrationsOf(RegisterRule(db, id, body, now).db, id), i, JsonCopy(Field(body, "daten")))
  {
    var after := RegisterRule(db, id, body, now).db;
    var n := |db.anmeldungen.rows|;
    assert after.anmeldungen.rows[n].data == Anmeldung(SqlInt(Str(id)).value, JsonCopy(Field(body, "daten")), now);
    var i := SortedHas(after.anmeldungen.rows, n, RegistrationOf(Str(id)), CreatedAt);
    var views := RegistrationsOf(after, id);
    assert views[i] == RegistrationViewOf(after.anmeldungen.rows[n]);
    assert Listed(views, i, JsonCopy(Field(body, "daten")));
  }

  predicate Listed(views: seq<RegistrationView>, i: int, daten: Value) {
    0 <= i < |views| && views[i].daten == daten
  }

  // ---------------------------------------------------------------------
  // The store

  class EventStore {
    var events: seq<Row<Event>>
    var eventNext: int
    var preise: seq<Row<Preis>>
    var preisNext: int
    var formulare: seq<Row<Feld>>
    var formNext: int
    var anmeldungen: seq<Row<Anmeldung>>
    var anmeldungNext: int

    function State(): Db
      reads this
    {
      Db(Store(events, eventNext), Store(preise, preisNext), Store(formulare, formNext),
         Store(anmeldungen, anmeldungNext))
    }

    ghost predicate Valid()
      reads this
    {
      Sound(State())
    }

    constructor ()
      ensures Valid() && events == [] && preise == [] && formulare == [] && anmeldungen == []
    {
      events, eventNext, preise, preisNext := [], 1, [], 1;
      formulare, formNext, anmeldungen, anmeldungNext := [], 1, [], 1;
    }

    /** `createEvent`, answering the new event's id with 201. */
    method CreateEvent(user: Value, body: map<string, Value>, convert: string -> Option<string>)
      returns (status: int, eventId: Option<int>)
      requires Valid()
      modifies this
      ensures Valid()
      ensures Outcome(status, State()) == CreateEventRule(old(State()), user, body, convert)
      ensures eventId == if status == Http.Created then Some(old(eventNext)) else None
    {
      if !IsVorstand(user) {
        return Http.Forbidden, None;
      }
      var titel, beschreibung, ort := Field(body, "titel"), Field(body, "beschreibung"), Field(body, "ort");
      var von, bis, bild := Field(body, "von"), Field(body, "bis"), Field(body, "bild");
      if !Truthy(titel) || !Truthy(beschreibung) || !Truthy(ort) || !Truthy(von) || !Truthy(bis) {
        return Http.BadRequest, None;
      }
      var step := ConvertImage(bild, convert);
      if step.Answer? {
        return step.status, None;
      }
      CreatedOutcome(State(), user, body, convert);
      var id := eventNext;
      Commit(body, step.image);
      return Http.Created, Some(id);
    }

    /** The transaction of `createEvent`: the row with status 'aktiv',
        `bildtitel || null`, the flags as 1 or 0 and the image or NULL,
        then its tiers. */
    method Commit(body: map<string, Value>, image: Option<string>)
      requires Valid()
      modifies this
      ensures Valid()
      ensures State() == Created(old(State()), body, image)
    {
      var base64Bild := if image.Some? then Str(image.value) else Null;
      var row := Event(Field(body, "titel"), Field(body, "beschreibung"), Field(body, "ort"), Field(body, "von"),
                       Field(body, "bis"), base64Bild, Or(Field(body, "bildtitel"), Null),
                       Num(Flag(Field(body, "supporter"))), Num(Flag(Field(body, "alle"))), Aktiv);
      assert row == NewEvent(body, image);
      var stored := Insert(Store(events, eventNext), row);
      var tiers := TierRows(eventNext, Field(body, "preise"));
      var storedTiers := InsertAll(Store(preise, preisNext), tiers);
      events, eventNext, preise, preisNext := stored.rows, stored.next, storedTiers.rows, storedTiers.next;
    }

    /** The tier rows `createEvent` inserts: none unless `preise` is a
        non-empty array with at least one kept tier. */
    static method TierRows(eventId: int, sentPreise: Value) returns (tiers: seq<Preis>)
      ensures tiers == PriceRows(eventId, sentPreise)
    {
      tiers := [];
      if sentPreise.Arr? && |sentPreise.items| > 0 {
        var preisWerte := Tiers(eventId, sentPreise.items);
        if |preisWerte| > 0 {
          tiers := preisWerte;
        }
      }
    }

    /** `getEvents`: the expiry UPDATE, then the join grouped into one
      object per event. */
    method GetEvents(now: int) returns (status: int, list: seq<EventView>)
      requires Valid()
      modifies this
      ensures Valid()
      ensures events == Expire(old(events), now, AnyId())
      ensures eventNext == old(eventNext) && preise == old(preise) && preisNext == old(preisNext)
      ensures formulare == old(formulare) && formNext == old(formNext)
      ensures anmeldungen == old(anmeldungen) && anmeldungNext == old(anmeldungNext)
      ensures status == Http.Ok
      ensures |list| == |events|
      ensures forall i :: 0 <= i < |events| ==> list[i] == View(events[i], PricesOfEvent(preise, events[i].id))
    {
      var expired := Expire(events, now, AnyId());
      ExpireKeyed(events, eventNext, now, AnyId());
      list := Listing(expired, eventNext, preise, preisNext);
      events := expired;
      status := Http.Ok;
    }

    /** The join of `getEvents` grouped into one object per event, in
        ascending id order. */
    static method Listing(expired: seq<Row<Event>>, eventNext: int, preise: seq<Row<Preis>>, preisNext: int)
      returns (list: seq<EventView>)
      requires Keyed(expired, eventNext) && Keyed(preise, preisNext)
      ensures |list| == |expired|
      ensures forall i :: 0 <= i < |expired| ==> list[i] == View(expired[i], PricesOfEvent(preise, expired[i].id))
    {
      var rows := LeftJoin(expired, preise);
      var grouped := GroupRows(rows);
      list := ObjectValues(grouped);
      ListingShowsEveryEvent(expired, eventNext, preise, preisNext);
    }

    /** `getEventById`: the expiry UPDATE for that id, then the event with
      its tiers, or 404. */
    method GetEventById(id: string, now: int) returns (status: int, event: Option<EventView>)
      requires Valid()
      modifies this
      ensures Valid()
      ensures events == Expire(old(events), now, IdMatches(Str(id)))
      ensures eventNext == old(eventNext) && preise == old(preise) && preisNext == old(preisNext)
      ensures formulare == old(formulare) && formNext == old(formNext)
      ensures anmeldungen == old(anmeldungen) && anmeldungNext == old(anmeldungNext)
      ensures status == Http.NotFound <==> forall i :: 0 <= i < |events| ==> !IdIs(events[i].id, Str(id))
      ensures status in {Http.Ok, Http.NotFound} && (event.Some? <==> status == Http.Ok)
      ensures forall i :: 0 <= i < |events| && IdIs(events[i].id, Str(id)) ==>
        event == Some(View(events[i], PricesOfEvent(preise, events[i].id)))
    {
      var expired := Expire(events, now, IdMatches(Str(id)));
      ExpireKeyed(events, eventNext, now, IdMatches(Str(id)));
      var rows := LeftJoin(Where(expired, EventIs(Str(id))), preise);
      ByIdRows(expired, eventNext, preise, preisNext, Str(id));
      events := expired;
      if |rows| == 0 {
        return Http.NotFound, None;
      }
      var found := CollectEvent(rows);
      return Http.Ok, Some(found);
    }

    method UpdateEvent(user: Value, id: string, body: map<string, Value>, convert: string -> Option<string>)
      returns (status: int)
      requires Valid()
      modifies this
      ensures Valid()
      ensures Outcome(status, State()) == UpdateEventRule(old(State()), user, id, body, convert)
    {
      if !IsVorstand(user) {
        return Http.Forbidden;
      }
      var step, plan := UpdatePlan(body, convert);
      if step.Answer? {
        return step.status;
      }
      EventUpdate.PlanEmpty(body, step.image);
      if |plan| == 0 {
        return Http.BadRequest;
      }
      UpdatedOutcome(State(), user, id, body, convert);
      Apply(id, plan);
      return Http.Ok;
    }

    /** The one UPDATE statement: the plan's values, then the id, as its
        parameters. */
    method Apply(id: string, plan: seq<EventUpdate.Assign>)
      requires Valid() && plan != []
      modifies this
      ensures Valid()
      ensures State() == UpdatedDb(old(State()), id, plan)
    {
      var params := EventUpdate.Params(plan) + [Str(id)];
      assert params[|plan|] == Str(id);
      var updated := Modify(events, EventIs(params[|plan|]), Updated(plan));
      ModifyKeyed(events, eventNext, EventIs(Str(id)), Updated(plan));
      events := updated;
    }

    /** The SET items of `updateEvent`: the sent columns, then the
        converted image; or the answer when the image is refused or its
        conversion throws. */
    static method UpdatePlan(body: map<string, Value>, convert: string -> Option<string>)
      returns (step: ImageStep, plan: seq<EventUpdate.Assign>)
      ensures step == ImageOf(Field(body, "bild"), convert)
      ensures step.Converted? ==> plan == EventUpdate.Plan(body, step.image)
    {
      plan := EventUpdate.SentItems(body);
      step := ConvertImage(Field(body, "bild"), convert);
      if step.Converted? && step.image.Some? {
        plan := plan + [EventUpdate.Assign(EventUpdate.Bild, Str(step.image.value))];
      }
    }

    /** `if (bild) { ... }` of `createEvent` and `updateEvent`: the
        format and type check, then the conversion. */
    static method ConvertImage(bild: Value, convert: string -> Option<string>) returns (step: ImageStep)
      ensures step == ImageOf(bild, convert)
    {
      if !Truthy(bild) {
        return Converted(None);
      }
      var check := DataUri.CheckEventImage(bild);
      if check.Refused? {
        return Answer(Http.BadRequest);
      }
      var png := convert(check.payload);
      if png.None? {
        return Answer(Http.Internal);
      }
      return Converted(Some(png.value));
    }

    method DeleteEvent(user: Value, id: string) returns (status: int)
      requires Valid()
      modifies this
      ensures Valid()
      ensures Outcome(status, State()) == DeleteEventRule(old(State()), user, id)
    {
      if !IsVorstand(user) {
        return Http.Forbidden;
      }
      var kept := Where(events, NotEventIs(Str(id)));
      var affectedRows := |events| - |kept|;
      WhereKeyed(events, eventNext, NotEventIs(Str(id)));
      events := kept;
      if affectedRows == 0 {
        WhereKeepsAll(old(events), NotEventIs(Str(id)));
        WhereAll(old(events), NotEventIs(Str(id)));
        return Http.NotFound;
      }
      return Http.Ok;
    }

    method CreateFormFields(user: Value, body: map<string, Value>) returns (status: int)
      requires Valid()
      modifies this
      ensures Valid()
      ensures Outcome(status, State()) == CreateFormFieldsRule(old(State()), user, body)
    {
      if !IsVorstand(user) {
        return Http.Forbidden;
      }
      var eventId, felder := Field(body, "eventId"), Field(body, "felder");
      if !Truthy(eventId) || !felder.Arr? {
        return Http.BadRequest;
      }
      ghost var before := State();
      WhereKeyed(formulare, formNext, NotFormOf(eventId));
      formulare := Where(formulare, NotFormOf(eventId));
      assert State() == before.(formulare := Cleared(before, eventId));
      if |felder.items| > 0 {
        if !NoneNullish(felder.items) {
          return Http.Internal;
        }
        var n := SqlInt(eventId);
        if n.None? {
          return Http.Internal;
        }
        var werte := FelderOf(n.value, felder.items);
        InsertKeyed(formulare, formNext, werte);
        formulare, formNext := formulare + Numbered(formNext, werte), formNext + |werte|;
        assert State() == before.(formulare := InsertAll(Cleared(before, eventId), werte));
      }
      return Http.Created;
    }

    /** `getFormFields`: the event's fields in table order. */
    method GetFormFields(id: string) returns (status: int, list: seq<FeldView>)
      ensures status == Http.Ok
      ensures list == FormFieldsOf(State(), id)
    {
      var felder := Where(formulare, FormOf(Str(id)));
      return Http.Ok, Views(felder);
    }

    /** `registerForEvent`; `missingField` is the name the 400 reports
        (`Pflichtfeld fehlt: …`) when a required field is missing. */
    method RegisterForEvent(id: string, body: map<string, Value>, now: int)
      returns (status: int, missingField: Option<string>)
      requires Valid()
      modifies this
      ensures Valid()
      ensures Outcome(status, State()) == RegisterRule(old(State()), id, body, now)
      ensures var daten := Field(body, "daten");
        missingField.Some? <==>
          Truthy(daten) && IsObjectType(daten) && FirstMissing(FieldsOfEvent(old(State()), id), daten).Some?
      ensures missingField.Some? ==>
        var felder := FieldsOfEvent(old(State()), id);
        status == Http.BadRequest &&
        missingField.value == ToString(felder[FirstMissing(felder, Field(body, "daten")).value].data.feldname)
    {
      var daten := Field(body, "daten");
      if !Truthy(daten) || !IsObjectType(daten) {
        return Http.BadRequest, None;
      }
      var felder := Where(formulare, FormOf(Str(id)));
      var missing := FindMissing(felder, daten);
      if missing.Some? {
        return Http.BadRequest, Some(ToString(felder[missing.value].data.feldname));
      }
      var eventId := SqlInt(Str(id));
      if eventId.None? {
        return Http.Internal, None;
      }
      var stored := Insert(State().anmeldungen, Anmeldung(eventId.value, JsonCopy(daten), now));
      anmeldungen, anmeldungNext := stored.rows, stored.next;
      return Http.Created, None;
    }

    /** `getRegistrations`: the event's registrations, newest first. */
    method GetRegistrations(user: Value, id: string) returns (status: int, list: seq<RegistrationView>)
      ensures status == Http.Forbidden <==> !IsVorstand(user)
      ensures status == Http.Ok <==> IsVorstand(user)
      ensures status == Http.Ok ==> list == RegistrationsOf(State(), id)
      ensures status != Http.Ok ==> list == []
    {
      if !IsVorstand(user) {
        return Http.Forbidden, [];
      }
      var rows := NewestFirst(Where(anmeldungen, RegistrationOf(Str(id))), CreatedAt);
      return Http.Ok, RegistrationViews(rows);
    }
  }

  /** The `forEach` of `getEventById`: the header from the first row, and
      the price of every row with a `preis_id`, in row order. */
  method CollectEvent(rows: seq<Joined>) returns (event: EventView)
    requires rows != []
    requires forall j :: 0 <= j < |rows| ==> rows[j].event.id == rows[0].event.id
    ensures event == View(rows[0].event, PricesFor(rows, rows[0].event.id))
  {
    var first := rows[0];
    event := Header(first);
    var i := 0;
    while i < |rows|
      invariant 0 <= i <= |rows|
      invariant event == View(first.event, PricesFor(rows[..i], first.event.id))
    {
      var r := rows[i];
      if Truthy(r.preisId) {
        event := event.(preise := event.preise + [PreisOf(r)]);
      }
      PricesForAppend(rows[..i], [r], first.event.id);
      PricesForSingle(r, first.event.id);
      assert rows[..i + 1] == rows[..i] + [r];
      i := i + 1;
    }
    assert rows[..i] == rows;
  }

  /** The join `getEventById` reads: empty when no event has the id, else
      exactly the rows of that one event. */
  lemma ByIdRows(events: seq<Row<Event>>, enext: int, pr: seq<Row<Preis>>, next: int, param: Value)
    requires Keyed(events, enext) && Keyed(pr, next)
    ensures var rows := LeftJoin(Where(events, EventIs(param)), pr);
      && (rows == [] <==> forall i :: 0 <= i < |events| ==> !IdIs(events[i].id, param))
      && forall i :: 0 <= i < |events| && IdIs(events[i].id, param) ==>
           && rows == JoinOne(events[i], pr)
           && View(rows[0].event, PricesFor(rows, rows[0].event.id)) == View(events[i], PricesOfEvent(pr, events[i].id))
           && forall j :: 0 <= j < |rows| ==> rows[j].event.id == rows[0].event.id
  {
    if forall i :: 0 <= i < |events| ==> !IdIs(events[i].id, param) {
      WhereNone(events, EventIs(param));
    }
    forall i | 0 <= i < |events| && IdIs(events[i].id, param)
      ensures var rows := LeftJoin(Where(events, EventIs(param)), pr);
        && rows == JoinOne(events[i], pr)
        && View(rows[0].event, PricesFor(rows, rows[0].event.id)) == View(events[i], PricesOfEvent(pr, events[i].id))
        && forall j :: 0 <= j < |rows| ==> rows[j].event.id == rows[0].event.id
    {
      ByIdRowsAt(events, enext, pr, next, param, i);
    }
  }

  lemma ByIdRowsAt(events: seq<Row<Event>>, enext: int, pr: seq<Row<Preis>>, next: int, param: Value, i: int)
    requires Keyed(events, enext) && Keyed(pr, next)
    requires 0 <= i < |events| && IdIs(events[i].id, param)
    ensures var rows := LeftJoin(Where(events, EventIs(param)), pr);
      && rows == JoinOne(events[i], pr)
      && View(rows[0].event, PricesFor(rows, rows[0].event.id)) == View(events[i], PricesOfEvent(pr, events[i].id))
      && forall j :: 0 <= j < |rows| ==> rows[j].event.id == rows[0].event.id
  {
    WhereOnly(events, enext, EventIs(param), i);
    assert [events[i]][1..] == [];
    assert LeftJoin([events[i]], pr) == JoinOne(events[i], pr) + LeftJoin([], pr);
    assert JoinOne(events[i], pr) + [] == JoinOne(events[i], pr);
    JoinOneMatch(events[i], pr, next);
  }
}
