/** The registration form of an event (`event_formulare`) and the
    registrations sent through it (`event_anmeldungen`): how a field list is
    stored and read back, which fields a registration must fill, and how
    registrations are listed. */
module EventForms {
  import opened Js
  import opened Table

  /** A row of `event_formulare`. `optionen` is NULL or the JSON text of an
      array, kept here as the array that text parses back to. */
  datatype Feld = Feld(eventId: int, feldname: Value, typ: Value, pflicht: Value, optionen: Option<Value>)

  /** A row of `event_anmeldungen`: `daten` is JSON text, kept as the value
      it parses back to; `created_at` is the insertion time. */
  datatype Anmeldung = Anmeldung(eventId: int, daten: Value, createdAt: int)

  /** The row stored for one sent field `f` (which is not null or
      undefined): the name as sent, `typ` defaulting to "text", `pflicht` as
      1 or 0, and the options only for a "select" with an array of them. */
  function FeldOf(eventId: int, f: Value): (r: Feld)
    ensures r.eventId == eventId && r.feldname == Stored(Prop(f, "feldname"))
    ensures r.typ == (if Truthy(Prop(f, "typ")) then Prop(f, "typ") else Str("text"))
    ensures r.pflicht == (if Truthy(Prop(f, "pflicht")) then Num(1) else Num(0))
    ensures r.optionen.Some? <==> Prop(f, "typ") == Str("select") && Prop(f, "optionen").Arr?
    ensures r.optionen.Some? ==> r.optionen.value == JsonCopy(Prop(f, "optionen"))
  {
    var typ, optionen := Prop(f, "typ"), Prop(f, "optionen");
    Feld(eventId, Stored(Prop(f, "feldname")), Or(typ, Str("text")), Num(Flag(Prop(f, "pflicht"))),
         if typ == Str("select") && optionen.Arr? then Some(JsonCopy(optionen)) else None)
  }

  function FelderOf(eventId: int, felder: seq<Value>): (r: seq<Feld>)
    requires NoneNullish(felder)
    ensures |r| == |felder| && forall i :: 0 <= i < |felder| ==> r[i] == FeldOf(eventId, felder[i])
  {
    seq(|felder|, i requires 0 <= i < |felder| => FeldOf(eventId, felder[i]))
  }

  /** `event_id = ?` for the field and registration tables. */
  function FormOf(param: Value): Row<Feld> -> bool {
    (r: Row<Feld>) => IdIs(r.data.eventId, param)
  }

  function NotFormOf(param: Value): Row<Feld> -> bool {
    (r: Row<Feld>) => !IdIs(r.data.eventId, param)
  }

  function RegistrationOf(param: Value): Row<Anmeldung> -> bool {
    (r: Row<Anmeldung>) => IdIs(r.data.eventId, param)
  }

  // ---------------------------------------------------------------------
  // getFormFields

  /** One field as `getFormFields` answers it. */
  datatype FeldView = FeldView(id: int, feldname: Value, typ: Value, pflicht: bool, optionen: Value)

  /** `pflicht` as a boolean; `optionen` parsed, or `[]` when NULL. */
  function ViewOf(r: Row<Feld>): (v: FeldView)
    ensures v.id == r.id && v.feldname == r.data.feldname && v.typ == r.data.typ
    ensures v.pflicht <==> Truthy(r.data.pflicht)
    ensures r.data.optionen.Some? ==> v.optionen == r.data.optionen.value
    ensures r.data.optionen.None? ==> v.optionen == Arr([])
  {
    FeldView(r.id, r.data.feldname, r.data.typ, Truthy(r.data.pflicht),
             if r.data.optionen.Some? then r.data.optionen.value else Arr([]))
  }

  function Views(t: seq<Row<Feld>>): (r: seq<FeldView>)
    ensures |r| == |t| && forall i :: 0 <= i < |t| ==> r[i] == ViewOf(t[i])
  {
    seq(|t|, i requires 0 <= i < |t| => ViewOf(t[i]))
  }

  /** What reading back a stored field gives, in terms of what was sent:
      the name, the type or "text", whether `pflicht` was truthy, and the
      options of a "select" sent with an array (through JSON), else `[]`. */
  lemma ReadBackField(id: int, eventId: int, f: Value)
    ensures ViewOf(Row(id, FeldOf(eventId, f))) ==
      FeldView(id, Stored(Prop(f, "feldname")), Or(Prop(f, "typ"), Str("text")), Truthy(Prop(f, "pflicht")),
               if Prop(f, "typ") == Str("select") && Prop(f, "optionen").Arr?
               then JsonCopy(Prop(f, "optionen")) else Arr([]))
  {
  }

  // ---------------------------------------------------------------------
  // registerForEvent

  /** `feld.pflicht && (daten[feld.feldname] === undefined ||
      daten[feld.feldname] === "")`: null, 0, false and any other value
      count as filled. */
  predicate Missing(feld: Feld, daten: Value)
    ensures Missing(feld, daten) ==> Truthy(feld.pflicht)
    ensures Missing(feld, daten) ==> !Truthy(Prop(daten, ToString(feld.feldname)))
  {
    var v := Prop(daten, ToString(feld.feldname));
    Truthy(feld.pflicht) && (v == Undefined || v == Str(""))
  }

  /** The index of the first required field, in table order, that `daten`
      leaves out. */
  function FirstMissing(felder: seq<Row<Feld>>, daten: Value): (r: Option<nat>)
    ensures r.None? <==> forall i :: 0 <= i < |felder| ==> !Missing(felder[i].data, daten)
    ensures r.Some? ==> r.value < |felder| && Missing(felder[r.value].data, daten)
    ensures r.Some? ==> forall j :: 0 <= j < r.value ==> !Missing(felder[j].data, daten)
  {
    if felder == [] then None
    else if Missing(felder[0].data, daten) then Some(0)
    else match FirstMissing(felder[1..], daten)
      case None => None
      case Some(k) => Some(k + 1)
  }

  /** The loop of `registerForEvent` over the event's fields, stopping at
      the first one that is missing. */
  method FindMissing(felder: seq<Row<Feld>>, daten: Value) returns (missing: Option<nat>)
    ensures missing == FirstMissing(felder, daten)
  {
    var i := 0;
    while i < |felder|
      invariant 0 <= i <= |felder|
      invariant forall j :: 0 <= j < i ==> !Missing(felder[j].data, daten)
    {
      var feld := felder[i].data;
      var v := Prop(daten, ToString(feld.feldname));
      if Truthy(feld.pflicht) && (v == Undefined || v == Str("")) {
        FirstMissingIs(felder, daten, i);
        return Some(i);
      }
      i := i + 1;
    }
    missing := None;
  }

  /** `FirstMissing` is the first index at which a field is missing. */
  lemma {:induction false} FirstMissingIs(felder: seq<Row<Feld>>, daten: Value, i: nat)
    requires i < |felder| && Missing(felder[i].data, daten)
    requires forall j :: 0 <= j < i ==> !Missing(felder[j].data, daten)
    ensures FirstMissing(felder, daten) == Some(i)
  {
    if i > 0 {
      FirstMissingIs(felder[1..], daten, i - 1);
    }
  }

  /** Keys the form does not know never matter, and neither does a field
      that is not required. */
  lemma ExtraKeysAllowed(felder: seq<Row<Feld>>, props: map<string, Value>, key: string, v: Value)
    requires forall i :: 0 <= i < |felder| ==> ToString(felder[i].data.feldname) != key
    ensures FirstMissing(felder, Obj(props[key := v])) == FirstMissing(felder, Obj(props))
  {
    var a, b := Obj(props[key := v]), Obj(props);
    forall i | 0 <= i < |felder| ensures Missing(felder[i].data, a) == Missing(felder[i].data, b) {
    }
    FirstMissingSame(felder, a, b);
  }

  lemma {:induction false} FirstMissingSame(felder: seq<Row<Feld>>, a: Value, b: Value)
    requires forall i :: 0 <= i < |felder| ==> Missing(felder[i].data, a) == Missing(felder[i].data, b)
    ensures FirstMissing(felder, a) == FirstMissing(felder, b)
  {
    if felder != [] {
      var rest := felder[1..];
      forall i | 0 <= i < |rest| ensures Missing(rest[i].data, a) == Missing(rest[i].data, b) {
        assert rest[i] == felder[i + 1];
      }
      FirstMissingSame(rest, a, b);
      assert Missing(felder[0].data, a) == Missing(felder[0].data, b);
    }
  }

  /** A required field sent as null passes the check. */
  lemma NullCountsAsFilled(feld: Feld, props: map<string, Value>)
    requires ToString(feld.feldname) in props && props[ToString(feld.feldname)] == Null
    ensures !Missing(feld, Obj(props))
  {
  }

  // ---------------------------------------------------------------------
  // getRegistrations

  /** One registration as `getRegistrations` answers it: the whole stored
      `daten`, with `vorname` and `nachname` lifted out (or null). */
  datatype RegistrationView = RegistrationView(id: int, vorname: Value, nachname: Value, daten: Value, createdAt: int)

  function RegistrationViewOf(r: Row<Anmeldung>): (v: RegistrationView)
    ensures v.id == r.id && v.daten == r.data.daten && v.createdAt == r.data.createdAt
    ensures Truthy(Prop(r.data.daten, "vorname")) ==> v.vorname == Prop(r.data.daten, "vorname")
    ensures !Truthy(Prop(r.data.daten, "vorname")) ==> v.vorname == Null
    ensures Truthy(Prop(r.data.daten, "nachname")) ==> v.nachname == Prop(r.data.daten, "nachname")
    ensures !Truthy(Prop(r.data.daten, "nachname")) ==> v.nachname == Null
  {
    RegistrationView(r.id, Or(Prop(r.data.daten, "vorname"), Null), Or(Prop(r.data.daten, "nachname"), Null),
                     r.data.daten, r.data.createdAt)
  }

  function RegistrationViews(t: seq<Row<Anmeldung>>): (r: seq<RegistrationView>)
    ensures |r| == |t| && forall i :: 0 <= i < |t| ==> r[i] == RegistrationViewOf(t[i])
  {
    seq(|t|, i requires 0 <= i < |t| => RegistrationViewOf(t[i]))
  }

  function CreatedAt(a: Anmeldung): int {
    a.createdAt
  }
}
