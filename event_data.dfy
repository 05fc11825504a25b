/** The rows of the event subsystem's four tables, and the two rules that
    act on them row by row: the lazy expiry of past events and the
    filtering of price tiers on create. */
module EventData {
  import opened Js
  import opened Table

  /** A row of `events`, one value per column. `alle` and `supporter` are
      TINYINT flags, written as 1 or 0; `von` and `bis` are DATETIME values,
      modelled as numbers (milliseconds) when they can be compared with
      `NOW()`. */
  datatype Event = Event(titel: Value, beschreibung: Value, ort: Value, von: Value, bis: Value,
                         bild: Value, bildtitel: Value, supporter: Value, alle: Value, status: Value)

  /** A row of `event_preise`. */
  datatype Preis = Preis(eventId: int, preisbeschreibung: Value, kosten: Value)

  const Aktiv: Value := Str("aktiv")
  const Beendet: Value := Str("beendet")

  /** `bis < NOW()`: false for NULL and for anything that is not a time. */
  predicate Expired(bis: Value, now: int) {
    bis.Num? && bis.n < now
  }

  /** The row after `SET status='beendet' WHERE bis < NOW() AND status='aktiv'`
      when `pick` also holds of its id. */
  function ExpireRow(e: Row<Event>, now: int, pick: int -> bool): (r: Row<Event>)
    ensures r.id == e.id && r.data == e.data.(status := r.data.status)
    ensures r != e <==> pick(e.id) && Expired(e.data.bis, now) && e.data.status == Aktiv
    ensures r != e ==> r.data.status == Beendet
  {
    if pick(e.id) && Expired(e.data.bis, now) && e.data.status == Aktiv
    then Row(e.id, e.data.(status := Beendet)) else e
  }

  /** The expiry UPDATE over the whole table. Afterwards no picked event
      that is over is still active, and every other row is as it was. */
  function Expire(t: seq<Row<Event>>, now: int, pick: int -> bool): (r: seq<Row<Event>>)
    ensures |r| == |t|
    ensures forall i :: 0 <= i < |t| ==> r[i].id == t[i].id
    ensures forall i :: 0 <= i < |t| && pick(t[i].id) && Expired(t[i].data.bis, now) ==> r[i].data.status != Aktiv
    ensures forall i :: 0 <= i < |t| && !(pick(t[i].id) && Expired(t[i].data.bis, now)) ==> r[i] == t[i]
    ensures forall i :: 0 <= i < |t| ==> r[i].data == t[i].data.(status := r[i].data.status)
    ensures forall i :: 0 <= i < |t| && t[i].data.status != Aktiv ==> r[i] == t[i]
  {
    seq(|t|, i requires 0 <= i < |t| => ExpireRow(t[i], now, pick))
  }

  /** Expiry keeps the table keyed. */
  lemma ExpireKeyed(t: seq<Row<Event>>, next: int, now: int, pick: int -> bool)
    requires Keyed(t, next)
    ensures Keyed(Expire(t, now, pick), next)
  {
  }

  /** Running the expiry twice at the same time changes nothing more. */
  lemma ExpireIdempotent(t: seq<Row<Event>>, now: int, pick: int -> bool)
    ensures Expire(Expire(t, now, pick), now, pick) == Expire(t, now, pick)
  {
  }

  // ---------------------------------------------------------------------
  // Price tiers

  /** `p && (p.preisbeschreibung || p.kosten !== undefined)` */
  predicate KeepsTier(p: Value)
    ensures Nullish(p) ==> !KeepsTier(p)
    ensures Truthy(p) && Prop(p, "kosten") != Undefined ==> KeepsTier(p)
    ensures KeepsTier(p) && !Truthy(Prop(p, "preisbeschreibung")) ==> Prop(p, "kosten") != Undefined
  {
    Truthy(p) && (Truthy(Prop(p, "preisbeschreibung")) || Prop(p, "kosten") != Undefined)
  }

  /** `[eventId, p.preisbeschreibung || null, p.kosten != null ? p.kosten : 0]` */
  function TierRow(eventId: int, p: Value): (r: Preis)
    ensures r.eventId == eventId
    ensures !Nullish(r.kosten)
    ensures !Nullish(Prop(p, "kosten")) ==> r.kosten == Prop(p, "kosten")
    ensures Truthy(Prop(p, "preisbeschreibung")) ==> r.preisbeschreibung == Prop(p, "preisbeschreibung")
    ensures !Truthy(Prop(p, "preisbeschreibung")) ==> r.preisbeschreibung == Null
  {
    var kosten := Prop(p, "kosten");
    Preis(eventId, Or(Prop(p, "preisbeschreibung"), Null), if Nullish(kosten) then Num(0) else kosten)
  }

  /** The tier rows of `preise.filter(...).map(...)`. */
  function Tiers(eventId: int, preise: seq<Value>): (r: seq<Preis>)
    ensures |r| <= |preise|
    ensures forall i :: 0 <= i < |r| ==> r[i].eventId == eventId
  {
    if preise == [] then []
    else (if KeepsTier(preise[0]) then [TierRow(eventId, preise[0])] else []) + Tiers(eventId, preise[1..])
  }

  /** The tiers of a concatenation are the tiers of each part, in order;
      with `TiersSingle` this says the filter keeps input order. */
  lemma {:induction false} TiersAppend(eventId: int, a: seq<Value>, b: seq<Value>)
    ensures Tiers(eventId, a + b) == Tiers(eventId, a) + Tiers(eventId, b)
  {
    if a == [] {
      assert a + b == b;
    } else {
      assert (a + b)[1..] == a[1..] + b;
      TiersAppend(eventId, a[1..], b);
    }
  }

  /** One entry is kept exactly when it is truthy and has a description or
      a defined price; a missing or null price becomes 0. */
  lemma TiersSingle(eventId: int, p: Value)
    ensures Tiers(eventId, [p]) == if KeepsTier(p) then [TierRow(eventId, p)] else []
    ensures KeepsTier(p) && Nullish(Prop(p, "kosten")) ==> Tiers(eventId, [p])[0].kosten == Num(0)
  {
    assert [p][1..] == [];
  }

  /** `Array.isArray(preise) && preise.length > 0`: anything else adds no
      tiers. */
  function PriceRows(eventId: int, preise: Value): (r: seq<Preis>)
    ensures !preise.Arr? ==> r == []
    ensures preise.Arr? ==> r == Tiers(eventId, preise.items)
  {
    if preise.Arr? && |preise.items| > 0 then Tiers(eventId, preise.items) else []
  }
}
