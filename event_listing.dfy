/** What `getEvents` and `getEventById` answer: the LEFT JOIN of events
    with their price tiers, grouped back into one object per event with a
    `preise` list. */
module EventListing {
  import opened Js
  import opened Table
  import opened EventData

  /** A row of `events e LEFT JOIN event_preise p ON e.id = p.event_id`:
      the event's columns and `p.id AS preis_id`, `p.preisbeschreibung`,
      `p.kosten` (all NULL when the event has no tier). */
  datatype Joined = Joined(event: Row<Event>, preisId: Value, preisbeschreibung: Value, kosten: Value)

  datatype PreisView = PreisView(id: Value, preisbeschreibung: Value, kosten: Value)

  /** The object a handler answers for one event. */
  datatype EventView = EventView(id: int, titel: Value, beschreibung: Value, ort: Value, von: Value,
                                 bis: Value, status: Value, bild: Value, alle: bool, supporter: bool,
                                 preise: seq<PreisView>)

  /** The stored image is PNG base64 without prefix; the answer restores a
      data URI, or null when there is none. */
  function ImageUrl(bild: Value): (r: Value)
    ensures Truthy(bild) ==> r == Str("data:image/png;base64," + ToString(bild))
    ensures !Truthy(bild) ==> r == Null
  {
    if Truthy(bild) then Str("data:image/png;base64," + ToString(bild)) else Null
  }

  function View(e: Row<Event>, preise: seq<PreisView>): (v: EventView)
    ensures v.id == e.id && v.preise == preise
    ensures v.titel == e.data.titel && v.beschreibung == e.data.beschreibung && v.ort == e.data.ort &&
            v.von == e.data.von && v.bis == e.data.bis && v.status == e.data.status
    ensures v.alle == Truthy(e.data.alle) && v.supporter == Truthy(e.data.supporter)
    ensures v.bild == ImageUrl(e.data.bild)
  {
    EventView(e.id, e.data.titel, e.data.beschreibung, e.data.ort, e.data.von, e.data.bis,
              e.data.status, ImageUrl(e.data.bild), Truthy(e.data.alle), Truthy(e.data.supporter), preise)
  }

  function PreisOf(r: Joined): PreisView {
    PreisView(r.preisId, r.preisbeschreibung, r.kosten)
  }

  /** The tiers of event `id` as the answer lists them, in table order: the
      reference the grouping is measured against. */
  function PricesOfEvent(pr: seq<Row<Preis>>, id: int): (r: seq<PreisView>)
    ensures |r| <= |pr|
  {
    if pr == [] then []
    else (if pr[0].data.eventId == id
          then [PreisView(Num(pr[0].id), pr[0].data.preisbeschreibung, pr[0].data.kosten)] else [])
         + PricesOfEvent(pr[1..], id)
  }

  // ---------------------------------------------------------------------
  // The join

  /** The joined rows of one event that has tiers. */
  function JoinPrices(e: Row<Event>, pr: seq<Row<Preis>>): seq<Joined>
  {
    if pr == [] then []
    else (if pr[0].data.eventId == e.id
          then [Joined(e, Num(pr[0].id), pr[0].data.preisbeschreibung, pr[0].data.kosten)] else [])
         + JoinPrices(e, pr[1..])
  }

  /** The joined rows of one event: one per tier, or a single row with NULL
      tier columns. */
  function JoinOne(e: Row<Event>, pr: seq<Row<Preis>>): (r: seq<Joined>)
    ensures r != []
  {
    var js := JoinPrices(e, pr);
    if js == [] then [Joined(e, Null, Null, Null)] else js
  }

  /** The LEFT JOIN, event by event. The database's `ORDER BY e.von DESC`
      does not reach the answer, which is ordered by id. */
  function LeftJoin(events: seq<Row<Event>>, pr: seq<Row<Preis>>): (r: seq<Joined>)
    ensures |r| >= |events|
  {
    if events == [] then [] else JoinOne(events[0], pr) + LeftJoin(events[1..], pr)
  }

  // ---------------------------------------------------------------------
  // Grouping: `grouped[row.id]` filled row by row

  /** The header object created for the first row of an event. */
  function Header(r: Joined): EventView {
    View(r.event, [])
  }

  /** One turn of the loop: create the entry on the first row of an event,
      then push the row's tier when `preis_id` is set. */
  function GroupStep(g: map<int, EventView>, row: Joined): (r: map<int, EventView>)
    ensures row.event.id in r && r == g[row.event.id := r[row.event.id]]
    ensures row.event.id in g ==>
      r[row.event.id] == g[row.event.id].(preise := g[row.event.id].preise + PushedTier(row))
    ensures row.event.id !in g ==> r[row.event.id] == View(row.event, PushedTier(row))
  {
    var id := row.event.id;
    var g1 := if id in g then g else g[id := Header(row)];
    if Truthy(row.preisId) then g1[id := g1[id].(preise := g1[id].preise + [PreisOf(row)])] else g1
  }

  /** The tier a row pushes: its own when `preis_id` is set. */
  function PushedTier(row: Joined): seq<PreisView> {
    if Truthy(row.preisId) then [PreisOf(row)] else []
  }

  /** The object after the loop has seen `rows`. Every entry sits under
      its own event's id, and the last row's event always has one. */
  function Group(rows: seq<Joined>): (r: map<int, EventView>)
    ensures rows != [] ==> rows[|rows| - 1].event.id in r
    decreases |rows|
  {
    if rows == [] then map[] else GroupStep(Group(rows[..|rows| - 1]), rows[|rows| - 1])
  }

  /** The loop of `getEvents`. */
  method GroupRows(rows: seq<Joined>) returns (grouped: map<int, EventView>)
    ensures grouped == Group(rows)
  {
    grouped := map[];
    var i := 0;
    while i < |rows|
      invariant 0 <= i <= |rows|
      invariant grouped == Group(rows[..i])
    {
      var row := rows[i];
      if row.event.id !in grouped {
        grouped := grouped[row.event.id := Header(row)];
      }
      if Truthy(row.preisId) {
        grouped := grouped[row.event.id := grouped[row.event.id].(preise := grouped[row.event.id].preise + [PreisOf(row)])];
      }
      assert rows[..i + 1][..i] == rows[..i];
      i := i + 1;
    }
    assert rows[..i] == rows;
  }

  /** The tiers the loop pushes for event `k`, in row order. */
  function PricesFor(rows: seq<Joined>, k: int): (r: seq<PreisView>)
    ensures |r| <= |rows|
    decreases |rows|
  {
    if rows == [] then []
    else
      var r := rows[|rows| - 1];
      PricesFor(rows[..|rows| - 1], k) + (if r.event.id == k && Truthy(r.preisId) then [PreisOf(r)] else [])
  }

  /** Rows with the same event id carry the same event. */
  ghost predicate Consistent(rows: seq<Joined>) {
    forall i, j :: 0 <= i < |rows| && 0 <= j < |rows| && rows[i].event.id == rows[j].event.id ==>
      rows[i].event == rows[j].event
  }

  /** The object has exactly one entry per event id among the rows. */
  lemma {:induction false} GroupKeys(rows: seq<Joined>, k: int)
    ensures k in Group(rows) <==> exists i :: 0 <= i < |rows| && rows[i].event.id == k
    decreases |rows|
  {
    if rows != [] {
      var n := |rows| - 1;
      var prefix := rows[..n];
      GroupKeys(prefix, k);
      if k in Group(rows) && rows[n].event.id != k {
        var i :| 0 <= i < |prefix| && prefix[i].event.id == k;
        assert rows[i] == prefix[i];
      }
      forall i | 0 <= i < n && rows[i].event.id == k ensures k in Group(prefix) {
        assert prefix[i] == rows[i];
      }
    }
  }

  lemma {:induction false} PricesForNone(rows: seq<Joined>, k: int)
    requires forall i :: 0 <= i < |rows| ==> rows[i].event.id != k
    ensures PricesFor(rows, k) == []
    decreases |rows|
  {
    if rows != [] {
      PricesForNone(rows[..|rows| - 1], k);
    }
  }

  /** What the last turn of the loop does to the entry of `k`. */
  lemma GroupLast(rows: seq<Joined>, k: int)
    requires rows != []
    ensures var n := |rows| - 1;
      var g, last := Group(rows[..n]), rows[n];
      && (last.event.id != k ==>
            (k in Group(rows) <==> k in g) && (k in g ==> Group(rows)[k] == g[k]) &&
            PricesFor(rows, k) == PricesFor(rows[..n], k))
      && (last.event.id == k ==> PricesFor(rows, k) == PricesFor(rows[..n], k) + PushedTier(last))
      && (last.event.id == k && k in g ==> Group(rows)[k] == g[k].(preise := g[k].preise + PushedTier(last)))
      && (last.event.id == k && k !in g ==> Group(rows)[k] == View(last.event, PushedTier(last)))
  {
    var n := |rows| - 1;
    assert Group(rows) == GroupStep(Group(rows[..n]), rows[n]);
  }

  /** Each entry is its event's header with the tiers of exactly its rows
      whose `preis_id` is set, in row order. */
  lemma {:induction false} GroupEntry(rows: seq<Joined>, k: int, i: int)
    requires Consistent(rows)
    requires 0 <= i < |rows| && rows[i].event.id == k
    ensures k in Group(rows) && Group(rows)[k] == View(rows[i].event, PricesFor(rows, k))
    decreases |rows|
  {
    GroupKeys(rows, k);
    var e := rows[i].event;
    assert AllCarry(rows, k, e);
    GroupEntryOf(rows, k, e);
  }

  /** Every row of event `k` carries the event `e`. */
  ghost predicate AllCarry(rows: seq<Joined>, k: int, e: Row<Event>) {
    forall j :: 0 <= j < |rows| && rows[j].event.id == k ==> rows[j].event == e
  }

  lemma {:induction false} GroupEntryOf(rows: seq<Joined>, k: int, e: Row<Event>)
    requires AllCarry(rows, k, e) && k in Group(rows)
    ensures Group(rows)[k] == View(e, PricesFor(rows, k))
    decreases |rows|
  {
    assert rows != [];
    var n := |rows| - 1;
    var prefix := rows[..n];
    var last := rows[n];
    assert AllCarry(prefix, k, e) by {
      forall j | 0 <= j < |prefix| && prefix[j].event.id == k ensures prefix[j].event == e {
        assert prefix[j] == rows[j];
      }
    }
    GroupLast(rows, k);
    if last.event.id != k {
      GroupEntryOf(prefix, k, e);
    } else if k in Group(prefix) {
      GroupEntryOf(prefix, k, e);
    } else {
      GroupAbsent(prefix, k);
    }
  }

  /** An event with no entry has had no tier pushed. */
  lemma GroupAbsent(rows: seq<Joined>, k: int)
    requires k !in Group(rows)
    ensures PricesFor(rows, k) == []
  {
    GroupKeys(rows, k);
    forall j | 0 <= j < |rows| ensures rows[j].event.id != k {
    }
    PricesForNone(rows, k);
  }

  lemma {:induction false} PricesForAppend(a: seq<Joined>, b: seq<Joined>, k: int)
    ensures PricesFor(a + b, k) == PricesFor(a, k) + PricesFor(b, k)
    decreases |b|
  {
    if b == [] {
      assert a + b == a;
    } else {
      var n := |b| - 1;
      assert (a + b)[..|a + b| - 1] == a + b[..n];
      PricesForAppend(a, b[..n], k);
    }
  }

  lemma PricesForSingle(x: Joined, k: int)
    ensures PricesFor([x], k) == if x.event.id == k && Truthy(x.preisId) then [PreisOf(x)] else []
  {
    assert [x][..0] == [];
  }

  /** The tier rows of one event correspond one to one to its tiers. */
  lemma {:induction false} JoinPricesMatch(e: Row<Event>, pr: seq<Row<Preis>>, next: int)
    requires Keyed(pr, next)
    ensures PricesFor(JoinPrices(e, pr), e.id) == PricesOfEvent(pr, e.id)
    ensures forall i :: 0 <= i < |JoinPrices(e, pr)| ==> JoinPrices(e, pr)[i].event == e
    ensures |JoinPrices(e, pr)| == |PricesOfEvent(pr, e.id)|
  {
    JoinPricesEvent(e, pr);
    if pr != [] {
      TailKeyed(pr, next);
      JoinPricesMatch(e, pr[1..], next);
      var head := if pr[0].data.eventId == e.id
                  then [Joined(e, Num(pr[0].id), pr[0].data.preisbeschreibung, pr[0].data.kosten)] else [];
      var tail := JoinPrices(e, pr[1..]);
      assert JoinPrices(e, pr) == head + tail;
      var tiers := if pr[0].data.eventId == e.id
                   then [PreisView(Num(pr[0].id), pr[0].data.preisbeschreibung, pr[0].data.kosten)] else [];
      assert PricesOfEvent(pr, e.id) == tiers + PricesOfEvent(pr[1..], e.id);
      PricesForAppend(head, tail, e.id);
      if head != [] {
        PricesForSingle(head[0], e.id);
      }
      assert PricesFor(head, e.id) == tiers;
    }
  }

  lemma JoinOneMatch(e: Row<Event>, pr: seq<Row<Preis>>, next: int)
    requires Keyed(pr, next)
    ensures PricesFor(JoinOne(e, pr), e.id) == PricesOfEvent(pr, e.id)
    ensures forall i :: 0 <= i < |JoinOne(e, pr)| ==> JoinOne(e, pr)[i].event == e
  {
    JoinPricesMatch(e, pr, next);
    if JoinPrices(e, pr) == [] {
      PricesForSingle(Joined(e, Null, Null, Null), e.id);
    }
  }

  lemma {:induction false} JoinPricesEvent(e: Row<Event>, pr: seq<Row<Preis>>)
    ensures forall i :: 0 <= i < |JoinPrices(e, pr)| ==> JoinPrices(e, pr)[i].event == e
  {
    if pr != [] {
      JoinPricesEvent(e, pr[1..]);
    }
  }

  function EventsOf(rows: seq<Joined>): (r: seq<Row<Event>>)
    ensures |r| == |rows| && forall j :: 0 <= j < |rows| ==> r[j] == rows[j].event
  {
    seq(|rows|, j requires 0 <= j < |rows| => rows[j].event)
  }

  /** Every joined row belongs to one of the events ... */
  lemma {:induction false} LeftJoinFrom(events: seq<Row<Event>>, pr: seq<Row<Preis>>)
    ensures forall j :: 0 <= j < |LeftJoin(events, pr)| ==> LeftJoin(events, pr)[j].event in events
  {
    if events != [] {
      LeftJoinFrom(events[1..], pr);
      JoinPricesEvent(events[0], pr);
      var one, rest := JoinOne(events[0], pr), LeftJoin(events[1..], pr);
      var all := LeftJoin(events, pr);
      assert all == one + rest;
      forall j | 0 <= j < |all| ensures all[j].event in events {
        if j < |one| {
          assert all[j] == one[j];
        } else {
          assert all[j] == rest[j - |one|];
          assert rest[j - |one|].event in events[1..];
        }
      }
    }
  }

  /** ... and every event has a joined row. */
  lemma {:induction false} LeftJoinCovers(events: seq<Row<Event>>, pr: seq<Row<Preis>>)
    ensures forall i :: 0 <= i < |events| ==> events[i] in EventsOf(LeftJoin(events, pr))
  {
    if events != [] {
      LeftJoinCovers(events[1..], pr);
      JoinPricesEvent(events[0], pr);
      var one, rest := JoinOne(events[0], pr), LeftJoin(events[1..], pr);
      var all := LeftJoin(events, pr);
      assert all == one + rest;
      forall i | 0 <= i < |events| ensures events[i] in EventsOf(all) {
        if i == 0 {
          assert all[0] == one[0];
          assert EventsOf(all)[0] == events[0];
        } else {
          assert events[i] == events[1..][i - 1];
          assert events[i] in EventsOf(rest);
          var j :| 0 <= j < |rest| && EventsOf(rest)[j] == events[i];
          assert all[|one| + j] == rest[j];
          assert EventsOf(all)[|one| + j] == events[i];
        }
      }
    }
  }

  /** With unique event ids the joined rows of one id carry one event. */
  lemma LeftJoinConsistent(events: seq<Row<Event>>, enext: int, pr: seq<Row<Preis>>, next: int)
    requires Keyed(events, enext) && Keyed(pr, next)
    ensures Consistent(LeftJoin(events, pr))
  {
    LeftJoinFrom(events, pr);
  }

  /** The tiers the loop collects for an event are exactly its tiers. */
  lemma {:induction false} LeftJoinPrices(events: seq<Row<Event>>, enext: int, pr: seq<Row<Preis>>, next: int, i: int)
    requires Keyed(events, enext) && Keyed(pr, next) && 0 <= i < |events|
    ensures PricesFor(LeftJoin(events, pr), events[i].id) == PricesOfEvent(pr, events[i].id)
  {
    var k := events[i].id;
    var e := events[0];
    var one, rest := JoinOne(e, pr), LeftJoin(events[1..], pr);
    assert LeftJoin(events, pr) == one + rest;
    PricesForAppend(one, rest, k);
    JoinOneMatch(e, pr, next);
    TailKeyed(events, enext);
    if i == 0 {
      LeftJoinFrom(events[1..], pr);
      forall j | 0 <= j < |rest| ensures rest[j].event.id != k {
        assert rest[j].event in events[1..];
        var m :| 0 <= m < |events[1..]| && events[1..][m] == rest[j].event;
      }
      PricesForNone(rest, k);
    } else {
      assert e.id != k;
      PricesForNone(one, k);
      assert events[i] == events[1..][i - 1];
      LeftJoinPrices(events[1..], enext, pr, next, i - 1);
    }
  }

  // ---------------------------------------------------------------------
  // `Object.values(grouped)`: integer keys in ascending order

  predicate IsMin(m: int, s: set<int>) {
    m in s && forall x :: x in s ==> m <= x
  }

  lemma Pick(s: set<int>)
    requires s != {}
    ensures exists x :: x in s
  {
    if forall x :: x !in s {
      assert false;
    }
  }

  lemma {:induction false} MinExists(s: set<int>)
    requires s != {}
    ensures exists m :: IsMin(m, s)
    decreases |s|
  {
    Pick(s);
    var x :| x in s;
    var rest := s - {x};
    if rest == {} {
      assert s == {x};
      assert IsMin(x, s);
    } else {
      MinExists(rest);
      var m :| IsMin(m, rest);
      var low := if x < m then x else m;
      forall y | y in s ensures low <= y {
        if y != x { assert y in rest; }
      }
      assert IsMin(low, s);
    }
  }

  predicate StrictlyAscending(r: seq<int>) {
    forall i, j :: 0 <= i < j < |r| ==> r[i] < r[j]
  }

  /** The keys of a set in ascending order. */
  function SortedKeys(s: set<int>): (r: seq<int>)
    ensures forall x :: x in s <==> x in r
    ensures StrictlyAscending(r)
    decreases |s|
  {
    if s == {} then []
    else
      MinExists(s);
      var m :| IsMin(m, s);
      var rest := SortedKeys(s - {m});
      assert forall i :: 0 <= i < |rest| ==> m < rest[i] by {
        forall i | 0 <= i < |rest| ensures m < rest[i] {
          assert rest[i] in s - {m};
        }
      }
      [m] + rest
  }

  predicate Among(x: int, s: seq<int>) {
    x in s
  }

  lemma NoMembersEmpty(s: seq<int>)
    requires forall x :: x !in s
    ensures s == []
  {
    if s != [] {
      assert Among(s[0], s);
      assert false;
    }
  }

  /** In an ascending sequence the first element is the least, and the
      rest holds every other element. */
  lemma AscendingSplit(q: seq<int>, x: int)
    requires StrictlyAscending(q) && q != []
    ensures x in q ==> q[0] <= x
    ensures x in q[1..] <==> x in q && x != q[0]
  {
    if x in q {
      var i :| 0 <= i < |q| && q[i] == x;
      if i > 0 {
        assert q[1..][i - 1] == x;
      }
    }
    if x in q[1..] {
      var i :| 0 <= i < |q[1..]| && q[1..][i] == x;
      assert q[i + 1] == x;
    }
  }

  /** Two ascending sequences with the same elements are equal. */
  lemma {:induction false} AscendingSameElements(q: seq<int>, r: seq<int>)
    requires StrictlyAscending(q) && StrictlyAscending(r)
    requires forall x :: x in q <==> x in r
    ensures q == r
    decreases |q|
  {
    if q == [] {
      NoMembersEmpty(r);
    } else {
      assert Among(q[0], q);
      assert r != [];
      AscendingSplit(q, r[0]);
      AscendingSplit(r, q[0]);
      assert Among(r[0], r);
      forall x ensures x in q[1..] <==> x in r[1..] {
        AscendingSplit(q, x);
        AscendingSplit(r, x);
      }
      AscendingSameElements(q[1..], r[1..]);
      assert q == [q[0]] + q[1..] && r == [r[0]] + r[1..];
    }
  }

  /** An ascending sequence holding exactly the set's elements is
      `SortedKeys` of it. */
  lemma SortedKeysUnique(s: set<int>, r: seq<int>)
    requires StrictlyAscending(r) && forall x :: x in s <==> x in r
    ensures SortedKeys(s) == r
  {
    AscendingSameElements(SortedKeys(s), r);
  }

  /** `Object.values` of an object whose keys are array indices. */
  function ObjectValues<V>(m: map<int, V>): (r: seq<V>)
    ensures |r| == |SortedKeys(m.Keys)|
    ensures forall i :: 0 <= i < |r| ==> SortedKeys(m.Keys)[i] in m && r[i] == m[SortedKeys(m.Keys)[i]]
  {
    var ks := SortedKeys(m.Keys);
    seq(|ks|, i requires 0 <= i < |ks| => m[ks[i]])
  }

  /** The object has one key per event. */
  lemma ListingKeys(events: seq<Row<Event>>, enext: int, pr: seq<Row<Preis>>, next: int)
    requires Keyed(events, enext) && Keyed(pr, next)
    ensures forall x :: x in Group(LeftJoin(events, pr)).Keys <==> x in IdsOf(events)
  {
    LeftJoinFrom(events, pr);
    LeftJoinCovers(events, pr);
    forall x ensures x in Group(LeftJoin(events, pr)).Keys <==> x in IdsOf(events) {
      RowKeys(LeftJoin(events, pr), events, x);
    }
  }

  /** The keys of the grouped rows, when the rows come from `events` and
      cover every one of them. */
  lemma RowKeys(rows: seq<Joined>, events: seq<Row<Event>>, x: int)
    requires forall j :: 0 <= j < |rows| ==> rows[j].event in events
    requires forall i :: 0 <= i < |events| ==> events[i] in EventsOf(rows)
    ensures x in Group(rows).Keys <==> x in IdsOf(events)
  {
    GroupKeys(rows, x);
  }

  /** The entry of each event is its view with its own tiers. */
  lemma ListingEntry(events: seq<Row<Event>>, enext: int, pr: seq<Row<Preis>>, next: int, i: int)
    requires Keyed(events, enext) && Keyed(pr, next) && 0 <= i < |events|
    ensures events[i].id in Group(LeftJoin(events, pr))
    ensures Group(LeftJoin(events, pr))[events[i].id] == View(events[i], PricesOfEvent(pr, events[i].id))
  {
    var rows := LeftJoin(events, pr);
    LeftJoinCovers(events, pr);
    LeftJoinConsistent(events, enext, pr, next);
    assert events[i] in EventsOf(rows);
    var j :| 0 <= j < |rows| && EventsOf(rows)[j] == events[i];
    GroupEntry(rows, events[i].id, j);
    LeftJoinPrices(events, enext, pr, next, i);
  }

  /** `getEvents` answers exactly one object per event, in id order, each
      with exactly that event's tiers in table order. */
  lemma ListingShowsEveryEvent(events: seq<Row<Event>>, enext: int, pr: seq<Row<Preis>>, next: int)
    requires Keyed(events, enext) && Keyed(pr, next)
    ensures |ObjectValues(Group(LeftJoin(events, pr)))| == |events|
    ensures forall i :: 0 <= i < |events| ==>
      ObjectValues(Group(LeftJoin(events, pr)))[i] == View(events[i], PricesOfEvent(pr, events[i].id))
  {
    var g := Group(LeftJoin(events, pr));
    ListingKeys(events, enext, pr, next);
    SortedKeysUnique(g.Keys, IdsOf(events));
    forall i | 0 <= i < |events|
      ensures ObjectValues(g)[i] == View(events[i], PricesOfEvent(pr, events[i].id)) {
      ListingEntry(events, enext, pr, next, i);
    }
  }
}
