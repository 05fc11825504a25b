/** The link page: sections (`content_sections`) with a subtitle, and links
    (`content_links`) that each belong to a section by `section_id`. */
module Links {
  import opened Js
  import opened Table
  import opened Auth
  import Http

  datatype Section = Section(subtitle: Value)

  /** A row of `content_links`. `position` is NULL until `reorderLinks`
      sets it. */
  datatype Link = Link(sectionId: int, text: Value, url: Value, position: Value)

  datatype Db = Db(sections: Store<Section>, links: Store<Link>)

  /** Both tables keyed, and every link names a section id that was handed
      out (a section that exists, or existed). */
  ghost predicate Sound(db: Db) {
    WellKeyed(db.sections) && WellKeyed(db.links) && Referenced(db.links.rows, db.sections.next)
  }

  ghost predicate Referenced(t: seq<Row<Link>>, bound: int) {
    forall i :: 0 <= i < |t| ==> t[i].data.sectionId < bound
  }

  datatype Outcome = Outcome(status: int, db: Db)

  /** `WHERE id = ?` on sections and links, and `WHERE section_id = ?`. */
  function SectionIs(param: Value): Row<Section> -> bool {
    (r: Row<Section>) => IdIs(r.id, param)
  }

  function NotSectionIs(param: Value): Row<Section> -> bool {
    (r: Row<Section>) => !IdIs(r.id, param)
  }

  function LinkIs(param: Value): Row<Link> -> bool {
    (r: Row<Link>) => IdIs(r.id, param)
  }

  function NotLinkIs(param: Value): Row<Link> -> bool {
    (r: Row<Link>) => !IdIs(r.id, param)
  }

  function InSection(param: Value): Row<Link> -> bool {
    (r: Row<Link>) => IdIs(r.data.sectionId, param)
  }

  function NotInSection(param: Value): Row<Link> -> bool {
    (r: Row<Link>) => !IdIs(r.data.sectionId, param)
  }

  /** Some section has the id: `sectionExists.length > 0`. */
  predicate HasSection(db: Db, id: string) {
    Where(db.sections.rows, SectionIs(Str(id))) != []
  }

  lemma HasSectionId(db: Db, id: string)
    requires HasSection(db, id)
    ensures SqlInt(Str(id)).Some?
  {
    var w := Where(db.sections.rows, SectionIs(Str(id)));
    assert SectionIs(Str(id))(w[0]);
  }

  /** `SET subtitle = ?` */
  function Retitle(subtitle: Value): Section -> Section {
    (d: Section) => Section(subtitle)
  }

  // ---------------------------------------------------------------------
  // createSectionWithLinks

  /** `[sectionId, link.text, link.url]`, stored with `undefined` as NULL. */
  function NewLink(sectionId: int, l: Value): Link {
    Link(sectionId, Stored(Prop(l, "text")), Stored(Prop(l, "url")), Null)
  }

  function NewLinks(sectionId: int, links: seq<Value>): (r: seq<Link>)
    ensures |r| == |links| && forall i :: 0 <= i < |links| ==> r[i] == NewLink(sectionId, links[i])
  {
    seq(|links|, i requires 0 <= i < |links| => NewLink(sectionId, links[i]))
  }

  /** `createSectionWithLinks`: role, a truthy subtitle (400), then the
      section and one link per element of a non-empty `links` array. There
      is no transaction: a null element throws after the section is in. */
  function CreateSectionRule(db: Db, user: Value, body: map<string, Value>): (r: Outcome)
    ensures RoleArrayInTry(user).Some? ==> r == Outcome(RoleArrayInTry(user).value, db)
    ensures (HasRoleArray(user) && !Truthy(Field(body, "subtitle"))) ==> r == Outcome(Http.BadRequest, db)
    ensures r.status == Http.Created <==>
      && HasRoleArray(user) && Truthy(Field(body, "subtitle"))
      && (Field(body, "links").Arr? ==> NoneNullish(Field(body, "links").items))
    ensures (HasRoleArray(user) && Truthy(Field(body, "subtitle")) && Field(body, "links").Arr? &&
             !NoneNullish(Field(body, "links").items)) ==>
      r == Outcome(Http.Internal, db.(sections := Insert(db.sections, Section(Field(body, "subtitle")))))
    ensures r.status in {Http.Created, Http.Internal} && HasRoleArray(user) ==>
      r.db.sections == Insert(db.sections, Section(Field(body, "subtitle")))
    ensures r.status == Http.Created ==>
      r.db.links == InsertAll(db.links, if Field(body, "links").Arr?
                                        then NewLinks(db.sections.next, Field(body, "links").items) else [])
    ensures r.status != Http.Created ==> r.db.links == db.links
    ensures Sound(db) ==> Sound(r.db)
  {
    var subtitle, links := Field(body, "subtitle"), Field(body, "links");
    if RoleArrayInTry(user).Some? then Outcome(RoleArrayInTry(user).value, db)
    else if !Truthy(subtitle) then Outcome(Http.BadRequest, db)
    else
      var sectionId := db.sections.next;
      var withSection := db.(sections := Insert(db.sections, Section(subtitle)));
      if links.Arr? && |links.items| > 0 then
        if !NoneNullish(links.items) then Outcome(Http.Internal, withSection)
        else Outcome(Http.Created, withSection.(links := InsertAll(db.links, NewLinks(sectionId, links.items))))
      else
        assert InsertAll(db.links, []).rows == db.links.rows + [];
        Outcome(Http.Created, withSection)
  }

  // ---------------------------------------------------------------------
  // getAllSectionsWithLinks

  datatype LinkView = LinkView(id: int, text: Value, url: Value, position: Value)

  datatype SectionView = SectionView(id: int, subtitle: Value, links: seq<LinkView>)

  function LinkViewOf(r: Row<Link>): LinkView {
    LinkView(r.id, r.data.text, r.data.url, r.data.position)
  }

  function LinkViews(t: seq<Row<Link>>): (r: seq<LinkView>)
    ensures |r| == |t| && forall i :: 0 <= i < |t| ==> r[i] == LinkViewOf(t[i])
  {
    seq(|t|, i requires 0 <= i < |t| => LinkViewOf(t[i]))
  }

  /** `l.section_id === section.id` */
  function ChildOf(id: int): Row<Link> -> bool {
    (r: Row<Link>) => r.data.sectionId == id
  }

  function Children(links: seq<Row<Link>>, id: int): seq<Row<Link>> {
    Where(links, ChildOf(id))
  }

  function SectionViewOf(s: Row<Section>, links: seq<Row<Link>>): SectionView {
    SectionView(s.id, s.data.subtitle, LinkViews(Children(links, s.id)))
  }

  /** Both tables read `ORDER BY id ASC`, each section with its links. */
  function Listing(db: Db): (r: seq<SectionView>)
    ensures |r| == |db.sections.rows|
  {
    seq(|db.sections.rows|, i requires 0 <= i < |db.sections.rows| => SectionViewOf(db.sections.rows[i], db.links.rows))
  }

  /** Sections come in ascending id order, and so do the links of each. */
  lemma ListingAscending(db: Db, i: int, j: int)
    requires Sound(db) && 0 <= i < j < |Listing(db)|
    ensures Listing(db)[i].id < Listing(db)[j].id
    ensures forall k, l :: 0 <= k < l < |Listing(db)[i].links| ==>
      Listing(db)[i].links[k].id < Listing(db)[i].links[l].id
  {
    WhereKeyed(db.links.rows, db.links.next, ChildOf(db.sections.rows[i].id));
  }

  /** A link is listed under a section exactly when its `section_id` is that
      section's id: under its own section once, and a link whose section is
      gone appears nowhere. */
  lemma LinkListedInItsSection(db: Db, i: int, j: int)
    requires Sound(db) && 0 <= i < |db.sections.rows| && 0 <= j < |db.links.rows|
    ensures LinkViewOf(db.links.rows[j]) in Listing(db)[i].links <==>
            db.links.rows[j].data.sectionId == db.sections.rows[i].id
  {
    var t, id := db.links.rows, db.sections.rows[i].id;
    var kids := Children(t, id);
    assert Listing(db)[i].links == LinkViews(kids);
    if LinkViewOf(t[j]) in LinkViews(kids) {
      var k :| 0 <= k < |kids| && LinkViews(kids)[k] == LinkViewOf(t[j]);
      assert kids[k] in t && ChildOf(id)(kids[k]);
      var m :| 0 <= m < |t| && t[m] == kids[k];
      KeyedUnique(t, db.links.next, m, j);
    }
    if t[j].data.sectionId == id {
      assert t[j] in kids;
      var k :| 0 <= k < |kids| && kids[k] == t[j];
      assert LinkViews(kids)[k] == LinkViewOf(t[j]);
    }
  }

  // ---------------------------------------------------------------------
  // updateSectionTitle, addLinkToSection, updateSingleLink

  /** `updateSectionTitle`: role, a truthy subtitle (400), then the UPDATE;
      404 when it matched no row. */
  function UpdateSectionTitleRule(db: Db, user: Value, id: string, body: map<string, Value>): (r: Outcome)
    ensures RoleArrayInTry(user).Some? ==> r == Outcome(RoleArrayInTry(user).value, db)
    ensures (HasRoleArray(user) && !Truthy(Field(body, "subtitle"))) ==> r == Outcome(Http.BadRequest, db)
    ensures (HasRoleArray(user) && Truthy(Field(body, "subtitle"))) ==>
      r.status == (if HasSection(db, id) then Http.Ok else Http.NotFound)
    ensures r.status != Http.Ok ==> r.db == db
    ensures r.status == Http.Ok ==>
      r.db == db.(sections := Store(Modify(db.sections.rows, SectionIs(Str(id)), Retitle(Field(body, "subtitle"))),
                                    db.sections.next))
    ensures Sound(db) ==> Sound(r.db)
  {
    var subtitle := Field(body, "subtitle");
    if RoleArrayInTry(user).Some? then Outcome(RoleArrayInTry(user).value, db)
    else if !Truthy(subtitle) then Outcome(Http.BadRequest, db)
    else if !HasSection(db, id) then Outcome(Http.NotFound, db)
    else
      var rows := Modify(db.sections.rows, SectionIs(Str(id)), Retitle(subtitle));
      assert Sound(db) ==> Keyed(rows, db.sections.next) by {
        if Sound(db) { ModifyKeyed(db.sections.rows, db.sections.next, SectionIs(Str(id)), Retitle(subtitle)); }
      }
      Outcome(Http.Ok, db.(sections := Store(rows, db.sections.next)))
  }

  /** `addLinkToSection`: role, truthy text and url (400), an existing
      section (404), then one new link of that section. */
  function AddLinkRule(db: Db, user: Value, sectionId: string, body: map<string, Value>): (r: Outcome)
    ensures RoleArrayInTry(user).Some? ==> r == Outcome(RoleArrayInTry(user).value, db)
    ensures (HasRoleArray(user) && (!Truthy(Field(body, "text")) || !Truthy(Field(body, "url")))) ==>
      r == Outcome(Http.BadRequest, db)
    ensures r.status == Http.Created <==>
      HasRoleArray(user) && Truthy(Field(body, "text")) && Truthy(Field(body, "url")) && HasSection(db, sectionId)
    ensures (HasRoleArray(user) && Truthy(Field(body, "text")) && Truthy(Field(body, "url")) && !HasSection(db, sectionId)) ==>
      r == Outcome(Http.NotFound, db)
    ensures r.status != Http.Created ==> r.db == db
    ensures r.status == Http.Created ==>
      && SqlInt(Str(sectionId)).Some?
      && r.db == db.(links := Insert(db.links, Link(SqlInt(Str(sectionId)).value, Field(body, "text"),
                                                    Field(body, "url"), Null)))
    ensures Sound(db) ==> Sound(r.db)
  {
    var text, url := Field(body, "text"), Field(body, "url");
    if RoleArrayInTry(user).Some? then Outcome(RoleArrayInTry(user).value, db)
    else if !Truthy(text) || !Truthy(url) then Outcome(Http.BadRequest, db)
    else if !HasSection(db, sectionId) then Outcome(Http.NotFound, db)
    else
      HasSectionId(db, sectionId);
      var n := SqlInt(Str(sectionId)).value;
      assert Sound(db) ==> n < db.sections.next by {
        var w := Where(db.sections.rows, SectionIs(Str(sectionId)));
        assert w[0] in db.sections.rows && SectionIs(Str(sectionId))(w[0]);
      }
      Outcome(Http.Created, db.(links := Insert(db.links, Link(n, text, url, Null))))
  }

  /** `SET link_text = ?, link_url = ?` */
  function Relabel(text: Value, url: Value): Link -> Link {
    (d: Link) => d.(text := Stored(text), url := Stored(url))
  }

  /** Once the checks pass, `updateSingleLink` runs the UPDATE; the rows it
      matched decide between 404, where the UPDATE changed nothing, and 200. */
  lemma LinkUpdated(db: Db, user: Value, id: string, body: map<string, Value>)
    requires HasRoleArray(user) && Truthy(Field(body, "text")) && Truthy(Field(body, "url"))
    ensures var rows := Modify(db.links.rows, LinkIs(Str(id)), Relabel(Field(body, "text"), Field(body, "url")));
      UpdateLinkRule(db, user, id, body) ==
      if |Where(db.links.rows, LinkIs(Str(id)))| == 0 then Outcome(Http.NotFound, db.(links := Store(rows, db.links.next)))
      else Outcome(Http.Ok, db.(links := Store(rows, db.links.next)))
  {
    var text, url := Field(body, "text"), Field(body, "url");
    if |Where(db.links.rows, LinkIs(Str(id)))| == 0 {
      NoneMatched(db.links.rows, LinkIs(Str(id)));
      ModifyNothing(db.links.rows, LinkIs(Str(id)), Relabel(text, url));
    } else {
      SomeMatched(db.links.rows, LinkIs(Str(id)));
    }
  }

  /** `updateSingleLink`: role, truthy text and url (400), then the UPDATE;
      404 when it matched no row. */
  function UpdateLinkRule(db: Db, user: Value, id: string, body: map<string, Value>): (r: Outcome)
    ensures RoleArrayInTry(user).Some? ==> r == Outcome(RoleArrayInTry(user).value, db)
    ensures (HasRoleArray(user) && (!Truthy(Field(body, "text")) || !Truthy(Field(body, "url")))) ==>
      r == Outcome(Http.BadRequest, db)
    ensures (HasRoleArray(user) && Truthy(Field(body, "text")) && Truthy(Field(body, "url"))) ==>
      (r.status == Http.NotFound <==> forall i :: 0 <= i < |db.links.rows| ==> !IdIs(db.links.rows[i].id, Str(id)))
    ensures r.status != Http.Ok ==> r.db == db
    ensures r.status == Http.Ok ==>
      r.db == db.(links := Store(Modify(db.links.rows, LinkIs(Str(id)), Relabel(Field(body, "text"), Field(body, "url"))),
                                 db.links.next))
    ensures Sound(db) ==> Sound(r.db)
  {
    var text, url := Field(body, "text"), Field(body, "url");
    if RoleArrayInTry(user).Some? then Outcome(RoleArrayInTry(user).value, db)
    else if !Truthy(text) || !Truthy(url) then Outcome(Http.BadRequest, db)
    else
      WhereKeepsAll(db.links.rows, NotLinkIs(Str(id)));
      if |Where(db.links.rows, NotLinkIs(Str(id)))| == |db.links.rows| then Outcome(Http.NotFound, db)
      else
        var rows := Modify(db.links.rows, LinkIs(Str(id)), Relabel(text, url));
        assert Sound(db) ==> Keyed(rows, db.links.next) by {
          if Sound(db) { ModifyKeyed(db.links.rows, db.links.next, LinkIs(Str(id)), Relabel(text, url)); }
        }
        Outcome(Http.Ok, db.(links := Store(rows, db.links.next)))
  }

  /** The row `updateSingleLink` writes over `r`. */
  function Relabelled(r: Row<Link>, body: map<string, Value>): Row<Link> {
    Row(r.id, r.data.(text := Field(body, "text"), url := Field(body, "url")))
  }

  /** A successful `updateSingleLink` changes exactly one row: the link with
      the id gets the new text and url, every other row stays. */
  lemma UpdateLinkChangesOne(db: Db, user: Value, id: string, body: map<string, Value>) returns (j: int)
    requires Sound(db) && UpdateLinkRule(db, user, id, body).status == Http.Ok
    ensures 0 <= j < |db.links.rows| && IdIs(db.links.rows[j].id, Str(id))
    ensures UpdateLinkRule(db, user, id, body).db.links.rows == db.links.rows[j := Relabelled(db.links.rows[j], body)]
  {
    var before := db.links.rows;
    var after := UpdateLinkRule(db, user, id, body).db.links.rows;
    j :| 0 <= j < |before| && IdIs(before[j].id, Str(id));
    forall k | 0 <= k < |before| ensures after[k] == before[j := Relabelled(before[j], body)][k] {
      ModifyAt(before, LinkIs(Str(id)), Relabel(Field(body, "text"), Field(body, "url")), k);
      if k != j && IdIs(before[k].id, Str(id)) {
        KeyedUnique(before, db.links.next, j, k);
      }
    }
  }

  // ---------------------------------------------------------------------
  // editSectionWithLinks

  /** `links.filter(l => l.id).map(l => l.id)` */
  function SentIds(items: seq<Value>): (r: seq<Value>)
    ensures forall v :: v in r ==> Truthy(v)
    ensures forall i :: 0 <= i < |items| && Truthy(Prop(items[i], "id")) ==> Prop(items[i], "id") in r
    decreases |items|
  {
    if items == [] then []
    else
      var rest := SentIds(items[1..]);
      assert forall i :: 1 <= i < |items| ==> items[i] == items[1..][i - 1];
      (if Truthy(Prop(items[0], "id")) then [Prop(items[0], "id")] else []) + rest
  }

  /** `existingLinkIds.filter(id_ => !sentLinkIds.includes(id_))`: a
      database id is a number, so it is kept unless that very number was
      sent. */
  function Unsent(ids: seq<int>, sent: seq<Value>): (r: seq<int>)
    ensures forall x :: x in r <==> x in ids && Num(x) !in sent
  {
    if ids == [] then []
    else (if Num(ids[0]) !in sent then [ids[0]] else []) + Unsent(ids[1..], sent)
  }

  /** `DELETE ... WHERE id IN (...)` leaves the rows whose id is not listed. */
  function NotListed(ids: seq<int>): Row<Link> -> bool {
    (r: Row<Link>) => r.id !in ids
  }

  /** One pass of the loop over `links`: an entry with a truthy id updates
      that link, wherever it is; an entry without one adds a link to the
      section when it has a truthy text and url. */
  function Step(t: Store<Link>, n: int, item: Value): Store<Link> {
    var linkId, text, url := Prop(item, "id"), Prop(item, "text"), Prop(item, "url");
    if Truthy(linkId) then Store(Modify(t.rows, LinkIs(linkId), Relabel(text, url)), t.next)
    else if Truthy(text) && Truthy(url) then Insert(t, Link(n, text, url, Null))
    else t
  }

  /** The loop over the first `|items|` entries. */
  function Replay(t: Store<Link>, n: int, items: seq<Value>): Store<Link>
    decreases |items|
  {
    if items == [] then t else Step(Replay(t, n, items[..|items| - 1]), n, items[|items| - 1])
  }

  /** The link an entry adds: one when it has no id but a text and a url. */
  function AddedBy(n: int, item: Value): seq<Link> {
    var text, url := Prop(item, "text"), Prop(item, "url");
    if !Truthy(Prop(item, "id")) && Truthy(text) && Truthy(url) then [Link(n, text, url, Null)] else []
  }

  /** The links the id-less entries add, in order. */
  function Added(n: int, items: seq<Value>): seq<Link>
    decreases |items|
  {
    if items == [] then [] else Added(n, items[..|items| - 1]) + AddedBy(n, items[|items| - 1])
  }

  /** An entry names the link with id `rid`. */
  predicate Names(item: Value, rid: int) {
    Truthy(Prop(item, "id")) && IdIs(rid, Prop(item, "id"))
  }

  /** A link's data after every entry that names it, in order. */
  function Revise(d: Link, rid: int, items: seq<Value>): Link
    decreases |items|
  {
    if items == [] then d
    else
      var last := items[|items| - 1];
      var prev := Revise(d, rid, items[..|items| - 1]);
      if Names(last, rid) then Relabel(Prop(last, "text"), Prop(last, "url"))(prev) else prev
  }

  /** Revising touches text and url only: no link changes section. */
  lemma {:induction false} ReviseKeeps(d: Link, rid: int, items: seq<Value>)
    ensures Revise(d, rid, items).sectionId == d.sectionId && Revise(d, rid, items).position == d.position
    decreases |items|
  {
    if items != [] {
      ReviseKeeps(d, rid, items[..|items| - 1]);
    }
  }

  /** A link no entry names keeps its text and url. */
  lemma {:induction false} ReviseUnnamed(d: Link, rid: int, items: seq<Value>)
    requires forall i :: 0 <= i < |items| ==> !Names(items[i], rid)
    ensures Revise(d, rid, items) == d
    decreases |items|
  {
    if items != [] {
      ReviseUnnamed(d, rid, items[..|items| - 1]);
    }
  }

  lemma {:induction false} ReviseAppend(d: Link, rid: int, a: seq<Value>, b: seq<Value>)
    ensures Revise(d, rid, a + b) == Revise(Revise(d, rid, a), rid, b)
    decreases |b|
  {
    if b == [] {
      assert a + b == a;
    } else {
      assert (a + b)[..|a + b| - 1] == a + b[..|b| - 1];
      ReviseAppend(d, rid, a, b[..|b| - 1]);
    }
  }

  /** The last entry that names a link decides its text and url. */
  lemma ReviseByLast(d: Link, rid: int, items: seq<Value>, k: int)
    requires 0 <= k < |items| && Names(items[k], rid)
    requires forall i :: k < i < |items| ==> !Names(items[i], rid)
    ensures Revise(d, rid, items).text == Stored(Prop(items[k], "text"))
    ensures Revise(d, rid, items).url == Stored(Prop(items[k], "url"))
  {
    var tail := items[k + 1..];
    assert items == items[..k + 1] + tail;
    ReviseAppend(d, rid, items[..k + 1], tail);
    forall i | 0 <= i < |tail| ensures !Names(tail[i], rid) {
      assert tail[i] == items[k + 1 + i];
    }
    ReviseUnnamed(Revise(d, rid, items[..k + 1]), rid, tail);
    assert items[..k + 1][..k] == items[..k];
  }

  /** What the loop does to the table: the rows it starts with keep their
      place and id and get every update naming them; the new rows follow,
      with fresh ids, all in section `n`. */
  lemma {:induction false} ReplayShape(t: Store<Link>, n: int, items: seq<Value>)
    ensures var f := Replay(t, n, items);
      && |f.rows| == |t.rows| + |Added(n, items)| && f.next == t.next + |Added(n, items)|
      && (forall j :: 0 <= j < |t.rows| ==> f.rows[j] == Row(t.rows[j].id, Revise(t.rows[j].data, t.rows[j].id, items)))
      && (forall j :: |t.rows| <= j < |f.rows| ==> f.rows[j].id == t.next + (j - |t.rows|) && f.rows[j].data.sectionId == n)
    decreases |items|
  {
    if items != [] {
      var prefix := items[..|items| - 1];
      ReplayShape(t, n, prefix);
    }
  }

  /** One pass leaves the rows from `lo` on as they are, when they all
      have ids the entry does not name, and appends what the entry adds. */
  lemma StepSuffix(s: Store<Link>, lo: int, bound: int, n: int, item: Value)
    requires 0 <= lo <= |s.rows|
    requires forall j :: lo <= j < |s.rows| ==> s.rows[j].id >= bound
    requires SqlInt(Prop(item, "id")).Some? ==> SqlInt(Prop(item, "id")).value < bound
    ensures Step(s, n, item).rows[lo..] == s.rows[lo..] + Numbered(s.next, AddedBy(n, item))
  {
    var text, url := Prop(item, "text"), Prop(item, "url");
    if Truthy(Prop(item, "id")) {
      var pick := LinkIs(Prop(item, "id"));
      forall j | lo <= j < |s.rows| ensures !pick(s.rows[j]) {
      }
      ModifySuffix(s.rows, lo, pick, Relabel(text, url));
      assert s.rows[lo..] + [] == s.rows[lo..];
    } else if Truthy(text) && Truthy(url) {
      var row := Row(s.next, Link(n, text, url, Null));
      assert Numbered(s.next, AddedBy(n, item)) == [row];
      assert (s.rows + [row])[lo..] == s.rows[lo..] + [row];
    } else {
      assert s.rows[lo..] + [] == s.rows[lo..];
    }
  }

  /** When every id an entry sends is one of the table's, the new rows are
      exactly the id-less entries with a text and a url, as sent. */
  lemma {:induction false} ReplayAdds(t: Store<Link>, n: int, items: seq<Value>)
    requires forall i :: 0 <= i < |items| && SqlInt(Prop(items[i], "id")).Some? ==>
      SqlInt(Prop(items[i], "id")).value < t.next
    ensures |Replay(t, n, items).rows| >= |t.rows|
    ensures Replay(t, n, items).rows[|t.rows|..] == Numbered(t.next, Added(n, items))
    decreases |items|
  {
    if items != [] {
      var prefix := items[..|items| - 1];
      var last := items[|items| - 1];
      forall i | 0 <= i < |prefix| && SqlInt(Prop(prefix[i], "id")).Some?
        ensures SqlInt(Prop(prefix[i], "id")).value < t.next
      {
        assert prefix[i] == items[i];
      }
      ReplayAdds(t, n, prefix);
      ReplayShape(t, n, prefix);
      var mid := Replay(t, n, prefix);
      StepSuffix(mid, |t.rows|, t.next, n, last);
      NumberedAppend(t.next, Added(n, prefix), AddedBy(n, last));
    }
  }

  /** The loop keeps both tables keyed and every link in a section that was
      handed out. */
  lemma {:induction false} ReplaySound(t: Store<Link>, n: int, items: seq<Value>, bound: int)
    requires WellKeyed(t) && Referenced(t.rows, bound) && n < bound
    ensures WellKeyed(Replay(t, n, items)) && Referenced(Replay(t, n, items).rows, bound)
    decreases |items|
  {
    if items != [] {
      var prefix := items[..|items| - 1];
      var last := items[|items| - 1];
      ReplaySound(t, n, prefix, bound);
      var mid := Replay(t, n, prefix);
      if Truthy(Prop(last, "id")) {
        ModifyKeyed(mid.rows, mid.next, LinkIs(Prop(last, "id")), Relabel(Prop(last, "text"), Prop(last, "url")));
      }
    }
  }

  /** `editSectionWithLinks`: role, an existing section (404), the subtitle
      when truthy; then, for a `links` array, the section's links that were
      not sent are deleted and the loop updates or adds links. A null entry
      throws before the delete, after the subtitle. */
  function EditSectionRule(db: Db, user: Value, id: string, body: map<string, Value>): (r: Outcome)
    ensures RoleArrayInTry(user).Some? ==> r == Outcome(RoleArrayInTry(user).value, db)
    ensures HasRoleArray(user) ==> (r.status == Http.NotFound <==> !HasSection(db, id))
    ensures r.status in {Http.Forbidden, Http.Internal, Http.NotFound, Http.Ok}
    ensures r.status == Http.Internal && HasRoleArray(user) ==>
      Field(body, "links").Arr? && !NoneNullish(Field(body, "links").items)
    ensures HasRoleArray(user) && HasSection(db, id) ==>
      (r.status == Http.Internal <==> Field(body, "links").Arr? && !NoneNullish(Field(body, "links").items)) &&
      (r.status == Http.Ok <==> !(Field(body, "links").Arr? && !NoneNullish(Field(body, "links").items)))
    ensures r.status == Http.Ok && Field(body, "links").Arr? ==>
      SqlInt(Str(id)).Some? && r.db.links == EditLinks(db.links, id, SqlInt(Str(id)).value, Field(body, "links").items)
    ensures r.status !in {Http.Ok, Http.Internal} ==> r.db == db
    ensures r.db.sections ==
      if r.status in {Http.Ok, Http.Internal} && HasRoleArray(user) && Truthy(Field(body, "subtitle"))
      then Store(Modify(db.sections.rows, SectionIs(Str(id)), Retitle(Field(body, "subtitle"))), db.sections.next)
      else db.sections
    ensures r.status != Http.Ok || !Field(body, "links").Arr? ==> r.db.links == db.links
    ensures Sound(db) ==> Sound(r.db)
  {
    if RoleArrayInTry(user).Some? then Outcome(RoleArrayInTry(user).value, db)
    else if !HasSection(db, id) then Outcome(Http.NotFound, db)
    else
      HasSectionId(db, id);
      var n := SqlInt(Str(id)).value;
      var subtitle, links := Field(body, "subtitle"), Field(body, "links");
      var retitled := Store(Modify(db.sections.rows, SectionIs(Str(id)), Retitle(subtitle)), db.sections.next);
      var db1 := if Truthy(subtitle) then db.(sections := retitled) else db;
      assert Sound(db) ==> Sound(db1) by {
        if Sound(db) { ModifyKeyed(db.sections.rows, db.sections.next, SectionIs(Str(id)), Retitle(subtitle)); }
      }
      if !links.Arr? then Outcome(Http.Ok, db1)
      else if !NoneNullish(links.items) then Outcome(Http.Internal, db1)
      else
        var after := EditLinks(db1.links, id, n, links.items);
        assert Sound(db) ==> Sound(db1.(links := after)) by {
          if Sound(db) {
            var w := Where(db.sections.rows, SectionIs(Str(id)));
            assert w[0] in db.sections.rows && SectionIs(Str(id))(w[0]);
            EditLinksSound(db1.links, id, n, links.items, db.sections.next);
          }
        }
        Outcome(Http.Ok, db1.(links := after))
  }

  /** The link table after the delete and the loop. */
  function EditLinks(t: Store<Link>, id: string, n: int, items: seq<Value>): Store<Link> {
    var toDelete := Unsent(IdsOf(Where(t.rows, InSection(Str(id)))), SentIds(items));
    Replay(Store(Where(t.rows, NotListed(toDelete)), t.next), n, items)
  }

  lemma EditLinksSound(t: Store<Link>, id: string, n: int, items: seq<Value>, bound: int)
    requires WellKeyed(t) && Referenced(t.rows, bound) && n < bound
    ensures WellKeyed(EditLinks(t, id, n, items)) && Referenced(EditLinks(t, id, n, items).rows, bound)
  {
    var toDelete := Unsent(IdsOf(Where(t.rows, InSection(Str(id)))), SentIds(items));
    WhereKeyed(t.rows, t.next, NotListed(toDelete));
    var kept := Where(t.rows, NotListed(toDelete));
    forall i | 0 <= i < |kept| ensures kept[i].data.sectionId < bound {
      assert kept[i] in t.rows;
    }
    ReplaySound(Store(kept, t.next), n, items, bound);
  }

  /** A row is deleted by the edit exactly when it is a link of the section
      whose id was not sent. */
  lemma Doomed(t: Store<Link>, id: string, items: seq<Value>, i: int)
    requires WellKeyed(t) && 0 <= i < |t.rows|
    ensures var toDelete := Unsent(IdsOf(Where(t.rows, InSection(Str(id)))), SentIds(items));
      t.rows[i].id in toDelete <==> IdIs(t.rows[i].data.sectionId, Str(id)) && Num(t.rows[i].id) !in SentIds(items)
  {
    var existing := Where(t.rows, InSection(Str(id)));
    var ids := IdsOf(existing);
    if t.rows[i].id in ids {
      var k :| 0 <= k < |existing| && ids[k] == t.rows[i].id;
      assert existing[k] in t.rows && InSection(Str(id))(existing[k]);
      var m :| 0 <= m < |t.rows| && t.rows[m] == existing[k];
      KeyedUnique(t.rows, t.next, m, i);
    }
    if IdIs(t.rows[i].data.sectionId, Str(id)) {
      assert t.rows[i] in existing;
      var k :| 0 <= k < |existing| && existing[k] == t.rows[i];
      assert ids[k] == t.rows[i].id;
    }
  }

  /** A link of the section whose id was not sent is gone after the edit. */
  lemma EditDropsUnsent(t: Store<Link>, id: string, n: int, items: seq<Value>, i: int)
    requires WellKeyed(t) && 0 <= i < |t.rows|
    requires IdIs(t.rows[i].data.sectionId, Str(id)) && Num(t.rows[i].id) !in SentIds(items)
    ensures forall j :: 0 <= j < |EditLinks(t, id, n, items).rows| ==> EditLinks(t, id, n, items).rows[j].id != t.rows[i].id
  {
    var toDelete := Unsent(IdsOf(Where(t.rows, InSection(Str(id)))), SentIds(items));
    var kept := Where(t.rows, NotListed(toDelete));
    var after := EditLinks(t, id, n, items).rows;
    ReplayShape(Store(kept, t.next), n, items);
    Doomed(t, id, items, i);
    forall j | 0 <= j < |after| ensures after[j].id != t.rows[i].id {
      if j < |kept| {
        assert NotListed(toDelete)(kept[j]);
      } else {
        assert after[j].id >= t.next;
      }
    }
  }

  /** Any other link stays, with every update of the entries naming it. */
  lemma EditRevisesRest(t: Store<Link>, id: string, n: int, items: seq<Value>, i: int)
    requires WellKeyed(t) && 0 <= i < |t.rows|
    requires !(IdIs(t.rows[i].data.sectionId, Str(id)) && Num(t.rows[i].id) !in SentIds(items))
    ensures Row(t.rows[i].id, Revise(t.rows[i].data, t.rows[i].id, items)) in EditLinks(t, id, n, items).rows
  {
    var toDelete := Unsent(IdsOf(Where(t.rows, InSection(Str(id)))), SentIds(items));
    var kept := Where(t.rows, NotListed(toDelete));
    var after := EditLinks(t, id, n, items).rows;
    ReplayShape(Store(kept, t.next), n, items);
    Doomed(t, id, items, i);
    assert t.rows[i] in kept;
    var k :| 0 <= k < |kept| && kept[k] == t.rows[i];
    assert after[k] == Row(kept[k].id, Revise(kept[k].data, kept[k].id, items));
  }

  /** Every link of the section after the edit is one whose id was sent,
      or a new one. */
  lemma EditSectionMembers(t: Store<Link>, id: string, n: int, items: seq<Value>, j: int)
    requires WellKeyed(t) && 0 <= j < |EditLinks(t, id, n, items).rows|
    requires IdIs(EditLinks(t, id, n, items).rows[j].data.sectionId, Str(id))
    ensures Num(EditLinks(t, id, n, items).rows[j].id) in SentIds(items) || EditLinks(t, id, n, items).rows[j].id >= t.next
  {
    var toDelete := Unsent(IdsOf(Where(t.rows, InSection(Str(id)))), SentIds(items));
    var kept := Where(t.rows, NotListed(toDelete));
    var after := EditLinks(t, id, n, items).rows;
    ReplayShape(Store(kept, t.next), n, items);
    if j < |kept| {
      ReviseKeeps(kept[j].data, kept[j].id, items);
      assert kept[j] in t.rows && NotListed(toDelete)(kept[j]);
      var m :| 0 <= m < |t.rows| && t.rows[m] == kept[j];
      Doomed(t, id, items, m);
    }
  }

  /** After a successful edit with a `links` array: the section's links not
      sent are gone; every other link stays, with the text and url of the
      entries naming it; every link of the section is a sent one or a new
      one, and the new ones are the id-less entries with text and url. */
  lemma EditSectionLinks(db: Db, user: Value, id: string, body: map<string, Value>)
    requires Sound(db) && EditSectionRule(db, user, id, body).status == Http.Ok && Field(body, "links").Arr?
    ensures var items := Field(body, "links").items;
      var before := db.links.rows;
      var after := EditSectionRule(db, user, id, body).db.links.rows;
      var sent := SentIds(items);
      && (forall i :: 0 <= i < |before| && IdIs(before[i].data.sectionId, Str(id)) && Num(before[i].id) !in sent ==>
            forall j :: 0 <= j < |after| ==> after[j].id != before[i].id)
      && (forall i :: 0 <= i < |before| && !(IdIs(before[i].data.sectionId, Str(id)) && Num(before[i].id) !in sent) ==>
            Row(before[i].id, Revise(before[i].data, before[i].id, items)) in after)
      && (forall j :: 0 <= j < |after| && IdIs(after[j].data.sectionId, Str(id)) ==>
            Num(after[j].id) in sent || after[j].id >= db.links.next)
  {
    HasSectionId(db, id);
    var items := Field(body, "links").items;
    var n := SqlInt(Str(id)).value;
    assert EditSectionRule(db, user, id, body).db.links == EditLinks(db.links, id, n, items);
    EditLinksEffect(db.links, id, n, items);
  }

  /** `EditSectionLinks` on the link table alone. */
  lemma EditLinksEffect(t: Store<Link>, id: string, n: int, items: seq<Value>)
    requires WellKeyed(t)
    ensures var after := EditLinks(t, id, n, items).rows;
      var sent := SentIds(items);
      && (forall i :: 0 <= i < |t.rows| && IdIs(t.rows[i].data.sectionId, Str(id)) && Num(t.rows[i].id) !in sent ==>
            forall j :: 0 <= j < |after| ==> after[j].id != t.rows[i].id)
      && (forall i :: 0 <= i < |t.rows| && !(IdIs(t.rows[i].data.sectionId, Str(id)) && Num(t.rows[i].id) !in sent) ==>
            Row(t.rows[i].id, Revise(t.rows[i].data, t.rows[i].id, items)) in after)
      && (forall j :: 0 <= j < |after| && IdIs(after[j].data.sectionId, Str(id)) ==>
            Num(after[j].id) in sent || after[j].id >= t.next)
  {
    var sent := SentIds(items);
    var after := EditLinks(t, id, n, items).rows;
    forall i | 0 <= i < |t.rows| && IdIs(t.rows[i].data.sectionId, Str(id)) && Num(t.rows[i].id) !in sent
      ensures forall j :: 0 <= j < |after| ==> after[j].id != t.rows[i].id
    {
      EditDropsUnsent(t, id, n, items, i);
    }
    forall i | 0 <= i < |t.rows| && !(IdIs(t.rows[i].data.sectionId, Str(id)) && Num(t.rows[i].id) !in sent)
      ensures Row(t.rows[i].id, Revise(t.rows[i].data, t.rows[i].id, items)) in after
    {
      EditRevisesRest(t, id, n, items, i);
    }
    forall j | 0 <= j < |after| && IdIs(after[j].data.sectionId, Str(id))
      ensures Num(after[j].id) in sent || after[j].id >= t.next
    {
      EditSectionMembers(t, id, n, items, j);
    }
  }

  /** The new links of an edit whose entries only send ids of existing links
      are the id-less entries with a text and a url, in order, in the
      section. */
  lemma EditAdds(t: Store<Link>, id: string, n: int, items: seq<Value>)
    requires forall i :: 0 <= i < |items| && SqlInt(Prop(items[i], "id")).Some? ==>
      SqlInt(Prop(items[i], "id")).value < t.next
    ensures var toDelete := Unsent(IdsOf(Where(t.rows, InSection(Str(id)))), SentIds(items));
      var kept := Where(t.rows, NotListed(toDelete));
      && |EditLinks(t, id, n, items).rows| >= |kept|
      && EditLinks(t, id, n, items).rows[|kept|..] == Numbered(t.next, Added(n, items))
  {
    var toDelete := Unsent(IdsOf(Where(t.rows, InSection(Str(id)))), SentIds(items));
    ReplayAdds(Store(Where(t.rows, NotListed(toDelete)), t.next), n, items);
  }

  // ---------------------------------------------------------------------
  // reorderLinks, deleteSection, deleteLink

  /** `SET position = ?` */
  function Place(position: int): Link -> Link {
    (d: Link) => d.(position := Num(position))
  }

  /** The UPDATEs for the first `|order|` entries, the entry at index i
      giving position i + 1. */
  function Reordered(t: seq<Row<Link>>, order: seq<Value>): (r: seq<Row<Link>>)
    ensures |r| == |t|
    decreases |order|
  {
    if order == [] then t
    else Modify(Reordered(t, order[..|order| - 1]), LinkIs(order[|order| - 1]), Place(|order|))
  }

  /** The last index of `order` whose entry denotes `id`. */
  function LastIndex(order: seq<Value>, id: int): (r: Option<nat>)
    ensures r.None? <==> forall k :: 0 <= k < |order| ==> !IdIs(id, order[k])
    ensures r.Some? ==> r.value < |order| && IdIs(id, order[r.value])
    ensures r.Some? ==> forall k :: r.value < k < |order| ==> !IdIs(id, order[k])
    decreases |order|
  {
    if order == [] then None
    else if IdIs(id, order[|order| - 1]) then Some(|order| - 1)
    else
      var r := LastIndex(order[..|order| - 1], id);
      assert forall k :: 0 <= k < |order| - 1 ==> order[..|order| - 1][k] == order[k];
      r
  }

  /** After `reorderLinks` a listed link has the position of its index
      plus one (the last index naming it, should it be listed twice); an
      unlisted link keeps its position; nothing else changes. */
  lemma {:induction false} ReorderPositions(t: seq<Row<Link>>, order: seq<Value>, j: int)
    requires 0 <= j < |t|
    ensures var r := Reordered(t, order)[j];
      && r.id == t[j].id && r.data.sectionId == t[j].data.sectionId
      && r.data.text == t[j].data.text && r.data.url == t[j].data.url
      && r.data.position == match LastIndex(order, t[j].id)
                              case Some(k) => Num(k + 1)
                              case None => t[j].data.position
    decreases |order|
  {
    if order != [] {
      ReorderPositions(t, order[..|order| - 1], j);
    }
  }

  /** With each id listed once, the link at index i gets position i + 1. */
  lemma ReorderDistinct(t: seq<Row<Link>>, order: seq<Value>, j: int, i: int)
    requires 0 <= j < |t| && 0 <= i < |order| && IdIs(t[j].id, order[i])
    requires forall k :: 0 <= k < |order| && k != i ==> !IdIs(t[j].id, order[k])
    ensures Reordered(t, order)[j].data.position == Num(i + 1)
  {
    ReorderPositions(t, order, j);
  }

  /** `reorderLinks`: no role check; a non-empty array (400), then one
      UPDATE per entry. */
  function ReorderRule(db: Db, body: map<string, Value>): (r: Outcome)
    ensures r.status == Http.Ok <==> Field(body, "linkOrder").Arr? && Field(body, "linkOrder").items != []
    ensures r.status != Http.Ok ==> r.status == Http.BadRequest && r.db == db
    ensures r.status == Http.Ok ==>
      r.db == db.(links := Store(Reordered(db.links.rows, Field(body, "linkOrder").items), db.links.next))
    ensures Sound(db) ==> Sound(r.db)
  {
    var order := Field(body, "linkOrder");
    if !order.Arr? || |order.items| == 0 then Outcome(Http.BadRequest, db)
    else
      ReorderedSound(db.links.rows, order.items, db.links.next, db.sections.next);
      Outcome(Http.Ok, db.(links := Store(Reordered(db.links.rows, order.items), db.links.next)))
  }

  lemma {:induction false} ReorderedSound(t: seq<Row<Link>>, order: seq<Value>, next: int, bound: int)
    ensures Keyed(t, next) ==> Keyed(Reordered(t, order), next)
    ensures Referenced(t, bound) ==> Referenced(Reordered(t, order), bound)
    decreases |order|
  {
    if order != [] {
      var prefix := order[..|order| - 1];
      ReorderedSound(t, prefix, next, bound);
      if Keyed(t, next) {
        ModifyKeyed(Reordered(t, prefix), next, LinkIs(order[|order| - 1]), Place(|order|));
      }
    }
  }

  /** `deleteSection`: role, then the section's links are deleted, then the
      section; 404 when no section had the id, by which time its links are
      gone already. */
  function DeleteSectionRule(db: Db, user: Value, id: string): (r: Outcome)
    ensures RoleArrayInTry(user).Some? ==> r == Outcome(RoleArrayInTry(user).value, db)
    ensures HasRoleArray(user) ==> r.status in {Http.Ok, Http.NotFound}
    ensures HasRoleArray(user) ==>
      (r.status == Http.NotFound <==>
       forall i :: 0 <= i < |db.sections.rows| ==> !IdIs(db.sections.rows[i].id, Str(id)))
    ensures HasRoleArray(user) ==>
      r.db == Db(Store(Where(db.sections.rows, NotSectionIs(Str(id))), db.sections.next),
                 Store(Where(db.links.rows, NotInSection(Str(id))), db.links.next))
    ensures Sound(db) ==> Sound(r.db)
  {
    if RoleArrayInTry(user).Some? then Outcome(RoleArrayInTry(user).value, db)
    else
      var links := Where(db.links.rows, NotInSection(Str(id)));
      var sections := Where(db.sections.rows, NotSectionIs(Str(id)));
      WhereKeepsAll(db.sections.rows, NotSectionIs(Str(id)));
      assert Sound(db) ==> Sound(Db(Store(sections, db.sections.next), Store(links, db.links.next))) by {
        if Sound(db) {
          WhereKeyed(db.links.rows, db.links.next, NotInSection(Str(id)));
          WhereKeyed(db.sections.rows, db.sections.next, NotSectionIs(Str(id)));
          forall i | 0 <= i < |links| ensures links[i].data.sectionId < db.sections.next {
            assert links[i] in db.links.rows;
          }
        }
      }
      if |sections| == |db.sections.rows| then
        WhereAll(db.sections.rows, NotSectionIs(Str(id)));
        Outcome(Http.NotFound, db.(links := Store(links, db.links.next)))
      else Outcome(Http.Ok, Db(Store(sections, db.sections.next), Store(links, db.links.next)))
  }

  /** With the role, `deleteSection` deletes the links, then the section;
      404 exactly when the second DELETE removed no row. */
  lemma SectionDeleted(db: Db, user: Value, id: string)
    requires HasRoleArray(user)
    ensures var sections := Where(db.sections.rows, NotSectionIs(Str(id)));
      DeleteSectionRule(db, user, id) ==
      Outcome(if |db.sections.rows| - |sections| == 0 then Http.NotFound else Http.Ok,
              Db(Store(sections, db.sections.next), Store(Where(db.links.rows, NotInSection(Str(id))), db.links.next)))
  {
    var sections := Where(db.sections.rows, NotSectionIs(Str(id)));
    if |sections| == |db.sections.rows| {
      WhereKeepsAll(db.sections.rows, NotSectionIs(Str(id)));
      WhereAll(db.sections.rows, NotSectionIs(Str(id)));
    }
  }

  /** After `deleteSection` no link of that section is left, and nothing
      lists it. */
  lemma DeleteSectionLeavesNoLinks(db: Db, user: Value, id: string)
    requires HasRoleArray(user)
    ensures var after := DeleteSectionRule(db, user, id).db;
      forall j :: 0 <= j < |after.links.rows| ==> !IdIs(after.links.rows[j].data.sectionId, Str(id))
  {
    var after := DeleteSectionRule(db, user, id).db;
    forall j | 0 <= j < |after.links.rows| ensures !IdIs(after.links.rows[j].data.sectionId, Str(id)) {
      assert NotInSection(Str(id))(after.links.rows[j]);
    }
  }

  /** `deleteLink` (the second definition, the one the controller keeps):
      role, then the DELETE; 404 exactly when no link had the id. */
  function DeleteLinkRule(db: Db, user: Value, id: string): (r: Outcome)
    ensures RoleArrayInTry(user).Some? ==> r == Outcome(RoleArrayInTry(user).value, db)
    ensures HasRoleArray(user) ==>
      (r.status == Http.NotFound <==> forall i :: 0 <= i < |db.links.rows| ==> !IdIs(db.links.rows[i].id, Str(id)))
    ensures HasRoleArray(user) ==> r.status in {Http.Ok, Http.NotFound}
    ensures r.status != Http.Ok ==> r.db == db
    ensures r.status == Http.Ok ==> r.db == db.(links := Store(Where(db.links.rows, NotLinkIs(Str(id))), db.links.next))
    ensures Sound(db) ==> Sound(r.db)
  {
    if RoleArrayInTry(user).Some? then Outcome(RoleArrayInTry(user).value, db)
    else
      var kept := Where(db.links.rows, NotLinkIs(Str(id)));
      WhereKeepsAll(db.links.rows, NotLinkIs(Str(id)));
      assert Sound(db) ==> Sound(db.(links := Store(kept, db.links.next))) by {
        if Sound(db) {
          WhereKeyed(db.links.rows, db.links.next, NotLinkIs(Str(id)));
          forall i | 0 <= i < |kept| ensures kept[i].data.sectionId < db.sections.next {
            assert kept[i] in db.links.rows;
          }
        }
      }
      if |kept| == |db.links.rows| then Outcome(Http.NotFound, db)
      else Outcome(Http.Ok, db.(links := Store(kept, db.links.next)))
  }

  // ---------------------------------------------------------------------
  // The store

  class LinkStore {
    var sections: seq<Row<Section>>
    var sectionNext: int
    var links: seq<Row<Link>>
    var linkNext: int

    function State(): Db
      reads this
    {
      Db(Store(sections, sectionNext), Store(links, linkNext))
    }

    ghost predicate Valid()
      reads this
    {
      Sound(State())
    }

    constructor ()
      ensures Valid() && sections == [] && links == []
    {
      sections, sectionNext, links, linkNext := [], 1, [], 1;
    }

    /** `createSectionWithLinks`, answering the new section's id. */
    method CreateSectionWithLinks(user: Value, body: map<string, Value>) returns (status: int, sectionId: Option<int>)
      requires Valid()
      modifies this
      ensures Valid()
      ensures Outcome(status, State()) == CreateSectionRule(old(State()), user, body)
      ensures sectionId == if status == Http.Created then Some(old(sectionNext)) else None
    {
      var refused := RoleArrayInTry(user);
      if refused.Some? {
        return refused.value, None;
      }
      var subtitle, sent := Field(body, "subtitle"), Field(body, "links");
      if !Truthy(subtitle) {
        return Http.BadRequest, None;
      }
      var id := sectionNext;
      var stored := Insert(Store(sections, sectionNext), Section(subtitle));
      sections, sectionNext := stored.rows, stored.next;
      if sent.Arr? && |sent.items| > 0 {
        if !NoneNullish(sent.items) {
          return Http.Internal, None;
        }
        var linkValues := NewLinks(id, sent.items);
        var storedLinks := InsertAll(Store(links, linkNext), linkValues);
        links, linkNext := storedLinks.rows, storedLinks.next;
      }
      return Http.Created, Some(id);
    }

    /** `getAllSectionsWithLinks` */
    method GetAllSectionsWithLinks() returns (status: int, list: seq<SectionView>)
      ensures status == Http.Ok && list == Listing(State())
    {
      return Http.Ok, Listing(State());
    }

    method UpdateSectionTitle(user: Value, id: string, body: map<string, Value>) returns (status: int)
      requires Valid()
      modifies this
      ensures Valid()
      ensures Outcome(status, State()) == UpdateSectionTitleRule(old(State()), user, id, body)
    {
      var refused := RoleArrayInTry(user);
      if refused.Some? {
        return refused.value;
      }
      var subtitle := Field(body, "subtitle");
      if !Truthy(subtitle) {
        return Http.BadRequest;
      }
      var affectedRows := |Where(sections, SectionIs(Str(id)))|;
      ModifyKeyed(sections, sectionNext, SectionIs(Str(id)), Retitle(subtitle));
      if affectedRows == 0 {
        NoneMatched(sections, SectionIs(Str(id)));
        ModifyNothing(sections, SectionIs(Str(id)), Retitle(subtitle));
      }
      sections := Modify(sections, SectionIs(Str(id)), Retitle(subtitle));
      if affectedRows == 0 {
        return Http.NotFound;
      }
      return Http.Ok;
    }

    method AddLinkToSection(user: Value, sectionId: string, body: map<string, Value>) returns (status: int)
      requires Valid()
      modifies this
      ensures Valid()
      ensures Outcome(status, State()) == AddLinkRule(old(State()), user, sectionId, body)
    {
      var refused := RoleArrayInTry(user);
      if refused.Some? {
        return refused.value;
      }
      var text, url := Field(body, "text"), Field(body, "url");
      if !Truthy(text) || !Truthy(url) {
        return Http.BadRequest;
      }
      var sectionExists := Where(sections, SectionIs(Str(sectionId)));
      if |sectionExists| == 0 {
        return Http.NotFound;
      }
      HasSectionId(State(), sectionId);
      assert sectionExists[0] in sections && SectionIs(Str(sectionId))(sectionExists[0]);
      var stored := Insert(State().links, Link(SqlInt(Str(sectionId)).value, text, url, Null));
      links, linkNext := stored.rows, stored.next;
      return Http.Created;
    }

    method UpdateSingleLink(user: Value, id: string, body: map<string, Value>) returns (status: int)
      requires Valid()
      modifies this
      ensures Valid()
      ensures Outcome(status, State()) == UpdateLinkRule(old(State()), user, id, body)
    {
      var refused := RoleArrayInTry(user);
      if refused.Some? {
        return refused.value;
      }
      var text, url := Field(body, "text"), Field(body, "url");
      if !Truthy(text) || !Truthy(url) {
        return Http.BadRequest;
      }
      var affectedRows := |Where(links, LinkIs(Str(id)))|;
      LinkUpdated(State(), user, id, body);
      ModifyKeyed(links, linkNext, LinkIs(Str(id)), Relabel(text, url));
      links := Modify(links, LinkIs(Str(id)), Relabel(text, url));
      if affectedRows == 0 {
        return Http.NotFound;
      }
      return Http.Ok;
    }

    /** `editSectionWithLinks` */
    method EditSectionWithLinks(user: Value, id: string, body: map<string, Value>) returns (status: int)
      requires Valid()
      modifies this
      ensures Valid()
      ensures Outcome(status, State()) == EditSectionRule(old(State()), user, id, body)
    {
      var refused := RoleArrayInTry(user);
      if refused.Some? {
        return refused.value;
      }
      var sectionExists := Where(sections, SectionIs(Str(id)));
      if |sectionExists| == 0 {
        return Http.NotFound;
      }
      HasSectionId(State(), id);
      assert sectionExists[0] in sections && SectionIs(Str(id))(sectionExists[0]);
      var subtitle, sent := Field(body, "subtitle"), Field(body, "links");
      if Truthy(subtitle) {
        ModifyKeyed(sections, sectionNext, SectionIs(Str(id)), Retitle(subtitle));
        sections := Modify(sections, SectionIs(Str(id)), Retitle(subtitle));
      }
      if sent.Arr? {
        if !NoneNullish(sent.items) {
          return Http.Internal;
        }
        var n := SqlInt(Str(id)).value;
        assert n < sectionNext;
        EditLinksSound(Store(links, linkNext), id, n, sent.items, sectionNext);
        ReviseLinks(id, n, sent.items);
      }
      return Http.Ok;
    }

    /** The delete and the loop of `editSectionWithLinks`. */
    method ReviseLinks(id: string, n: int, items: seq<Value>)
      requires WellKeyed(Store(links, linkNext))
      modifies this
      ensures Store(links, linkNext) == EditLinks(old(Store(links, linkNext)), id, n, items)
      ensures sections == old(sections) && sectionNext == old(sectionNext)
    {
      var existingLinkIds := IdsOf(Where(links, InSection(Str(id))));
      var sentLinkIds := SentIds(items);
      var toDeleteIds := Unsent(existingLinkIds, sentLinkIds);
      if |toDeleteIds| == 0 {
        WhereAll(links, NotListed(toDeleteIds));
      }
      if |toDeleteIds| > 0 {
        links := Where(links, NotListed(toDeleteIds));
      }
      WhereKeyed(old(links), linkNext, NotListed(toDeleteIds));
      RunLinks(n, items);
    }

    /** The `for (const link of links)` loop of `editSectionWithLinks`. */
    method RunLinks(n: int, items: seq<Value>)
      requires WellKeyed(Store(links, linkNext))
      modifies this
      ensures Store(links, linkNext) == Replay(old(Store(links, linkNext)), n, items)
      ensures sections == old(sections) && sectionNext == old(sectionNext)
    {
      ghost var start := Store(links, linkNext);
      for i := 0 to |items|
        invariant Store(links, linkNext) == Replay(start, n, items[..i])
        invariant sections == old(sections) && sectionNext == old(sectionNext)
      {
        var link := items[i];
        var linkId, text, url := Prop(link, "id"), Prop(link, "text"), Prop(link, "url");
        if Truthy(linkId) {
          links := Modify(links, LinkIs(linkId), Relabel(text, url));
        } else if Truthy(text) && Truthy(url) {
          links, linkNext := links + [Row(linkNext, Link(n, text, url, Null))], linkNext + 1;
        }
        assert items[..i + 1][..i] == items[..i];
      }
      assert items[..|items|] == items;
    }

    /** `reorderLinks`: the entries of `linkOrder` in turn. */
    method ReorderLinks(body: map<string, Value>) returns (status: int)
      requires Valid()
      modifies this
      ensures Valid()
      ensures Outcome(status, State()) == ReorderRule(old(State()), body)
    {
      var linkOrder := Field(body, "linkOrder");
      if !linkOrder.Arr? || |linkOrder.items| == 0 {
        return Http.BadRequest;
      }
      var order := linkOrder.items;
      ReorderedSound(links, order, linkNext, sectionNext);
      ghost var start := links;
      for i := 0 to |order|
        invariant links == Reordered(start, order[..i])
        invariant sections == old(sections) && sectionNext == old(sectionNext) && linkNext == old(linkNext)
      {
        links := Modify(links, LinkIs(order[i]), Place(i + 1));
        assert order[..i + 1][..i] == order[..i];
      }
      assert order[..|order|] == order;
      return Http.Ok;
    }

    method DeleteSection(user: Value, id: string) returns (status: int)
      requires Valid()
      modifies this
      ensures Valid()
      ensures Outcome(status, State()) == DeleteSectionRule(old(State()), user, id)
    {
      var refused := RoleArrayInTry(user);
      if refused.Some? {
        return refused.value;
      }
      SectionDeleted(State(), user, id);
      links := Where(links, NotInSection(Str(id)));
      var kept := Where(sections, NotSectionIs(Str(id)));
      var affectedRows := |sections| - |kept|;
      sections := kept;
      if affectedRows == 0 {
        return Http.NotFound;
      }
      return Http.Ok;
    }

    method DeleteLink(user: Value, id: string) returns (status: int)
      requires Valid()
      modifies this
      ensures Valid()
      ensures Outcome(status, State()) == DeleteLinkRule(old(State()), user, id)
    {
      var refused := RoleArrayInTry(user);
      if refused.Some? {
        return refused.value;
      }
      var kept := Where(links, NotLinkIs(Str(id)));
      var affectedRows := |links| - |kept|;
      if affectedRows == 0 {
        WhereKeepsAll(links, NotLinkIs(Str(id)));
        WhereAll(links, NotLinkIs(Str(id)));
        return Http.NotFound;
      }
      WhereKeyed(links, linkNext, NotLinkIs(Str(id)));
      links := kept;
      return Http.Ok;
    }
  }

  lemma NoneMatched<D>(t: seq<Row<D>>, pick: Row<D> -> bool)
    requires |Where(t, pick)| == 0
    ensures forall i :: 0 <= i < |t| ==> !pick(t[i])
  {
  }

  lemma SomeMatched<D>(t: seq<Row<D>>, pick: Row<D> -> bool)
    requires |Where(t, pick)| > 0
    ensures exists i :: 0 <= i < |t| && pick(t[i])
  {
    var w := Where(t, pick);
    assert w[0] in t && pick(w[0]);
  }
}
