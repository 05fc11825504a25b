/** The newsletter handlers: issues with their sections (`newsletter`,
    `newsletter_sections`) and the subscriber list
    (`newsletter_subscribers`) with sign-up, opt-out, listing and bulk
    import. Each handler is a rule on the three tables; `NewsletterStore`
    holds the tables and follows the rules step by step. */
module Newsletter {
  import opened Js
  import opened Table
  import Http
  import DataUri

  /** A row of `newsletter`. */
  datatype Issue = Issue(title: Value, sendDate: Value)

  /** A row of `newsletter_sections`: `image` is "" or a PNG data URI. */
  datatype Section = Section(newsletterId: int, subtitle: Value, image: Value, text: Value)

  /** A row of `newsletter_subscribers`; times are milliseconds, and
      `unsubscribedAt` is NULL while the subscription is active. */
  datatype Subscriber = Subscriber(vorname: Value, nachname: Value, email: Value, token: Value,
                                   optin: int, subscribedAt: int, unsubscribedAt: Option<int>)

  datatype Db = Db(issues: Store<Issue>, sections: Store<Section>, subscribers: Store<Subscriber>)

  /** The tables are keyed and every section belongs to an issue id that
      was handed out. */
  ghost predicate Sound(db: Db) {
    && WellKeyed(db.issues) && WellKeyed(db.sections) && WellKeyed(db.subscribers)
    && forall i :: 0 <= i < |db.sections.rows| ==> db.sections.rows[i].data.newsletterId < db.issues.next
  }

  datatype Outcome = Outcome(status: int, db: Db)

  predicate Active(s: Subscriber) {
    s.unsubscribedAt.None?
  }

  // ---------------------------------------------------------------------
  // create

  const PngPrefix: string := "data:image/png;base64,"

  /** The payload of a section photo the handler goes on to convert: a
      truthy string matching the data-URI pattern. Any `image/<letters>`
      type passes; there is no allow-list here. A truthy non-string makes
      `foto.match` throw, which the inner `catch` turns into no image. */
  function Payload(foto: Value): (r: Option<string>)
    ensures r.Some? <==> Truthy(foto) && foto.Str? && DataUri.Parse(DataUri.Letters, foto.s).Some?
    ensures r.Some? ==> DataUri.Render(DataUri.Parts(DataUri.Parse(DataUri.Letters, foto.s).value.mime, r.value)) == foto.s
  {
    if Truthy(foto) && foto.Str? then
      match DataUri.Parse(DataUri.Letters, foto.s)
      case Some(p) => Some(p.payload)
      case None => None
    else None
  }

  /** The stored image: the converted PNG as a data URI, or "" when there
      is no photo, it does not match, or the conversion (`sharp`, the
      parameter `convert`) fails. */
  function SectionImage(foto: Value, convert: string -> Option<string>): (r: Value)
    ensures r == Str("") <==> Payload(foto).None? || convert(Payload(foto).value).None?
    ensures r != Str("") ==> r == Str(PngPrefix + convert(Payload(foto).value).value)
  {
    match Payload(foto)
    case None => Str("")
    case Some(p) =>
      match convert(p)
      case None => Str("")
      case Some(b) => Str(PngPrefix + b)
  }

  /** Every stored image is empty or a PNG data URI, whatever was sent. */
  lemma ImageIsPngOrEmpty(foto: Value, convert: string -> Option<string>)
    ensures var r := SectionImage(foto, convert);
      r.Str? && (r.s == "" || (|r.s| >= |PngPrefix| && r.s[..|PngPrefix|] == PngPrefix))
  {
    var r := SectionImage(foto, convert);
    if r != Str("") {
      var b := convert(Payload(foto).value).value;
      assert (PngPrefix + b)[..|PngPrefix|] == PngPrefix;
    }
  }

  /** Every image type the pattern matches is converted, GIF or PNG or
      any other: the payload goes to the converter whatever the type. */
  lemma AnyImageTypeConverted(p: DataUri.Parts, convert: string -> Option<string>)
    requires DataUri.WellFormed(DataUri.Letters, p) && convert(p.payload).Some?
    ensures SectionImage(Str(DataUri.Render(p)), convert) == Str(PngPrefix + convert(p.payload).value)
  {
    DataUri.ParseRender(DataUri.Letters, p);
    assert DataUri.Render(p) != "" by {
      assert |DataUri.Render(p)| >= |"data:"|;
    }
  }

  /** The row stored for a section element that is not null or undefined. */
  function NewSection(newsletterId: int, sec: Value, convert: string -> Option<string>): Section {
    Section(newsletterId, Or(Prop(sec, "subtitle"), Str("")), SectionImage(Or(Prop(sec, "foto"), Null), convert),
            Or(Prop(sec, "text"), Str("")))
  }

  function NewSections(newsletterId: int, secs: seq<Value>, convert: string -> Option<string>): (r: seq<Section>)
    ensures |r| == |secs| && forall i :: 0 <= i < |secs| ==> r[i] == NewSection(newsletterId, secs[i], convert)
  {
    seq(|secs|, i requires 0 <= i < |secs| => NewSection(newsletterId, secs[i], convert))
  }

  /** Adding one more section is inserting one more row. */
  lemma NewSectionsSnoc(start: Store<Section>, id: int, secs: seq<Value>, i: int, convert: string -> Option<string>)
    requires 0 <= i < |secs|
    ensures InsertAll(start, NewSections(id, secs[..i + 1], convert)) ==
            Insert(InsertAll(start, NewSections(id, secs[..i], convert)), NewSection(id, secs[i], convert))
  {
    var a, d := NewSections(id, secs[..i], convert), NewSection(id, secs[i], convert);
    assert NewSections(id, secs[..i + 1], convert) == a + [d];
    NumberedAppend(start.next, a, [d]);
  }

  /** The index of the first null or undefined element, where reading
      `sec.subtitle` throws. */
  function FirstNullish(items: seq<Value>): (r: Option<nat>)
    ensures r.None? <==> NoneNullish(items)
    ensures r.Some? ==> r.value < |items| && Nullish(items[r.value]) && NoneNullish(items[..r.value])
  {
    if items == [] then None
    else if Nullish(items[0]) then Some(0)
    else match FirstNullish(items[1..])
      case None => None
      case Some(k) => Some(k + 1)
  }

  lemma {:induction false} FirstNullishIs(items: seq<Value>, i: nat)
    requires i < |items| && Nullish(items[i]) && NoneNullish(items[..i])
    ensures FirstNullish(items) == Some(i)
  {
    if i > 0 {
      assert items[1..][..i - 1] == items[1..i];
      FirstNullishIs(items[1..], i - 1);
    }
  }

  /** `create`: a truthy `title` and `send_date` and a non-empty array
      `sections` (400); then the issue is inserted and its sections one by
      one. There is no transaction: a null or undefined section throws
      (500) with the issue and the sections before it already stored. */
  function CreateRule(db: Db, body: map<string, Value>, convert: string -> Option<string>): (r: Outcome)
    ensures var title, sendDate, secs := Field(body, "title"), Field(body, "send_date"), Field(body, "sections");
      && (r.status == Http.BadRequest <==> !Truthy(title) || !Truthy(sendDate) || !secs.Arr? || secs.items == [])
      && (r.status == Http.BadRequest ==> r.db == db)
      && r.status in {Http.BadRequest, Http.Internal, Http.Created}
      && (r.status != Http.BadRequest ==>
            && r.db.issues == Insert(db.issues, Issue(title, sendDate))
            && r.db.subscribers == db.subscribers)
      && (r.status == Http.Created <==> r.status != Http.BadRequest && NoneNullish(secs.items))
      && (r.status == Http.Created ==>
            r.db.sections == InsertAll(db.sections, NewSections(db.issues.next, secs.items, convert)))
      && (r.status == Http.Internal ==>
            r.db.sections == InsertAll(db.sections, NewSections(db.issues.next, secs.items[..FirstNullish(secs.items).value], convert)))
    ensures Sound(db) ==> Sound(r.db)
  {
    var title, sendDate, secs := Field(body, "title"), Field(body, "send_date"), Field(body, "sections");
    if !Truthy(title) || !Truthy(sendDate) || !secs.Arr? || secs.items == [] then Outcome(Http.BadRequest, db)
    else
      var id := db.issues.next;
      var issues := Insert(db.issues, Issue(title, sendDate));
      var upTo := match FirstNullish(secs.items) case None => |secs.items| case Some(k) => k;
      var sections := InsertAll(db.sections, NewSections(id, secs.items[..upTo], convert));
      assert secs.items[..|secs.items|] == secs.items;
      Outcome(if FirstNullish(secs.items).None? then Http.Created else Http.Internal,
              db.(issues := issues, sections := sections))
  }

  // ---------------------------------------------------------------------
  // getById

  /** `id = ?` on `newsletter` and `newsletter_id = ?` on its sections. */
  function IssueIs(param: Value): Row<Issue> -> bool {
    (r: Row<Issue>) => IdIs(r.id, param)
  }

  function SectionOf(param: Value): Row<Section> -> bool {
    (r: Row<Section>) => IdIs(r.data.newsletterId, param)
  }

  /** The selected columns of a section. */
  datatype SectionView = SectionView(subtitle: Value, image: Value, text: Value)

  function ViewOf(s: Section): SectionView {
    SectionView(s.subtitle, s.image, s.text)
  }

  function Views(t: seq<Row<Section>>): (r: seq<SectionView>)
    ensures |r| == |t| && forall i :: 0 <= i < |t| ==> r[i] == ViewOf(t[i].data)
  {
    seq(|t|, i requires 0 <= i < |t| => ViewOf(t[i].data))
  }

  datatype Found = Found(issue: Row<Issue>, sections: seq<SectionView>)

  /** `getById`: None (404) when no issue has the id; otherwise the issue
      and its sections in id order. */
  function GetByIdRule(db: Db, param: Value): (r: Option<Found>)
    ensures r.None? <==> forall i :: 0 <= i < |db.issues.rows| ==> !IdIs(db.issues.rows[i].id, param)
    ensures r.Some? ==> r.value.issue in db.issues.rows && IdIs(r.value.issue.id, param)
    ensures r.Some? ==> r.value.sections == Views(Where(db.sections.rows, SectionOf(param)))
  {
    match First(db.issues.rows, IssueIs(param))
    case None => None
    case Some(row) => Some(Found(row, Views(Where(db.sections.rows, SectionOf(param)))))
  }

  /** What reading back a section gives, in terms of what was sent. */
  function SentView(sec: Value, convert: string -> Option<string>): SectionView {
    SectionView(Or(Prop(sec, "subtitle"), Str("")), SectionImage(Or(Prop(sec, "foto"), Null), convert),
                Or(Prop(sec, "text"), Str("")))
  }

  /** After a successful `create`, `getById` with the returned id gives the
      issue as sent and exactly its sections, in the order sent. */
  lemma CreatedReadBack(db: Db, body: map<string, Value>, convert: string -> Option<string>, param: Value)
    requires Sound(db)
    requires CreateRule(db, body, convert).status == Http.Created
    requires IdIs(db.issues.next, param)
    ensures var r := CreateRule(db, body, convert).db;
      var secs := Field(body, "sections").items;
      var found := GetByIdRule(r, param);
      && found.Some?
      && found.value.issue == Row(db.issues.next, Issue(Field(body, "title"), Field(body, "send_date")))
      && |found.value.sections| == |secs|
      && forall i :: 0 <= i < |secs| ==> found.value.sections[i] == SentView(secs[i], convert)
  {
    var r := CreateRule(db, body, convert).db;
    var secs := Field(body, "sections").items;
    IssueReadBack(db.issues, Issue(Field(body, "title"), Field(body, "send_date")), param);
    SectionsReadBack(db.sections.rows, db.sections.next, db.issues.next, secs, convert, param);
  }

  lemma IssueReadBack(t: Store<Issue>, issue: Issue, param: Value)
    requires WellKeyed(t) && IdIs(t.next, param)
    ensures First(Insert(t, issue).rows, IssueIs(param)) == Some(Row(t.next, issue))
  {
    var rows := Insert(t, issue).rows;
    forall j | 0 <= j < |t.rows| ensures !IssueIs(param)(rows[j]) {
    }
    FirstAt(rows, IssueIs(param), |t.rows|);
  }

  lemma SectionsReadBack(kept: seq<Row<Section>>, next: int, id: int, secs: seq<Value>,
                         convert: string -> Option<string>, param: Value)
    requires forall i :: 0 <= i < |kept| ==> kept[i].data.newsletterId < id
    requires IdIs(id, param)
    ensures var read := Views(Where(kept + Numbered(next, NewSections(id, secs, convert)), SectionOf(param)));
      |read| == |secs| && forall i :: 0 <= i < |secs| ==> read[i] == SentView(secs[i], convert)
  {
    var added := Numbered(next, NewSections(id, secs, convert));
    WhereAppend(kept, added, SectionOf(param));
    forall i | 0 <= i < |kept| ensures !SectionOf(param)(kept[i]) {
      assert kept[i].data.newsletterId < id;
    }
    WhereNone(kept, SectionOf(param));
    forall i | 0 <= i < |added| ensures SectionOf(param)(added[i]) {
      assert added[i].data == NewSection(id, secs[i], convert);
    }
    WhereAll(added, SectionOf(param));
    assert Where(kept + added, SectionOf(param)) == added;
    forall i | 0 <= i < |secs| ensures Views(added)[i] == SentView(secs[i], convert) {
      assert added[i].data == NewSection(id, secs[i], convert);
    }
  }

  // ---------------------------------------------------------------------
  // subscribe

  /** `email = ?` */
  function EmailIs(email: Value): Row<Subscriber> -> bool {
    (r: Row<Subscriber>) => SqlEq(r.data.email, email)
  }

  predicate Listed(t: seq<Row<Subscriber>>, email: Value) {
    First(t, EmailIs(email)).Some?
  }

  /** The columns a repeated sign-up sets. */
  function Resubscribed(token: Value, vorname: Value, nachname: Value, now: int): Subscriber -> Subscriber {
    (s: Subscriber) => s.(unsubscribedAt := None, subscribedAt := now, token := token,
                          vorname := vorname, nachname := nachname, optin := 1)
  }

  /** `subscribe`: names and email must be truthy and the opt-in exactly
      `true` (400). A listed email has every one of its rows reactivated
      with the new token (`token`, from `crypto.randomBytes`); otherwise
      one row is added. */
  function SubscribeRule(db: Db, body: map<string, Value>, token: string, now: int): (r: Outcome)
    ensures var vorname, nachname, email := Field(body, "vorname"), Field(body, "nachname"), Field(body, "email");
      && r.status in {Http.BadRequest, Http.Ok}
      && (r.status == Http.BadRequest <==>
            !Truthy(vorname) || !Truthy(nachname) || !Truthy(email) || Field(body, "newsletter_optin") != Bool(true))
      && (r.status == Http.BadRequest ==> r.db == db)
      && r.db.issues == db.issues && r.db.sections == db.sections
      && ((r.status == Http.Ok && Listed(db.subscribers.rows, email)) ==>
            r.db.subscribers == Store(Modify(db.subscribers.rows, EmailIs(email), Resubscribed(Str(token), vorname, nachname, now)),
                                      db.subscribers.next))
      && ((r.status == Http.Ok && !Listed(db.subscribers.rows, email)) ==>
            r.db.subscribers == Insert(db.subscribers, Subscriber(vorname, nachname, email, Str(token), 1, now, None)))
    ensures Sound(db) ==> Sound(r.db)
  {
    var vorname, nachname, email := Field(body, "vorname"), Field(body, "nachname"), Field(body, "email");
    if !Truthy(vorname) || !Truthy(nachname) || !Truthy(email) then Outcome(Http.BadRequest, db)
    else if Field(body, "newsletter_optin") != Bool(true) then Outcome(Http.BadRequest, db)
    else if Listed(db.subscribers.rows, email) then
      var rows := Modify(db.subscribers.rows, EmailIs(email), Resubscribed(Str(token), vorname, nachname, now));
      assert WellKeyed(db.subscribers) ==> Keyed(rows, db.subscribers.next) by {
        if WellKeyed(db.subscribers) { ModifyKeyed(db.subscribers.rows, db.subscribers.next, EmailIs(email), Resubscribed(Str(token), vorname, nachname, now)); }
      }
      Outcome(Http.Ok, db.(subscribers := Store(rows, db.subscribers.next)))
    else
      Outcome(Http.Ok, db.(subscribers := Insert(db.subscribers, Subscriber(vorname, nachname, email, Str(token), 1, now, None))))
  }

  /** A sign-up adds a row only for an email that is not listed yet; after
      it every row of that email is active and carries the new token, and
      the rows of other emails are as they were. */
  lemma SubscribeActivates(db: Db, body: map<string, Value>, token: string, now: int)
    requires SubscribeRule(db, body, token, now).status == Http.Ok
    ensures var before, after := db.subscribers.rows, SubscribeRule(db, body, token, now).db.subscribers.rows;
      var email := Field(body, "email");
      && |after| == |before| + (if Listed(before, email) then 0 else 1)
      && (exists i :: 0 <= i < |after| && EmailIs(email)(after[i]))
      && (forall i :: 0 <= i < |after| && EmailIs(email)(after[i]) ==>
            Active(after[i].data) && after[i].data.token == Str(token) && after[i].data.optin == 1)
      && (forall i :: 0 <= i < |before| && !EmailIs(email)(before[i]) ==> after[i] == before[i])
  {
    var before, after := db.subscribers.rows, SubscribeRule(db, body, token, now).db.subscribers.rows;
    var email := Field(body, "email");
    if Listed(before, email) {
      var row := First(before, EmailIs(email)).value;
      var k :| 0 <= k < |before| && before[k] == row;
      assert EmailIs(email)(after[k]);
    } else {
      assert EmailIs(email)(after[|before|]);
    }
  }

  /** No two rows share an email (NULL equals nothing). */
  ghost predicate UniqueEmails(t: seq<Row<Subscriber>>) {
    forall i, j :: 0 <= i < j < |t| ==> !SqlEq(t[i].data.email, t[j].data.email)
  }

  /** Sign-ups alone never list an email twice. */
  lemma SubscribeKeepsEmailsUnique(db: Db, body: map<string, Value>, token: string, now: int)
    requires UniqueEmails(db.subscribers.rows)
    ensures UniqueEmails(SubscribeRule(db, body, token, now).db.subscribers.rows)
  {
  }

  // ---------------------------------------------------------------------
  // unsubscribe

  /** `unsubscribe_token = ?` */
  function TokenIs(token: Value): Row<Subscriber> -> bool {
    (r: Row<Subscriber>) => SqlEq(r.data.token, token)
  }

  function Unsubscribed(now: int): Subscriber -> Subscriber {
    (s: Subscriber) => s.(unsubscribedAt := Some(now))
  }

  /** `unsubscribe`: a truthy token (400) of a listed row (404) that is
      still active (400); that row, by id, gets `unsubscribed_at`. */
  function UnsubscribeRule(db: Db, token: Value, now: int): (r: Outcome)
    ensures var found := First(db.subscribers.rows, TokenIs(token));
      && r.status in {Http.BadRequest, Http.NotFound, Http.Ok}
      && (r.status == Http.NotFound <==> Truthy(token) && found.None?)
      && (r.status == Http.BadRequest <==> !Truthy(token) || (found.Some? && !Active(found.value.data)))
      && (r.status != Http.Ok ==> r.db == db)
      && (r.status == Http.Ok ==>
            r.db == db.(subscribers := Store(Modify(db.subscribers.rows, IdEq(found.value.id), Unsubscribed(now)),
                                             db.subscribers.next)))
    ensures Sound(db) ==> Sound(r.db)
  {
    if !Truthy(token) then Outcome(Http.BadRequest, db)
    else match First(db.subscribers.rows, TokenIs(token))
      case None => Outcome(Http.NotFound, db)
      case Some(sub) =>
        if !Active(sub.data) then Outcome(Http.BadRequest, db)
        else
          var rows := Modify(db.subscribers.rows, IdEq(sub.id), Unsubscribed(now));
          assert WellKeyed(db.subscribers) ==> Keyed(rows, db.subscribers.next) by {
            if WellKeyed(db.subscribers) { ModifyKeyed(db.subscribers.rows, db.subscribers.next, IdEq(sub.id), Unsubscribed(now)); }
          }
          Outcome(Http.Ok, db.(subscribers := Store(rows, db.subscribers.next)))
  }

  /** A successful opt-out changes one row, the first with the token, and
      only its `unsubscribed_at`. */
  lemma UnsubscribeChangesOne(db: Db, token: Value, now: int) returns (k: int)
    requires Sound(db)
    requires UnsubscribeRule(db, token, now).status == Http.Ok
    ensures var before := db.subscribers.rows;
      && 0 <= k < |before|
      && TokenIs(token)(before[k]) && Active(before[k].data)
      && (forall j :: 0 <= j < k ==> !TokenIs(token)(before[j]))
      && UnsubscribeRule(db, token, now).db.subscribers.rows ==
           before[k := Row(before[k].id, before[k].data.(unsubscribedAt := Some(now)))]
  {
    var before := db.subscribers.rows;
    FirstIsEarliest(before, TokenIs(token));
    k :| 0 <= k < |before| && before[k] == First(before, TokenIs(token)).value &&
         forall j :: 0 <= j < k ==> !TokenIs(token)(before[j]);
    ModifyById(before, db.subscribers.next, k, Unsubscribed(now));
  }

  /** Opting out twice with the same token is refused the second time. */
  lemma UnsubscribeTwice(db: Db, token: Value, now: int, later: int)
    requires Sound(db)
    requires UnsubscribeRule(db, token, now).status == Http.Ok
    ensures UnsubscribeRule(UnsubscribeRule(db, token, now).db, token, later).status == Http.BadRequest
  {
    var k := UnsubscribeChangesOne(db, token, now);
    var after := UnsubscribeRule(db, token, now).db.subscribers.rows;
    FirstAt(after, TokenIs(token), k);
  }

  // ---------------------------------------------------------------------
  // getAllSubscribers

  datatype SubscriberView = SubscriberView(id: int, vorname: Value, nachname: Value, email: Value,
                                           subscribedAt: int, unsubscribedAt: Option<int>, status: string)

  /** `CASE WHEN unsubscribed_at IS NULL THEN 'aktiv' ELSE 'inaktiv' END` */
  function StatusOf(s: Subscriber): string {
    if Active(s) then "aktiv" else "inaktiv"
  }

  function SubscriberViewOf(r: Row<Subscriber>): SubscriberView {
    SubscriberView(r.id, r.data.vorname, r.data.nachname, r.data.email, r.data.subscribedAt, r.data.unsubscribedAt,
                   StatusOf(r.data))
  }

  function SubscribedAt(s: Subscriber): int {
    s.subscribedAt
  }

  /** `getAllSubscribers`: every subscriber once, newest sign-up first,
      "aktiv" exactly when not opted out. */
  function SubscriberList(db: Db): (r: seq<SubscriberView>)
    ensures |r| == |db.subscribers.rows|
    ensures forall i, j :: 0 <= i < j < |r| ==> r[i].subscribedAt >= r[j].subscribedAt
    ensures forall i :: 0 <= i < |r| ==> (r[i].status == "aktiv" <==> r[i].unsubscribedAt.None?)
  {
    var sorted := NewestFirst(db.subscribers.rows, SubscribedAt);
    seq(|sorted|, i requires 0 <= i < |sorted| => SubscriberViewOf(sorted[i]))
  }

  /** No subscriber is left out of the list. */
  lemma SubscriberListComplete(db: Db, row: Row<Subscriber>)
    requires row in db.subscribers.rows
    ensures SubscriberViewOf(row) in SubscriberList(db)
  {
    var sorted := NewestFirst(db.subscribers.rows, SubscribedAt);
    assert row in multiset(db.subscribers.rows);
    assert row in multiset(sorted);
    var k :| 0 <= k < |sorted| && sorted[k] == row;
    assert SubscriberList(db)[k] == SubscriberViewOf(row);
  }

  // ---------------------------------------------------------------------
  // importSubscribers

  /** `(v || '').trim()`: None when `v` is truthy but no string, so that
      `.trim` is not a function and the call throws. */
  function Trimmed(v: Value): (r: Option<string>)
    ensures !Truthy(v) ==> r == Some("")
    ensures Truthy(v) ==> (r.Some? <==> v.Str?)
    ensures v.Str? ==> r == Some(Trim(v.s))
    ensures r.Some? ==> NoEdgeSpace(r.value)
  {
    if !Truthy(v) then Some("")
    else if v.Str? then
      var t := Trim(v.s);
      assert t != [] ==> t[0] == TrimStart(v.s)[0];
      Some(t)
    else None
  }

  /** Neither end is white space or a line terminator. */
  predicate NoEdgeSpace(s: string) {
    s == [] || (!IsTrimmable(s[0]) && !IsTrimmable(s[|s| - 1]))
  }

  predicate NoUpperCase(s: string) {
    forall i :: 0 <= i < |s| ==> !('A' <= s[i] <= 'Z')
  }

  /** One import entry after normalisation. */
  datatype Entry = Entry(vorname: string, nachname: string, email: string)

  /** The normalised entry, or None when normalising throws: a null or
      undefined entry, or a field that is truthy but no string. */
  function EntryOf(sub: Value): (r: Option<Entry>)
    ensures r.None? <==>
      (|| Nullish(sub)
       || Trimmed(Prop(sub, "vorname")).None? || Trimmed(Prop(sub, "nachname")).None?
       || Trimmed(Prop(sub, "email")).None?)
    ensures r.Some? ==> Clean(r.value) && r.value.email == ToLower(Trimmed(Prop(sub, "email")).value)
    ensures r.Some? ==> r.value.vorname == Trimmed(Prop(sub, "vorname")).value &&
                        r.value.nachname == Trimmed(Prop(sub, "nachname")).value
  {
    if Nullish(sub) then None
    else
      var v, n, e := Trimmed(Prop(sub, "vorname")), Trimmed(Prop(sub, "nachname")), Trimmed(Prop(sub, "email"));
      if v.None? || n.None? || e.None? then None
      else
        LowerKeepsEdges(e.value);
        Some(Entry(v.value, n.value, ToLower(e.value)))
  }

  /** `toLowerCase` leaves no upper-case letter and does not touch the
      white space at either end. */
  lemma LowerKeepsEdges(s: string)
    ensures NoUpperCase(ToLower(s))
    ensures NoEdgeSpace(s) ==> NoEdgeSpace(ToLower(s))
  {
    var r := ToLower(s);
    if s != [] {
      assert r[0] == LowerChar(s[0]) && r[|r| - 1] == LowerChar(s[|s| - 1]);
    }
  }

  /** Trimmed fields and a lower-case email. */
  predicate Clean(e: Entry) {
    NoEdgeSpace(e.vorname) && NoEdgeSpace(e.nachname) && NoEdgeSpace(e.email) && NoUpperCase(e.email)
  }

  predicate AllParse(items: seq<Value>) {
    forall i :: 0 <= i < |items| ==> EntryOf(items[i]).Some?
  }

  /** The entries parsed so far, one more. */
  lemma ParsedSnoc(items: seq<Value>, parsed: seq<Entry>, e: Entry)
    requires |parsed| < |items| && EntryOf(items[|parsed|]) == Some(e)
    requires forall j :: 0 <= j < |parsed| ==> EntryOf(items[j]) == Some(parsed[j])
    ensures forall j :: 0 <= j < |parsed| + 1 ==> EntryOf(items[j]) == Some((parsed + [e])[j])
  {
  }

  lemma ThrowingEntry(items: seq<Value>, i: int)
    requires 0 <= i < |items| && EntryOf(items[i]).None?
    ensures !AllParse(items)
  {
  }

  predicate Blank(e: Entry) {
    e.vorname == "" || e.nachname == "" || e.email == ""
  }

  /** What the import has done so far inside its transaction: the table
      rows as updated, the rows queued for the final INSERT, and how many
      entries it counted, `revived` of them by reactivation. */
  datatype Import = Import(rows: seq<Row<Subscriber>>, queued: seq<Subscriber>, revived: nat, count: nat)

  /** The import counts reactivations and queued rows and nothing else. */
  predicate Balanced(acc: Import) {
    acc.count == acc.revived + |acc.queued|
  }

  /** The columns a reactivating import sets (the token is kept). */
  function Revived(e: Entry, now: int): Subscriber -> Subscriber {
    (s: Subscriber) => s.(unsubscribedAt := None, subscribedAt := now, vorname := Str(e.vorname),
                          nachname := Str(e.nachname), optin := 1)
  }

  function Fresh(e: Entry, token: string, now: int): Subscriber {
    Subscriber(Str(e.vorname), Str(e.nachname), Str(e.email), Str(token), 1, now, None)
  }

  /** One entry: skipped when a field is empty; an email listed and opted
      out is reactivated and counted; one listed and active is left alone
      and not counted; an unlisted one is queued and counted. The lookup
      sees the table, not the queue. */
  function ImportStep(acc: Import, e: Entry, token: string, now: int): (r: Import)
    ensures |r.rows| == |acc.rows| && forall i :: 0 <= i < |acc.rows| ==> r.rows[i].id == acc.rows[i].id
    ensures Balanced(acc) ==> Balanced(r)
    ensures r.queued == acc.queued || (!Blank(e) && r.queued == acc.queued + [Fresh(e, token, now)])
  {
    if Blank(e) then acc
    else match First(acc.rows, EmailIs(Str(e.email)))
      case Some(existing) =>
        if !Active(existing.data) then
          acc.(rows := Modify(acc.rows, EmailIs(Str(e.email)), Revived(e, now)),
               revived := acc.revived + 1, count := acc.count + 1)
        else acc
      case None => acc.(queued := acc.queued + [Fresh(e, token, now)], count := acc.count + 1)
  }

  /** The normalised entries of an import none of whose entries throws. */
  function Entries(items: seq<Value>): (r: seq<Entry>)
    requires AllParse(items)
    ensures |r| == |items| && forall i :: 0 <= i < |items| ==> EntryOf(items[i]) == Some(r[i])
  {
    seq(|items|, i requires 0 <= i < |items| => EntryOf(items[i]).value)
  }

  /** The loop over the entries; entry `i` would get the token `tokens(i)`. */
  function ImportAll(acc: Import, entries: seq<Entry>, tokens: nat -> string, now: int): (r: Import)
    ensures |r.rows| == |acc.rows| && forall i :: 0 <= i < |acc.rows| ==> r.rows[i].id == acc.rows[i].id
    ensures Balanced(acc) ==> Balanced(r)
    decreases |entries|
  {
    if entries == [] then acc
    else
      var n := |entries| - 1;
      ImportStep(ImportAll(acc, entries[..n], tokens, now), entries[n], tokens(n), now)
  }

  /** One more entry is one more step, with the next token. */
  lemma ImportAllSnoc(acc: Import, entries: seq<Entry>, e: Entry, tokens: nat -> string, now: int)
    ensures ImportAll(acc, entries + [e], tokens, now) ==
            ImportStep(ImportAll(acc, entries, tokens, now), e, tokens(|entries|), now)
  {
    assert (entries + [e])[..|entries|] == entries;
  }

  datatype Imported = Imported(status: int, db: Db, count: int)

  /** `importSubscribers`: a non-empty array (400); then, in one
      transaction, every entry in turn and one INSERT of the queued rows.
      When an entry throws, the transaction is rolled back (500). */
  function ImportRule(db: Db, body: map<string, Value>, tokens: nat -> string, now: int): (r: Imported)
    ensures var subs := Field(body, "subscribers");
      && r.status in {Http.BadRequest, Http.Internal, Http.Ok}
      && (r.status == Http.BadRequest <==> !subs.Arr? || subs.items == [])
      && (r.status == Http.Internal <==> subs.Arr? && subs.items != [] && !AllParse(subs.items))
      && (r.status != Http.Ok ==> r.db == db && r.count == 0)
      && r.db.issues == db.issues && r.db.sections == db.sections
      && (r.status == Http.Ok ==>
            var acc := ImportAll(Import(db.subscribers.rows, [], 0, 0), Entries(subs.items), tokens, now);
            && r.db.subscribers == InsertAll(Store(acc.rows, db.subscribers.next), acc.queued)
            && r.count == acc.revived + |acc.queued|)
    ensures Sound(db) ==> Sound(r.db)
  {
    var subs := Field(body, "subscribers");
    if !subs.Arr? || subs.items == [] then Imported(Http.BadRequest, db, 0)
    else if !AllParse(subs.items) then Imported(Http.Internal, db, 0)
    else
      var acc := ImportAll(Import(db.subscribers.rows, [], 0, 0), Entries(subs.items), tokens, now);
      assert WellKeyed(db.subscribers) ==> WellKeyed(Store(acc.rows, db.subscribers.next));
      Imported(Http.Ok, db.(subscribers := InsertAll(Store(acc.rows, db.subscribers.next), acc.queued)), acc.count)
  }

  /** When every entry parses, the import commits the loop's rows and queue. */
  lemma ImportCommitted(db: Db, body: map<string, Value>, tokens: nat -> string, now: int)
    requires Field(body, "subscribers").Arr? && Field(body, "subscribers").items != []
    requires AllParse(Field(body, "subscribers").items)
    ensures var acc := ImportAll(Import(db.subscribers.rows, [], 0, 0), Entries(Field(body, "subscribers").items), tokens, now);
      ImportRule(db, body, tokens, now) ==
      Imported(Http.Ok, db.(subscribers := InsertAll(Store(acc.rows, db.subscribers.next), acc.queued)), acc.count)
  {
  }

  /** Every queued row is normalised: trimmed, non-empty names and a
      trimmed, non-empty, lower-case email, active with opt-in 1. */
  ghost predicate Normalised(s: Subscriber) {
    && s.vorname.Str? && s.nachname.Str? && s.email.Str?
    && s.vorname.s != "" && s.nachname.s != "" && s.email.s != ""
    && NoEdgeSpace(s.vorname.s) && NoEdgeSpace(s.nachname.s) && NoEdgeSpace(s.email.s)
    && NoUpperCase(s.email.s) && Active(s) && s.optin == 1
  }

  ghost predicate AllNormalised(q: seq<Subscriber>) {
    forall i :: 0 <= i < |q| ==> Normalised(q[i])
  }

  lemma {:induction false} ImportNormalises(acc: Import, entries: seq<Entry>, tokens: nat -> string, now: int)
    requires (forall i :: 0 <= i < |entries| ==> Clean(entries[i])) && AllNormalised(acc.queued)
    ensures AllNormalised(ImportAll(acc, entries, tokens, now).queued)
    decreases |entries|
  {
    if entries != [] {
      var n := |entries| - 1;
      ImportNormalises(acc, entries[..n], tokens, now);
      StepNormalises(ImportAll(acc, entries[..n], tokens, now), entries[n], tokens(n), now);
    }
  }

  /** What a successful import inserts is normalised. */
  lemma ImportedRowsNormalised(db: Db, body: map<string, Value>, tokens: nat -> string, now: int)
    requires ImportRule(db, body, tokens, now).status == Http.Ok
    ensures var added := ImportRule(db, body, tokens, now).db.subscribers.rows[|db.subscribers.rows|..];
      forall i :: 0 <= i < |added| ==> Normalised(added[i].data)
  {
    var items := Field(body, "subscribers").items;
    var entries := Entries(items);
    forall i | 0 <= i < |entries| ensures Clean(entries[i]) {
      assert EntryOf(items[i]) == Some(entries[i]);
    }
    ImportNormalises(Import(db.subscribers.rows, [], 0, 0), entries, tokens, now);
  }

  lemma StepNormalises(acc: Import, e: Entry, token: string, now: int)
    requires Clean(e) && AllNormalised(acc.queued)
    ensures AllNormalised(ImportStep(acc, e, token, now).queued)
  {
    var r := ImportStep(acc, e, token, now);
    if r.queued != acc.queued {
      assert Normalised(Fresh(e, token, now));
      forall i | 0 <= i < |r.queued| ensures Normalised(r.queued[i]) {
        if i < |acc.queued| { assert r.queued[i] == acc.queued[i]; }
      }
    }
  }

  /** An entry whose email is listed and active changes nothing and is not
      counted. */
  lemma ActiveEntryIgnored(acc: Import, e: Entry, token: string, now: int)
    requires First(acc.rows, EmailIs(Str(e.email))).Some?
    requires Active(First(acc.rows, EmailIs(Str(e.email))).value.data)
    ensures ImportStep(acc, e, token, now) == acc
  {
  }

  /** After a reactivating entry every row of its email is active. */
  lemma RevivedEntryActive(acc: Import, e: Entry, token: string, now: int)
    requires !Blank(e) && First(acc.rows, EmailIs(Str(e.email))).Some?
    requires !Active(First(acc.rows, EmailIs(Str(e.email))).value.data)
    ensures var r := ImportStep(acc, e, token, now);
      && r.count == acc.count + 1 && r.queued == acc.queued
      && forall i :: 0 <= i < |r.rows| && EmailIs(Str(e.email))(r.rows[i]) ==>
           Active(r.rows[i].data) && r.rows[i].data.email == Str(e.email)
  {
  }

  /** The lookup does not see the queue: the same new email twice in one
      import is queued, and counted, twice. */
  lemma RepeatedNewEmailQueuedTwice(acc: Import, e: Entry, tokens: nat -> string, now: int)
    requires !Blank(e) && !Listed(acc.rows, Str(e.email))
    ensures var r := ImportAll(acc, [e, e], tokens, now);
      && r.queued == acc.queued + [Fresh(e, tokens(0), now), Fresh(e, tokens(1), now)]
      && r.count == acc.count + 2
  {
    assert [e][..0] == [];
    assert ImportAll(acc, [], tokens, now) == acc;
    var once := ImportAll(acc, [e], tokens, now);
    assert once == ImportStep(acc, e, tokens(0), now);
    assert [e, e][..1] == [e];
  }

  /** The body of the import loop for one normalised entry. */
  method ImportEntry(rows: seq<Row<Subscriber>>, queued: seq<Subscriber>, count: nat, ghost revived: nat,
                     e: Entry, token: string, now: int)
    returns (rows': seq<Row<Subscriber>>, queued': seq<Subscriber>, count': nat, ghost revived': nat)
    ensures Import(rows', queued', revived', count') == ImportStep(Import(rows, queued, revived, count), e, token, now)
  {
    rows', queued', count', revived' := rows, queued, count, revived;
    if e.vorname == "" || e.nachname == "" || e.email == "" {
      return;
    }
    var existing := First(rows, EmailIs(Str(e.email)));
    if existing.Some? {
      if existing.value.data.unsubscribedAt.Some? {
        rows' := Modify(rows, EmailIs(Str(e.email)), Revived(e, now));
        count', revived' := count + 1, revived + 1;
      }
    } else {
      queued' := queued + [Fresh(e, token, now)];
      count' := count + 1;
    }
  }

  /** The loop of `importSubscribers` inside the transaction, on a copy of
      the table: false when an entry throws. */
  method ImportLoop(start: seq<Row<Subscriber>>, items: seq<Value>, tokens: nat -> string, now: int)
    returns (ok: bool, rows: seq<Row<Subscriber>>, queued: seq<Subscriber>, count: nat)
    ensures ok <==> AllParse(items)
    ensures ok ==> var acc := ImportAll(Import(start, [], 0, 0), Entries(items), tokens, now);
      rows == acc.rows && queued == acc.queued && count == acc.count
  {
    rows, queued, count := start, [], 0;
    ghost var revived: nat := 0;
    ghost var parsed: seq<Entry> := [];
    for i := 0 to |items|
      invariant |parsed| == i && forall j :: 0 <= j < i ==> EntryOf(items[j]) == Some(parsed[j])
      invariant Import(rows, queued, revived, count) == ImportAll(Import(start, [], 0, 0), parsed, tokens, now)
    {
      var entry := EntryOf(items[i]);
      if entry.None? {
        ThrowingEntry(items, i);
        return false, rows, queued, count;
      }
      ImportAllSnoc(Import(start, [], 0, 0), parsed, entry.value, tokens, now);
      rows, queued, count, revived := ImportEntry(rows, queued, count, revived, entry.value, tokens(i), now);
      ParsedSnoc(items, parsed, entry.value);
      parsed := parsed + [entry.value];
    }
    assert parsed == Entries(items);
    ok := true;
  }

  // ---------------------------------------------------------------------
  // The tables

  class NewsletterStore {
    var issues: seq<Row<Issue>>
    var issueNext: int
    var sections: seq<Row<Section>>
    var sectionNext: int
    var subscribers: seq<Row<Subscriber>>
    var subscriberNext: int

    function State(): Db
      reads this
    {
      Db(Store(issues, issueNext), Store(sections, sectionNext), Store(subscribers, subscriberNext))
    }

    ghost predicate Valid()
      reads this
    {
      Sound(State())
    }

    constructor()
      ensures Valid()
      ensures State() == Db(Store([], 1), Store([], 1), Store([], 1))
    {
      issues, issueNext := [], 1;
      sections, sectionNext := [], 1;
      subscribers, subscriberNext := [], 1;
    }

    /** `create`, answering with the new issue's id. */
    method Create(body: map<string, Value>, convert: string -> Option<string>) returns (status: int, newsletterId: Option<int>)
      requires Valid()
      modifies this
      ensures Valid()
      ensures Outcome(status, State()) == CreateRule(old(State()), body, convert)
      ensures newsletterId.Some? <==> status == Http.Created
      ensures newsletterId.Some? ==> newsletterId.value == old(issueNext)
    {
      var title, sendDate, secs := Field(body, "title"), Field(body, "send_date"), Field(body, "sections");
      if !Truthy(title) || !Truthy(sendDate) {
        return Http.BadRequest, None;
      }
      if !secs.Arr? || |secs.items| == 0 {
        return Http.BadRequest, None;
      }
      var id := issueNext;
      var stored := Insert(State().issues, Issue(title, sendDate));
      issues, issueNext := stored.rows, stored.next;
      var failed := AddSections(id, secs.items, convert);
      if failed {
        return Http.Internal, None;
      }
      return Http.Created, Some(id);
    }

    /** The loop of `create` over the sections; true when a section is null
        or undefined and the loop stops there. */
    method AddSections(id: int, secs: seq<Value>, convert: string -> Option<string>) returns (failed: bool)
      requires Valid() && id < issueNext
      modifies this
      ensures Valid()
      ensures failed <==> FirstNullish(secs).Some?
      ensures issues == old(issues) && issueNext == old(issueNext)
      ensures subscribers == old(subscribers) && subscriberNext == old(subscriberNext)
      ensures var upTo := if failed then FirstNullish(secs).value else |secs|;
        Store(sections, sectionNext) == InsertAll(old(Store(sections, sectionNext)), NewSections(id, secs[..upTo], convert))
    {
      ghost var start := Store(sections, sectionNext);
      for i := 0 to |secs|
        invariant NoneNullish(secs[..i])
        invariant issues == old(issues) && issueNext == old(issueNext)
        invariant subscribers == old(subscribers) && subscriberNext == old(subscriberNext)
        invariant Store(sections, sectionNext) == InsertAll(start, NewSections(id, secs[..i], convert))
        invariant Valid()
      {
        var sec := secs[i];
        if Nullish(sec) {
          FirstNullishIs(secs, i);
          return true;
        }
        var subtitle := Or(Prop(sec, "subtitle"), Str(""));
        var text := Or(Prop(sec, "text"), Str(""));
        var image := SectionImage(Or(Prop(sec, "foto"), Null), convert);
        NewSectionsSnoc(start, id, secs, i, convert);
        var stored := Insert(Store(sections, sectionNext), Section(id, subtitle, image, text));
        sections, sectionNext := stored.rows, stored.next;
      }
      assert secs[..|secs|] == secs;
      return false;
    }

    /** `getById`: 404 when no issue has the id. */
    method GetById(id: Value) returns (status: int, found: Option<Found>)
      ensures found == GetByIdRule(State(), id)
      ensures status == (if found.None? then Http.NotFound else Http.Ok)
    {
      var issue := First(issues, IssueIs(id));
      if issue.None? {
        return Http.NotFound, None;
      }
      var rows := Where(sections, SectionOf(id));
      return Http.Ok, Some(Found(issue.value, Views(rows)));
    }

    method Subscribe(body: map<string, Value>, token: string, now: int) returns (status: int)
      requires Valid()
      modifies this
      ensures Valid()
      ensures Outcome(status, State()) == SubscribeRule(old(State()), body, token, now)
    {
      var vorname, nachname, email := Field(body, "vorname"), Field(body, "nachname"), Field(body, "email");
      if !Truthy(vorname) || !Truthy(nachname) || !Truthy(email) {
        return Http.BadRequest;
      }
      if Field(body, "newsletter_optin") != Bool(true) {
        return Http.BadRequest;
      }
      var existing := First(subscribers, EmailIs(email));
      if existing.Some? {
        subscribers := Modify(subscribers, EmailIs(email), Resubscribed(Str(token), vorname, nachname, now));
      } else {
        var stored := Insert(State().subscribers, Subscriber(vorname, nachname, email, Str(token), 1, now, None));
        subscribers, subscriberNext := stored.rows, stored.next;
      }
      return Http.Ok;
    }

    method Unsubscribe(token: Value, now: int) returns (status: int)
      requires Valid()
      modifies this
      ensures Valid()
      ensures Outcome(status, State()) == UnsubscribeRule(old(State()), token, now)
    {
      if !Truthy(token) {
        return Http.BadRequest;
      }
      var subscriber := First(subscribers, TokenIs(token));
      if subscriber.None? {
        return Http.NotFound;
      }
      if subscriber.value.data.unsubscribedAt.Some? {
        return Http.BadRequest;
      }
      ghost var before := State();
      assert UnsubscribeRule(before, token, now).status == Http.Ok;
      subscribers := Modify(subscribers, IdEq(subscriber.value.id), Unsubscribed(now));
      return Http.Ok;
    }

    method GetAllSubscribers() returns (status: int, list: seq<SubscriberView>)
      ensures status == Http.Ok && list == SubscriberList(State())
    {
      var sorted := NewestFirst(subscribers, SubscribedAt);
      list := seq(|sorted|, i requires 0 <= i < |sorted| => SubscriberViewOf(sorted[i]));
      status := Http.Ok;
    }

    /** `importSubscribers`: the loop works on a copy of the table and the
        queue, and only a run without a throw commits them. */
    method ImportSubscribers(body: map<string, Value>, tokens: nat -> string, now: int) returns (status: int, count: int)
      requires Valid()
      modifies this
      ensures Valid()
      ensures Imported(status, State(), count) == ImportRule(old(State()), body, tokens, now)
    {
      var subs := Field(body, "subscribers");
      if !subs.Arr? || |subs.items| == 0 {
        return Http.BadRequest, 0;
      }
      var ok, rows, queued, importedCount := ImportLoop(subscribers, subs.items, tokens, now);
      if !ok {
        return Http.Internal, 0;
      }
      ImportCommitted(State(), body, tokens, now);
      var stored := InsertAll(Store(rows, subscriberNext), queued);
      subscribers, subscriberNext := stored.rows, stored.next;
      return Http.Ok, importedCount;
    }
  }
}
