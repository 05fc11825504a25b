/** The dynamic UPDATE of `updateEvent`: one `column = ?` item and one
    parameter for every column the body sends, a converted image last, and
    the event id as the final parameter. */
module EventUpdate {
  import opened Js
  import opened EventData

  datatype Column = Titel | Beschreibung | Ort | Von | Bis | Alle | Supporter | Status | Bildtitel | Bild

  /** The column name, which is also the body key it is read from. */
  function Name(c: Column): string {
    match c
    case Titel => "titel"
    case Beschreibung => "beschreibung"
    case Ort => "ort"
    case Von => "von"
    case Bis => "bis"
    case Alle => "alle"
    case Supporter => "supporter"
    case Status => "status"
    case Bildtitel => "bildtitel"
    case Bild => "bild"
  }

  /** The nine columns taken from the body, in the order they are tested:
      `ColumnAt(k)` is the k-th, and `Index` is its inverse. */
  const BodyColumnCount := 9

  function ColumnAt(k: nat): (c: Column)
    ensures c != Bild
  {
    if k == 0 then Titel else if k == 1 then Beschreibung else if k == 2 then Ort
    else if k == 3 then Von else if k == 4 then Bis else if k == 5 then Alle
    else if k == 6 then Supporter else if k == 7 then Status else Bildtitel
  }

  function Index(c: Column): (k: nat)
    ensures c != Bild ==> k < BodyColumnCount && ColumnAt(k) == c
    ensures forall j: nat :: j < BodyColumnCount && ColumnAt(j) == c ==> j == k
  {
    match c
    case Titel => 0
    case Beschreibung => 1
    case Ort => 2
    case Von => 3
    case Bis => 4
    case Alle => 5
    case Supporter => 6
    case Status => 7
    case Bildtitel => 8
    case Bild => 9
  }

  function Get(e: Event, c: Column): Value {
    match c
    case Titel => e.titel
    case Beschreibung => e.beschreibung
    case Ort => e.ort
    case Von => e.von
    case Bis => e.bis
    case Alle => e.alle
    case Supporter => e.supporter
    case Status => e.status
    case Bildtitel => e.bildtitel
    case Bild => e.bild
  }

  /** `SET c = v` on one row: that column changes and no other. */
  function Set(e: Event, c: Column, v: Value): (r: Event)
    ensures Get(r, c) == v
    ensures forall d :: d != c ==> Get(r, d) == Get(e, d)
  {
    match c
    case Titel => e.(titel := v)
    case Beschreibung => e.(beschreibung := v)
    case Ort => e.(ort := v)
    case Von => e.(von := v)
    case Bis => e.(bis := v)
    case Alle => e.(alle := v)
    case Supporter => e.(supporter := v)
    case Status => e.(status := v)
    case Bildtitel => e.(bildtitel := v)
    case Bild => e.(bild := v)
  }

  /** The parameter pushed for a sent value: the flags become 1 or 0, every
      other value (null, "", any status) is passed as it is. */
  function Param(c: Column, v: Value): Value {
    if c == Alle || c == Supporter then Num(Flag(v)) else v
  }

  /** One SET item with its parameter. */
  datatype Assign = Assign(column: Column, param: Value)

  predicate IsSent(body: map<string, Value>, c: Column) {
    Field(body, Name(c)) != Undefined
  }

  /** The item for column `c`, when its body value is not undefined. */
  function One(body: map<string, Value>, c: Column): seq<Assign> {
    if IsSent(body, c) then [Assign(c, Param(c, Field(body, Name(c))))] else []
  }

  /** The items for the first `k` body columns whose value is not
      undefined, in column order. */
  function Sent(body: map<string, Value>, k: nat): (r: seq<Assign>)
    ensures |r| <= k
    decreases k
  {
    if k == 0 then [] else Sent(body, k - 1) + One(body, ColumnAt(k - 1))
  }

  /** Every SET item: the sent body columns, then `bild` when an image was
      converted. */
  function Plan(body: map<string, Value>, image: Option<string>): seq<Assign> {
    Sent(body, BodyColumnCount) + (if image.Some? then [Assign(Bild, Str(image.value))] else [])
  }

  /** The SET item of a column. */
  function Item(c: Column): string {
    match c
    case Titel => "titel = ?"
    case Beschreibung => "beschreibung = ?"
    case Ort => "ort = ?"
    case Von => "von = ?"
    case Bis => "bis = ?"
    case Alle => "alle = ?"
    case Supporter => "supporter = ?"
    case Status => "status = ?"
    case Bildtitel => "bildtitel = ?"
    case Bild => "bild = ?"
  }

  /** The `fields` strings of the items. */
  function Items(plan: seq<Assign>): (r: seq<string>)
    ensures |r| == |plan|
    ensures forall i :: 0 <= i < |plan| ==> r[i] == Item(plan[i].column)
  {
    seq(|plan|, i requires 0 <= i < |plan| => Item(plan[i].column))
  }

  /** The `params` of the items. */
  function Params(plan: seq<Assign>): (r: seq<Value>)
    ensures |r| == |plan|
    ensures forall i :: 0 <= i < |plan| ==> r[i] == plan[i].param
  {
    seq(|plan|, i requires 0 <= i < |plan| => plan[i].param)
  }

  /** The nine `if (x !== undefined)` pushes of the handler. Each one
      pushes a SET item together with its parameter, so the two lists the
      handler keeps stay paired one to one: they are `Items(plan)` and
      `Params(plan)`. */
  method SentItems(body: map<string, Value>) returns (plan: seq<Assign>)
    ensures plan == Sent(body, BodyColumnCount)
  {
    plan := [];
    plan := PushIfSent(plan, body, Titel);
    plan := PushIfSent(plan, body, Beschreibung);
    plan := PushIfSent(plan, body, Ort);
    assert plan == Sent(body, 3);
    plan := PushIfSent(plan, body, Von);
    plan := PushIfSent(plan, body, Bis);
    plan := PushIfSent(plan, body, Alle);
    assert plan == Sent(body, 6);
    plan := PushIfSent(plan, body, Supporter);
    plan := PushIfSent(plan, body, Status);
    plan := PushIfSent(plan, body, Bildtitel);
    assert plan == Sent(body, 9);
  }

  /** One `if (x !== undefined)` push. */
  method PushIfSent(plan: seq<Assign>, body: map<string, Value>, c: Column) returns (plan': seq<Assign>)
    ensures plan' == plan + One(body, c)
  {
    var v := Field(body, Name(c));
    plan' := plan;
    if v != Undefined {
      plan' := plan + [Assign(c, if c == Alle || c == Supporter then Num(Flag(v)) else v)];
    }
  }

  // ---------------------------------------------------------------------
  // What the statement does to a row

  /** The row after `SET` with the items, taken in order. */
  function ApplyAll(e: Event, plan: seq<Assign>): Event
    decreases |plan|
  {
    if plan == [] then e else ApplyAll(Set(e, plan[0].column, plan[0].param), plan[1..])
  }

  /** The value the last item for `c` assigns, or `d` when there is none. */
  function LastValue(plan: seq<Assign>, c: Column, d: Value): Value
    decreases |plan|
  {
    if plan == [] then d else LastValue(plan[1..], c, if plan[0].column == c then plan[0].param else d)
  }

  lemma {:induction false} ApplyAllGet(e: Event, plan: seq<Assign>, c: Column)
    ensures Get(ApplyAll(e, plan), c) == LastValue(plan, c, Get(e, c))
    decreases |plan|
  {
    if plan != [] {
      ApplyAllGet(Set(e, plan[0].column, plan[0].param), plan[1..], c);
    }
  }

  lemma {:induction false} LastValueAppend(a: seq<Assign>, b: seq<Assign>, c: Column, d: Value)
    ensures LastValue(a + b, c, d) == LastValue(b, c, LastValue(a, c, d))
    decreases |a|
  {
    if a == [] {
      assert a + b == b;
    } else {
      assert (a + b)[1..] == a[1..] + b;
      LastValueAppend(a[1..], b, c, if a[0].column == c then a[0].param else d);
    }
  }

  /** The items assign a body column its sent parameter when it is among
      the first `k` and was sent, and nothing otherwise. */
  lemma {:induction false} SentValue(body: map<string, Value>, k: nat, c: Column, d: Value)
    requires k <= BodyColumnCount
    ensures LastValue(Sent(body, k), c, d) ==
      if c != Bild && Index(c) < k && IsSent(body, c) then Param(c, Field(body, Name(c))) else d
    decreases k
  {
    if k > 0 {
      var col := ColumnAt(k - 1);
      LastValueAppend(Sent(body, k - 1), One(body, col), c, d);
      SentValue(body, k - 1, c, d);
      OneValue(body, col, c, LastValue(Sent(body, k - 1), c, d));
      if col == c {
        assert k - 1 == Index(c);
      } else if c != Bild {
        assert Index(c) != k - 1;
      }
    }
  }

  /** The item of one column assigns `c` exactly when it is that column's
      and the column was sent. */
  lemma OneValue(body: map<string, Value>, col: Column, c: Column, d: Value)
    ensures LastValue(One(body, col), c, d) == if col == c && IsSent(body, c) then Param(c, Field(body, Name(c))) else d
  {
    if IsSent(body, col) {
      var one := One(body, col);
      assert one[1..] == [];
    }
  }

  /** `updateEvent` sets exactly the columns whose body value is not
      undefined (the flags as 1 or 0, every other value as sent, `status`
      included), sets `bild` only to a converted image, and leaves every
      other column as it was. */
  lemma UpdateSetsOnlySent(e: Event, body: map<string, Value>, image: Option<string>, c: Column)
    ensures Get(ApplyAll(e, Plan(body, image)), c) ==
      if c == Bild then (if image.Some? then Str(image.value) else e.bild)
      else if IsSent(body, c) then Param(c, Field(body, Name(c)))
      else Get(e, c)
  {
    var sent := Sent(body, BodyColumnCount);
    var tail := if image.Some? then [Assign(Bild, Str(image.value))] else [];
    ApplyAllGet(e, Plan(body, image), c);
    LastValueAppend(sent, tail, c, Get(e, c));
    SentValue(body, BodyColumnCount, c, Get(e, c));
  }

  /** The first `k` body columns give no item exactly when none of them is
      sent. */
  lemma {:induction false} SentEmpty(body: map<string, Value>, k: nat)
    ensures Sent(body, k) == [] <==> forall j :: 0 <= j < k ==> !IsSent(body, ColumnAt(j))
    decreases k
  {
    if k > 0 {
      SentEmpty(body, k - 1);
    }
  }

  /** There is nothing to update exactly when the body sends none of the
      nine columns and no image was converted. */
  lemma PlanEmpty(body: map<string, Value>, image: Option<string>)
    ensures Plan(body, image) == [] <==> image.None? && forall c :: c != Bild ==> !IsSent(body, c)
  {
    SentEmpty(body, BodyColumnCount);
    if forall j :: 0 <= j < BodyColumnCount ==> !IsSent(body, ColumnAt(j)) {
      forall c | c != Bild ensures !IsSent(body, c) {
        assert c == ColumnAt(Index(c));
      }
    }
  }
}
