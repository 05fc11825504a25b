/** The data-URI image check of the event, board-member and newsletter
    handlers: the regular expression
    `^data:(image\/[CLASS]+);base64,(.+)$`, where CLASS is `a-zA-Z0-9.+-`
    for events and `a-zA-Z` elsewhere, followed by a MIME allow-list. */
module DataUri {
  import opened Js

  /** The character class of the MIME subtype. */
  datatype Charset = Letters | LettersDigitsPunct

  predicate IsLetter(c: char) {
    'a' <= c <= 'z' || 'A' <= c <= 'Z'
  }

  predicate InClass(cs: Charset, c: char) {
    match cs
    case Letters => IsLetter(c)
    case LettersDigitsPunct => IsLetter(c) || IsDigit(c) || c == '.' || c == '+' || c == '-'
  }

  /** The characters `.` does not match. */
  predicate IsLineTerminator(c: char) {
    c == '\n' || c == '\r' || c as int == 0x2028 || c as int == 0x2029
  }

  /** The two capture groups: the MIME type ("image/..." ) and the payload. */
  datatype Parts = Parts(mime: string, payload: string)

  predicate WellFormed(cs: Charset, p: Parts) {
    && |p.mime| > 6 && p.mime[..6] == "image/"
    && (forall i :: 6 <= i < |p.mime| ==> InClass(cs, p.mime[i]))
    && |p.payload| > 0
    && (forall i :: 0 <= i < |p.payload| ==> !IsLineTerminator(p.payload[i]))
  }

  function Render(p: Parts): string {
    "data:" + p.mime + ";base64," + p.payload
  }

  /** The length of the longest prefix of `s` inside the class. */
  function Span(cs: Charset, s: string): (k: nat)
    ensures k <= |s|
    ensures forall i :: 0 <= i < k ==> InClass(cs, s[i])
    ensures k < |s| ==> !InClass(cs, s[k])
  {
    if s != [] && InClass(cs, s[0]) then 1 + Span(cs, s[1..]) else 0
  }

  predicate NoLineTerminator(s: string) {
    forall i :: 0 <= i < |s| ==> !IsLineTerminator(s[i])
  }

  /** `s.match(regex)`: the capture groups, or None when there is no match. */
  function Parse(cs: Charset, s: string): (r: Option<Parts>)
    ensures r.Some? ==> WellFormed(cs, r.value) && Render(r.value) == s
  {
    if |s| < 11 || s[..11] != "data:image/" then None
    else
      var k := Span(cs, s[11..]);
      if k == 0 || |s| < 19 + k || s[11 + k..19 + k] != ";base64," then None
      else if |s| == 19 + k || !NoLineTerminator(s[19 + k..]) then None
      else
        RenderOfSplit(s, k);
        Some(Parts("image/" + s[11..11 + k], s[19 + k..]))
  }

  lemma RenderOfSplit(s: string, k: nat)
    requires 19 + k <= |s| && s[..11] == "data:image/" && s[11 + k..19 + k] == ";base64,"
    ensures Render(Parts("image/" + s[11..11 + k], s[19 + k..])) == s
  {
    assert s == s[..11] + s[11..11 + k] + s[11 + k..19 + k] + s[19 + k..];
  }

  lemma {:induction false} SpanOfClassPrefix(cs: Charset, a: string, b: string)
    requires forall i :: 0 <= i < |a| ==> InClass(cs, a[i])
    requires b != [] && !InClass(cs, b[0])
    ensures Span(cs, a + b) == |a|
  {
    if a != [] {
      assert (a + b)[1..] == a[1..] + b;
      SpanOfClassPrefix(cs, a[1..], b);
    }
  }

  /** The match succeeds on every well-formed data URI and gives back its
      parts: together with the postcondition of `Parse`, a string matches iff
      it is the rendering of well-formed parts. */
  lemma ParseRender(cs: Charset, p: Parts)
    requires WellFormed(cs, p)
    ensures Parse(cs, Render(p)) == Some(p)
  {
    var s := Render(p);
    var sub := p.mime[6..];
    var k := |sub|;
    RenderSlices(p);
    forall i | 0 <= i < |sub| ensures InClass(cs, sub[i]) {
      assert sub[i] == p.mime[i + 6];
    }
    SpanOfClassPrefix(cs, sub, ";base64," + p.payload);
    assert Span(cs, s[11..]) == k;
    assert Parts("image/" + s[11..11 + k], s[19 + k..]) == p;
  }

  /** Where the parts of a rendered data URI sit in it. */
  lemma RenderSlices(p: Parts)
    requires |p.mime| > 6 && p.mime[..6] == "image/"
    ensures var s, sub := Render(p), p.mime[6..];
      && |s| == 19 + |sub| + |p.payload|
      && s[..11] == "data:image/"
      && s[11..] == sub + (";base64," + p.payload)
      && s[11..11 + |sub|] == sub
      && s[11 + |sub|..19 + |sub|] == ";base64,"
      && s[19 + |sub|..] == p.payload
      && p.mime == "image/" + sub
  {
    var s, sub := Render(p), p.mime[6..];
    assert p.mime == p.mime[..6] + sub;
    assert s == "data:image/" + sub + ";base64," + p.payload;
  }

  const AllowedTypes: seq<string> := ["image/png", "image/jpeg", "image/jpg", "image/webp"]

  /** Why a present image was refused. */
  datatype Refusal = BadFormat | BadType

  /** The event handlers' check of a truthy `bild`: `String(bild)` must match
      the wide pattern, and its lowercased MIME type must be allowed. The
      result is the payload handed to the converter. */
  function CheckEventImage(bild: Value): (r: Result)
    ensures r.Accepted? <==>
      (exists p :: WellFormed(LettersDigitsPunct, p) && ToString(bild) == Render(p) &&
                   ToLower(p.mime) in AllowedTypes)
    ensures r.Accepted? ==> ToString(bild) == Render(Parts(r.mime, r.payload))
  {
    match Parse(LettersDigitsPunct, ToString(bild))
    case None =>
      assert forall p :: WellFormed(LettersDigitsPunct, p) ==> ToString(bild) != Render(p) by {
        forall p | WellFormed(LettersDigitsPunct, p) ensures ToString(bild) != Render(p) {
          ParseRender(LettersDigitsPunct, p);
        }
      }
      Refused(BadFormat)
    case Some(p) =>
      assert forall q :: WellFormed(LettersDigitsPunct, q) && ToString(bild) == Render(q) ==> q == p by {
        forall q | WellFormed(LettersDigitsPunct, q) && ToString(bild) == Render(q) ensures q == p {
          ParseRender(LettersDigitsPunct, q);
        }
      }
      if ToLower(p.mime) in AllowedTypes then Accepted(p.mime, p.payload) else Refused(BadType)
  }

  /** The board-member check of a truthy `foto`, which must be a string:
      the letters-only pattern, and a MIME type allowed as written (no
      lowercasing). */
  function CheckMemberPhoto(foto: string): (r: Result)
    ensures r.Accepted? <==>
      (exists p :: WellFormed(Letters, p) && foto == Render(p) && p.mime in AllowedTypes)
    ensures r.Accepted? ==> foto == Render(Parts(r.mime, r.payload))
  {
    match Parse(Letters, foto)
    case None =>
      assert forall p :: WellFormed(Letters, p) ==> foto != Render(p) by {
        forall p | WellFormed(Letters, p) ensures foto != Render(p) {
          ParseRender(Letters, p);
        }
      }
      Refused(BadFormat)
    case Some(p) =>
      assert forall q :: WellFormed(Letters, q) && foto == Render(q) ==> q == p by {
        forall q | WellFormed(Letters, q) && foto == Render(q) ensures q == p {
          ParseRender(Letters, q);
        }
      }
      if p.mime in AllowedTypes then Accepted(p.mime, p.payload) else Refused(BadType)
  }

  datatype Result = Accepted(mime: string, payload: string) | Refused(why: Refusal)

  lemma ParsesUpperCase(cs: Charset)
    ensures Parse(cs, "data:image/PNG;base64,AA") == Some(Parts("image/PNG", "AA"))
  {
    var p := Parts("image/PNG", "AA");
    assert WellFormed(cs, p);
    assert Render(p) == "data:image/PNG;base64,AA";
    ParseRender(cs, p);
  }

  /** The event check lowercases the MIME type before the allow-list, so an
      upper-case subtype passes. */
  lemma EventAcceptsUpperCase()
    ensures CheckEventImage(Str("data:image/PNG;base64,AA")) == Accepted("image/PNG", "AA")
  {
    var lower := ToLower("image/PNG");
    assert lower == AllowedTypes[0] by {
      assert lower[6] == 'p' && lower[7] == 'n' && lower[8] == 'g';
      assert forall i :: 0 <= i < 6 ==> lower[i] == "image/PNG"[i];
    }
    ParsesUpperCase(LettersDigitsPunct);
    assert ToString(Str("data:image/PNG;base64,AA")) == "data:image/PNG;base64,AA";
    EventImageAccepted(Str("data:image/PNG;base64,AA"), Parts("image/PNG", "AA"));
  }

  /** A parse whose lowercased MIME type is allowed is accepted as parsed. */
  lemma EventImageAccepted(bild: Value, p: Parts)
    requires Parse(LettersDigitsPunct, ToString(bild)) == Some(p) && ToLower(p.mime) in AllowedTypes
    ensures CheckEventImage(bild) == Accepted(p.mime, p.payload)
  {
  }

  /** The board-member check compares the MIME type as written, so the same
      upper-case subtype is refused. */
  lemma MemberRefusesUpperCase()
    ensures CheckMemberPhoto("data:image/PNG;base64,AA") == Refused(BadType)
  {
    ParsesUpperCase(Letters);
    assert "image/PNG" !in AllowedTypes;
  }
}
