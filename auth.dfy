/** The role checks the controllers run on the decoded token claims
    (`req.user`). Each controller has its own variant; they differ in which
    claim they read (`userType`, `userTypes` or `role`) and in what happens
    when the claim has an unexpected shape. */
module Auth {
  import opened Js
  import Http

  /** The outcome of a check that can itself throw (a method called on a
      value that does not have it). */
  datatype Check = Allow | Deny | Throws

  const Vorstand: Value := Str("vorstand")
  const Admin: Value := Str("admin")

  /** `["vorstand", "admin"].includes(role)` for some element. */
  predicate AnyPrivileged(items: seq<Value>) {
    Vorstand in items || Admin in items
  }

  /** `isVorstand(req)` of the event controller: the first role form present
      decides, in the order string `userType`, array `userTypes`, `role`. */
  predicate IsVorstand(user: Value)
    ensures IsVorstand(user) ==>
      || Prop(user, "userType") in {Vorstand, Admin}
      || (Prop(user, "userTypes").Arr? && AnyPrivileged(Prop(user, "userTypes").items))
      || Prop(user, "role") in {Vorstand, Admin}
    ensures Prop(user, "userType") in {Vorstand, Admin} ==> IsVorstand(user)
    ensures !Truthy(user) ==> !IsVorstand(user)
  {
    var u := if Truthy(user) then user else Obj(map[]);
    var userType := Prop(u, "userType");
    var userTypes := Prop(u, "userTypes");
    var role := Prop(u, "role");
    if userType.Str? then userType == Vorstand || userType == Admin
    else if userTypes.Arr? then AnyPrivileged(userTypes.items)
    else if Truthy(role) then role == Vorstand || role == Admin
    else false
  }

  /** A string `userType` decides `IsVorstand` on its own: an array
      `userTypes` beside it is never consulted. */
  lemma StringUserTypeWins(user: Value, props: map<string, Value>)
    requires user == Obj(props) && "userType" in props && props["userType"].Str?
    ensures IsVorstand(user) <==> props["userType"] in {Vorstand, Admin}
  {
  }

  /** The check of the link, board-member and section handlers: `userTypes`
      must be an array holding "vorstand" or "admin". */
  predicate HasRoleArray(user: Value)
    ensures HasRoleArray(user) ==> user.Obj?
    ensures HasRoleArray(user) && !Prop(user, "userType").Str? ==> IsVorstand(user)
  {
    var userTypes := Prop(user, "userTypes");
    userTypes.Arr? && AnyPrivileged(userTypes.items)
  }

  /** `!req.user.userTypes || !Array.isArray(req.user.userTypes) ||
      !req.user.userTypes.some(...)` inside a handler's `try`: None when it
      passes; a missing user throws and is answered with 500. */
  function RoleArrayInTry(user: Value): (r: Option<int>)
    ensures r.None? <==> HasRoleArray(user)
    ensures r == Some(Http.Internal) <==> Nullish(user)
    ensures r == Some(Http.Forbidden) <==> !Nullish(user) && !HasRoleArray(user)
  {
    if Nullish(user) then Some(Http.Internal)
    else if HasRoleArray(user) then None
    else Some(Http.Forbidden)
  }

  /** `!req.user?.userTypes || !Array.isArray(req.user.userTypes) ||
      !req.user.userTypes.some(...)` of createVorstand: the optional chain
      makes a missing user a plain refusal. */
  function RoleArrayChained(user: Value): (r: Option<int>)
    ensures r.None? <==> HasRoleArray(user)
    ensures r.Some? ==> r.value == Http.Forbidden
  {
    if HasRoleArray(user) then None else Some(Http.Forbidden)
  }

  /** `user?.userTypes?.some(role => ["vorstand", "admin"].includes(role))`:
      a missing user or claim denies; a claim that is present but not an
      array has no `some` method and throws. */
  function SomeRole(user: Value): (r: Check)
    ensures r == Allow <==> HasRoleArray(user)
    ensures r == Throws <==> !Nullish(Prop(user, "userTypes")) && !Prop(user, "userTypes").Arr?
  {
    if Nullish(user) then Deny
    else
      var userTypes := Prop(user, "userTypes");
      if Nullish(userTypes) then Deny
      else if userTypes.Arr? then (if AnyPrivileged(userTypes.items) then Allow else Deny)
      else Throws
  }

  /** On every claim set with an array `userTypes`, or none at all,
      `SomeRole` and `HasRoleArray` agree. */
  lemma SomeRoleAgreesWithArrayCheck(user: Value)
    requires !Nullish(user)
    requires Prop(user, "userTypes").Arr? || Nullish(Prop(user, "userTypes"))
    ensures SomeRole(user) == (if HasRoleArray(user) then Allow else Deny)
  {
  }

  /** `SomeRole` run inside a handler's `try`: None when it passes,
      otherwise the answer (a throw is caught and answered with 500). */
  function SomeRoleInTry(user: Value): (r: Option<int>)
    ensures r.None? <==> SomeRole(user) == Allow
    ensures r == Some(Http.Forbidden) <==> SomeRole(user) == Deny
    ensures r == Some(Http.Internal) <==> SomeRole(user) == Throws
  {
    match SomeRole(user)
    case Allow => None
    case Deny => Some(Http.Forbidden)
    case Throws => Some(Http.Internal)
  }

  /** `!req.user.userTypes?.some(...)` run before the handler's `try`: a
      missing user or a claim without `some` throws and leaves the request
      unanswered. */
  function SomeRoleBeforeTry(user: Value): (r: Option<int>)
    ensures r.None? <==> SomeRole(user) == Allow
    ensures r == Some(Http.Forbidden) <==> !Nullish(user) && SomeRole(user) == Deny
    ensures r == Some(Http.NoResponse) <==> Nullish(user) || SomeRole(user) == Throws
  {
    if Nullish(user) then Some(Http.NoResponse)
    else
      match SomeRole(user)
      case Allow => None
      case Deny => Some(Http.Forbidden)
      case Throws => Some(Http.NoResponse)
  }

  /** `req.user.userTypes?.includes("vorstand")` of getVorstandLogins:
      arrays are searched for the element, strings for the substring; any
      other present value has no `includes` and throws. */
  function IncludesVorstand(user: Value): (r: Check)
    ensures r == Allow && Prop(user, "userTypes").Arr? ==> HasRoleArray(user)
    ensures Prop(user, "userTypes").Str? ==> (r == Allow <==> Contains(Prop(user, "userTypes").s, "vorstand"))
    ensures r == Throws <==>
      !Nullish(Prop(user, "userTypes")) && !Prop(user, "userTypes").Arr? && !Prop(user, "userTypes").Str?
  {
    var userTypes := Prop(user, "userTypes");
    if Nullish(userTypes) then Deny
    else if userTypes.Arr? then (if Vorstand in userTypes.items then Allow else Deny)
    else if userTypes.Str? then (if Contains(userTypes.s, "vorstand") then Allow else Deny)
    else Throws
  }

  /** `!req.user.userTypes?.includes("vorstand")` inside the handler's
      `try`: a missing user or a claim without `includes` throws and is
      answered with 500. */
  function IncludesVorstandInTry(user: Value): (r: Option<int>)
    ensures r.None? <==> !Nullish(user) && IncludesVorstand(user) == Allow
    ensures r == Some(Http.Forbidden) <==> !Nullish(user) && IncludesVorstand(user) == Deny
    ensures r == Some(Http.Internal) <==> Nullish(user) || IncludesVorstand(user) == Throws
  {
    if Nullish(user) then Some(Http.Internal)
    else
      match IncludesVorstand(user)
      case Allow => None
      case Deny => Some(Http.Forbidden)
      case Throws => Some(Http.Internal)
  }

  /** "admin" alone opens every array check but not `IncludesVorstand`. */
  lemma AdminAloneIsNotVorstand()
    ensures var user := Obj(map["userTypes" := Arr([Admin])]);
            HasRoleArray(user) && SomeRole(user) == Allow && IncludesVorstand(user) == Deny
  {
    var user := Obj(map["userTypes" := Arr([Admin])]);
    assert Prop(user, "userTypes") == Arr([Admin]);
  }

  /** `req.user.userType === "vorstand"` of the contact-request and
      password-change handlers: the array form is not consulted. */
  predicate UserTypeIsVorstand(user: Value) {
    Prop(user, "userType") == Vorstand
  }

  /** `req.user.userType !== "vorstand"` before the handler's `try`: None
      when it passes, no answer at all when there is no user. */
  function UserTypeBeforeTry(user: Value): (r: Option<int>)
    ensures r.None? <==> UserTypeIsVorstand(user)
    ensures r == Some(Http.NoResponse) <==> Nullish(user)
    ensures r == Some(Http.Forbidden) <==> !Nullish(user) && !UserTypeIsVorstand(user)
  {
    if Nullish(user) then Some(Http.NoResponse)
    else if UserTypeIsVorstand(user) then None
    else Some(Http.Forbidden)
  }

  /** `req.user.userType !== "vorstand"` inside the handler's `try`: a
      missing user is answered with 500. */
  function UserTypeInTry(user: Value): (r: Option<int>)
    ensures r.None? <==> UserTypeIsVorstand(user)
    ensures r == Some(Http.Internal) <==> Nullish(user)
    ensures r == Some(Http.Forbidden) <==> !Nullish(user) && !UserTypeIsVorstand(user)
  {
    if Nullish(user) then Some(Http.Internal)
    else if UserTypeIsVorstand(user) then None
    else Some(Http.Forbidden)
  }

  /** A token carrying only `userTypes: ["vorstand"]` passes the array checks
      and `IsVorstand`, yet fails `UserTypeIsVorstand`. */
  lemma ArrayClaimIsNotUserType()
    ensures var user := Obj(map["userTypes" := Arr([Vorstand])]);
            HasRoleArray(user) && IsVorstand(user) && !UserTypeIsVorstand(user)
  {
    var user := Obj(map["userTypes" := Arr([Vorstand])]);
    assert Prop(user, "userTypes") == Arr([Vorstand]);
    assert Prop(user, "userType") == Undefined;
  }
}
