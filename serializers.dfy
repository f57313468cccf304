/**
 * The validation rules of the role and user serializers, and the creation
 * of a user from validated fields.
 *
 * Field values are given as strings: a foreign key by the primary key of
 * the row it refers to, a null value by the absence of the field.
 */
module Serializers {
  import opened Base
  import opened Models

  type Fields = map<string, string>

  /** The exceptions these serializers raise. `ValidationError` is the
      framework's serializer error, reported to the client; the user
      serializer's `create` raises the form-layer `FormValidationError`
      instead, which the framework does not turn into a response. */
  datatype Raised =
    | ValidationError(message: string)
    | FormValidationError(message: string)
    | KeyError(key: string)
    | AttributeError
    | IntegrityError

  const BetaPlayer: string := "beta_player"
  const CompanyUser: string := "company_user"
  const GrowthPlanSubscriber: string := "growth_plan_subscriber"

  /** The roles a role row may be created with, in the order the error
      message lists them. */
  const AllowedRoles: seq<string> := [BetaPlayer, CompanyUser, GrowthPlanSubscriber]

  /** `sep.join(parts)`. */
  function Join(parts: seq<string>, sep: string): string
  {
    if |parts| == 0 then ""
    else if |parts| == 1 then parts[0]
    else parts[0] + sep + Join(parts[1..], sep)
  }

  const InvalidRoleMessage: string := "Invalid role. Allowed roles are " + Join(AllowedRoles, ", ")

  /** The rejection message lists the three allowed roles, joined by `", "`. */
  lemma InvalidRoleMessageText()
    ensures InvalidRoleMessage
            == "Invalid role. Allowed roles are " + BetaPlayer + ", " + CompanyUser + ", " + GrowthPlanSubscriber
  {
    assert Join(AllowedRoles[2..], ", ") == GrowthPlanSubscriber;
    assert Join(AllowedRoles[1..], ", ") == CompanyUser + ", " + GrowthPlanSubscriber;
    assert Join(AllowedRoles, ", ") == BetaPlayer + ", " + CompanyUser + ", " + GrowthPlanSubscriber;
  }

  /** `RoleSerializer.validate_role`: exactly the three allowed roles are
      accepted (case-sensitively), and returned unchanged. */
  function ValidateRole(value: string): (r: Result<string, Raised>)
    ensures r.Ok? <==> value == BetaPlayer || value == CompanyUser || value == GrowthPlanSubscriber
    ensures r.Ok? ==> r.value == value
    ensures r.Err? ==> r.error == ValidationError(InvalidRoleMessage)
  {
    if value !in AllowedRoles then Err(ValidationError(InvalidRoleMessage)) else Ok(value)
  }

  /** A whitespace character as `str.strip` sees it, restricted to ASCII:
      space, tab, line feed, vertical tab, form feed, carriage return, and
      the four separators 0x1C-0x1F. */
  predicate IsSpace(c: char)
  {
    c == ' ' || ('\t' <= c <= '\r') || (28 <= c as int <= 31)
  }

  /** The number of whitespace characters `s` starts with. */
  function LeadingSpaces(s: string): (k: nat)
    ensures k <= |s|
    ensures forall i | 0 <= i < k :: IsSpace(s[i])
    ensures k < |s| ==> !IsSpace(s[k])
  {
    if s == [] || !IsSpace(s[0]) then 0 else 1 + LeadingSpaces(s[1..])
  }

  /** The number of whitespace characters `s` ends with. */
  function TrailingSpaces(s: string): (k: nat)
    ensures k <= |s|
    ensures forall i | |s| - k <= i < |s| :: IsSpace(s[i])
    ensures k < |s| ==> !IsSpace(s[|s| - 1 - k])
  {
    if s == [] || !IsSpace(s[|s| - 1]) then 0 else 1 + TrailingSpaces(s[..|s| - 1])
  }

  /** `s.strip()`: the infix of `s` after its leading whitespace, with the
      trailing whitespace removed too; it neither starts nor ends with
      whitespace. */
  function Strip(s: string): (r: string)
    ensures var lo := LeadingSpaces(s);
      && lo + |r| <= |s| && r == s[lo..lo + |r|]
      && forall i | lo + |r| <= i < |s| :: IsSpace(s[i])
    ensures r == [] || (!IsSpace(r[0]) && !IsSpace(r[|r| - 1]))
  {
    var t := s[LeadingSpaces(s)..];
    t[..|t| - TrailingSpaces(t)]
  }

  /** A value with no whitespace at either end is left as it is. */
  lemma StripUnpadded(s: string)
    requires s == [] || (!IsSpace(s[0]) && !IsSpace(s[|s| - 1]))
    ensures Strip(s) == s
  {
  }

  /** Whitespace padding around an unpadded value is removed exactly. */
  lemma StripPadded(pre: string, s: string, post: string)
    requires forall i | 0 <= i < |pre| :: IsSpace(pre[i])
    requires forall i | 0 <= i < |post| :: IsSpace(post[i])
    requires s != [] && !IsSpace(s[0]) && !IsSpace(s[|s| - 1])
    ensures Strip(pre + s + post) == s
  {
    var x := pre + s + post;
    assert forall i | 0 <= i < |x| ::
      x[i] == if i < |pre| then pre[i] else if i < |pre| + |s| then s[i - |pre|] else post[i - |pre| - |s|];
    var r := Strip(x);
    assert r == x[|pre|..|pre| + |s|];
  }

  /** The whole validation of a role payload, in the framework's order:
      the `role` field is required; its value is stripped of surrounding
      whitespace and must not be blank; it must be unique among the rows
      other than the one being updated; then `validate_role`. The value
      accepted is the stripped one. */
  function ValidateRolePayload(data: Fields, existing: set<string>, instance: Option<string>)
    : (r: Result<string, Raised>)
    ensures r.Ok? <==>
      && "role" in data
      && (Strip(data["role"]) in existing ==> instance == Some(Strip(data["role"])))
      && Strip(data["role"]) in AllowedRoles
    ensures r.Ok? ==> r.value == Strip(data["role"])
    ensures r.Err? ==> r.error.ValidationError?
  {
    if "role" !in data then Err(ValidationError("This field is required."))
    else
      var value := Strip(data["role"]);
      if value == "" then Err(ValidationError("This field may not be blank."))
      else if value in existing && instance != Some(value) then
        Err(ValidationError("role with this role already exists."))
      else ValidateRole(value)
  }

  /** A padded allowed role is accepted as the role itself when no other
      row has that name. */
  lemma PaddedRoleAccepted(pre: string, role: string, post: string, existing: set<string>)
    requires forall i | 0 <= i < |pre| :: IsSpace(pre[i])
    requires forall i | 0 <= i < |post| :: IsSpace(post[i])
    requires role in AllowedRoles && role !in existing
    ensures ValidateRolePayload(map["role" := pre + role + post], existing, None) == Ok(role)
  {
    assert role[0] != ' ' && role[|role| - 1] != ' ';
    StripPadded(pre, role, post);
  }

  /** Every character of `s` satisfies `alnum`. */
  function AllAlnum(s: string, alnum: char -> bool): (b: bool)
    ensures b <==> forall i | 0 <= i < |s| :: alnum(s[i])
  {
    s == [] || (alnum(s[0]) && AllAlnum(s[1..], alnum))
  }

  /** `s.isalnum()`, for the per-character test `alnum`: false on the
      empty string. */
  function IsAlnum(s: string, alnum: char -> bool): (b: bool)
    ensures b <==> |s| > 0 && forall i | 0 <= i < |s| :: alnum(s[i])
  {
    |s| > 0 && AllAlnum(s, alnum)
  }

  const UsernameMessage: string := "Username must contain only letters and numbers."

  /** `UserSerializer.validate`: the attributes are accepted, unchanged,
      exactly when they hold a non-empty alphanumeric username; a missing
      username counts as empty and is rejected. */
  function Validate(attrs: Fields, alnum: char -> bool): (r: Result<Fields, Raised>)
    ensures r.Ok? <==>
      && "username" in attrs
      && |attrs["username"]| > 0
      && forall i | 0 <= i < |attrs["username"]| :: alnum(attrs["username"][i])
    ensures r.Ok? ==> r.value == attrs
    ensures r.Err? ==> r.error == ValidationError(UsernameMessage)
  {
    var username := Get(attrs, "username", "");
    if !IsAlnum(username, alnum) then Err(ValidationError(UsernameMessage)) else Ok(attrs)
  }

  /** `UserSerializer.validate_subscription_plan`: with the request's
      `role` at hand, a plan is accepted exactly when the role is
      `growth_plan_subscriber` and a plan is given, or the role is another
      one and no plan is given; an accepted value is returned unchanged. */
  function ValidateSubscriptionPlan(plan: Option<string>, initialData: Fields)
    : (r: Result<Option<string>, Raised>)
    ensures "role" !in initialData ==> r == Err(KeyError("role"))
    ensures r.Ok? <==> "role" in initialData && (initialData["role"] == GrowthPlanSubscriber <==> plan.Some?)
    ensures r.Ok? ==> r.value == plan
    ensures r.Err? && "role" in initialData ==> r.error.ValidationError?
  {
    if "role" !in initialData then Err(KeyError("role"))
    else if initialData["role"] == GrowthPlanSubscriber && plan.None? then
      Err(ValidationError("Subscription plan is required for 'growth_plan_subscriber'."))
    else if initialData["role"] != GrowthPlanSubscriber && plan.Some? then
      Err(ValidationError("Subscription plan is only for 'growth_plan_subscriber'."))
    else Ok(plan)
  }

  /** A plan can never be attached to a user of another role, and a
      `growth_plan_subscriber` can never be left without one. */
  lemma PlanMatchesRole(plan: Option<string>, initialData: Fields)
    requires ValidateSubscriptionPlan(plan, initialData).Ok?
    ensures plan.Some? ==> initialData["role"] == GrowthPlanSubscriber
    ensures initialData["role"] == GrowthPlanSubscriber ==> plan.Some?
  {
  }

  /** `UserSerializer.create`: `role` and `password` are taken out of the
      validated fields, the role must exist, and a user is saved with that
      role, the remaining fields, and a password hash only when a password
      was supplied. */
  method Create(store: Store, validatedData: Fields, hash: string -> string)
    returns (r: Result<User, Raised>)
    requires store.Valid()
    modifies store
    ensures store.Valid()
    ensures store.roles == old(store.roles) && store.images == old(store.images)
    ensures store.nextImageId == old(store.nextImageId)
    ensures "role" !in validatedData ==> r == Err(AttributeError)
    ensures "role" in validatedData && validatedData["role"] !in store.roles ==>
      r == Err(FormValidationError("Role with provided ID does not exist."))
    ensures r.Err? ==> store.users == old(store.users)
    ensures r.Ok? <==>
      && "role" in validatedData && validatedData["role"] in store.roles
      && Get(validatedData, "username", "") !in old(store.users)
    ensures r.Ok? ==>
      var rest := validatedData - {"role", "password"};
      && r.value.username == Get(rest, "username", "")
      && r.value.role == Some(validatedData["role"])
      && r.value.subscriptionPlan == (if "subscription_plan" in rest then Some(rest["subscription_plan"]) else None)
      && r.value.password == (if "password" in validatedData then hash(validatedData["password"]) else "")
      && store.users == old(store.users)[r.value.username := r.value]
  {
    var data := validatedData;
    var role: Option<string> := None;
    if "role" in data {
      role := Some(data["role"]);
      data := data - {"role"};
    }
    var password: Option<string> := None;
    if "password" in data {
      password := Some(data["password"]);
      data := data - {"password"};
    }
    assert data == validatedData - {"role", "password"};

    if role.None? {
      return Err(AttributeError);
    }
    if role.value !in store.roles {
      return Err(FormValidationError("Role with provided ID does not exist."));
    }

    var plan := if "subscription_plan" in data then Some(data["subscription_plan"]) else None;
    var instance := User(Get(data, "username", ""), role, "", plan);
    if password.Some? {
      instance := instance.(password := hash(password.value));
    }

    if instance.username in store.users {
      return Err(IntegrityError);
    }
    store.InsertUser(instance);
    r := Ok(instance);
  }
}
