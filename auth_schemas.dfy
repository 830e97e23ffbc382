// The authentication request schemas: login, registration and submission-token generation.
module AuthSchemas {
  import Wrappers
  import Text
  import opened Json
  import opened Schemas
  import V = ValidationService

  // ---------------------------------------------------------------- Python operations on values

  /**
   * `'@' in v` for a truthy value: a text holds the character, a list holds the text "@", a
   * dict has the key "@"; on a number or a boolean it raises `TypeError` (None).
   */
  function HoldsAt(v: Value): (r: Wrappers.Option<bool>)
    ensures v.Str? ==> r == Wrappers.Some('@' in v.s)
    ensures r.None? <==> !(v.Str? || v.Arr? || v.Obj?)
  {
    match v
    case Str(s) => Wrappers.Some('@' in s)
    case Arr(items) => Wrappers.Some(Str("@") in items)
    case Obj(fields) => Wrappers.Some("@" in Keys(fields))
    case _ => Wrappers.None
  }

  /** `len(v)`: defined on texts, lists and dicts; on other values it raises (None). */
  function Len(v: Value): (r: Wrappers.Option<nat>)
    ensures v.Str? ==> r == Wrappers.Some(|v.s|)
    ensures r.None? <==> !(v.Str? || v.Arr? || v.Obj?)
  {
    match v
    case Str(s) => Wrappers.Some(|s|)
    case Arr(items) => Wrappers.Some(|items|)
    case Obj(fields) => Wrappers.Some(|fields|)
    case _ => Wrappers.None
  }

  // ---------------------------------------------------------------- login

  const LoginRequired: seq<string> := ["email", "password"]
  const EmailEmpty := "Email cannot be empty"
  const PasswordEmpty := "Password cannot be empty"

  /** Both login fields are present exactly when none is missing. */
  lemma LoginFieldsPresent(data: Value)
    ensures Missing(data, LoginRequired) == [] <==> Has(data, "email") && Has(data, "password")
  {
    MissingNone(data, LoginRequired);
  }

  /** `LoginSchema.validate`: a body, both fields, then a non-empty email and password. */
  function ValidateLogin(data: Value): (r: Verdict)
    requires Body(data)
    ensures !Truthy(data) ==> r == Invalid(BodyRequired)
    ensures Truthy(data) && Missing(data, LoginRequired) != [] ==> r == Invalid(MissingMessage(Missing(data, LoginRequired)))
    ensures r == Valid <==>
      Truthy(data) && Has(data, "email") && Has(data, "password")
      && Truthy(Get(data, "email")) && Truthy(Get(data, "password"))
    ensures Truthy(data) && Missing(data, LoginRequired) == [] && !Truthy(Get(data, "email")) ==> r == Invalid(EmailEmpty)
    ensures r != Raises
  {
    if !Truthy(data) then Invalid(BodyRequired)
    else
      var missing := Missing(data, LoginRequired);
      LoginFieldsPresent(data);
      if missing != [] then Invalid(MissingMessage(missing))
      else if !Truthy(Get(data, "email")) then Invalid(EmailEmpty)
      else if !Truthy(Get(data, "password")) then Invalid(PasswordEmpty)
      else Valid
  }

  // ---------------------------------------------------------------- registration

  const RegisterRequired: seq<string> := ["email", "name", "password"]
  const NameEmpty := "Name cannot be empty"
  const PasswordShort := "Password must be at least 6 characters"

  /** The three registration fields are present exactly when none is missing. */
  lemma RegisterFieldsPresent(data: Value)
    ensures Missing(data, RegisterRequired) == [] <==> Has(data, "email") && Has(data, "name") && Has(data, "password")
  {
    MissingNone(data, RegisterRequired);
    assert RegisterRequired[0] == "email" && RegisterRequired[1] == "name" && RegisterRequired[2] == "password";
  }

  /** The registration checks on the three values: an email holding '@', a name, six characters of password. */
  function RegisterValues(email: Value, name: Value, password: Value): (r: Verdict)
    ensures r == Valid <==>
      Truthy(email) && HoldsAt(email) == Wrappers.Some(true) && Truthy(name)
      && Truthy(password) && Len(password).Some? && Len(password).value >= 6
    ensures !Truthy(email) || HoldsAt(email) == Wrappers.Some(false) ==> r == Invalid(V.InvalidEmail)
    ensures r == Raises <==>
      (Truthy(email) && HoldsAt(email).None?)
      || (Truthy(email) && HoldsAt(email) == Wrappers.Some(true) && Truthy(name) && Truthy(password) && Len(password).None?)
  {
    if !Truthy(email) then Invalid(V.InvalidEmail)
    else if HoldsAt(email).None? then Raises
    else if !HoldsAt(email).value then Invalid(V.InvalidEmail)
    else if !Truthy(name) then Invalid(NameEmpty)
    else if !Truthy(password) then Invalid(PasswordShort)
    else if Len(password).None? then Raises
    else if Len(password).value < 6 then Invalid(PasswordShort)
    else Valid
  }

  /** `RegisterSchema.validate`. */
  function ValidateRegister(data: Value): (r: Verdict)
    requires Body(data)
    ensures !Truthy(data) ==> r == Invalid(BodyRequired)
    ensures Truthy(data) && Missing(data, RegisterRequired) != [] ==>
      r == Invalid(MissingMessage(Missing(data, RegisterRequired)))
    ensures Truthy(data) && Missing(data, RegisterRequired) == [] ==>
      Has(data, "email") && Has(data, "name") && Has(data, "password")
      && r == RegisterValues(Get(data, "email"), Get(data, "name"), Get(data, "password"))
  {
    if !Truthy(data) then Invalid(BodyRequired)
    else
      var missing := Missing(data, RegisterRequired);
      RegisterFieldsPresent(data);
      if missing != [] then Invalid(MissingMessage(missing))
      else RegisterValues(Get(data, "email"), Get(data, "name"), Get(data, "password"))
  }

  /** Every valid registration body is also a valid login body. */
  lemma RegisterBodyLogsIn(data: Value)
    requires Body(data) && ValidateRegister(data) == Valid
    ensures ValidateLogin(data) == Valid
  {
    RegisterFieldsPresent(data);
  }

  /**
   * The schema asks only for an '@': the text "@" passes it, while the validation service's
   * e-mail pattern refuses it.
   */
  lemma LoneAtPassesSchema()
    ensures RegisterValues(Str("@"), Str("Ada"), Str("secret")) == Valid
    ensures V.ValidateEmail(Wrappers.Some("@")).Some?
  {
    var e := "@";
    assert Text.AfterLast(e, '@') == [] by {
      assert e == [] + ['@'] + [];
      Text.AfterLastOf([], '@', []);
    }
    assert !V.DomainPart([]);
  }

  // ---------------------------------------------------------------- token generation

  const MaxUsageTooSmall := "max_usage must be at least 1"
  const MaxUsageNotInt := "max_usage must be a valid integer"

  /** Python's `int(r)` for a float: the integer part, rounding toward zero. */
  function Truncate(r: real): (i: int)
    ensures r >= 0.0 ==> i as real <= r < i as real + 1.0
    ensures r < 0.0 ==> i as real - 1.0 < r <= i as real
  {
    if r >= 0.0 then r.Floor else -((-r).Floor)
  }

  /**
   * `int(v)`: an integer itself, a boolean as 0 or 1, a float truncated, a text as
   * `parseInt` reads it (None when that raises `ValueError`); None, a list or a dict raise
   * `TypeError` (None).
   */
  function IntOf(v: Value, parseInt: string -> Wrappers.Option<int>): (r: Wrappers.Option<int>)
    ensures v.Int? ==> r == Wrappers.Some(v.i)
    ensures v.Bool? ==> r == Wrappers.Some(if v.b then 1 else 0)
    ensures v.Null? || v.Arr? || v.Obj? ==> r.None?
  {
    match v
    case Int(i) => Wrappers.Some(i)
    case Bool(b) => Wrappers.Some(if b then 1 else 0)
    case Real(x) => Wrappers.Some(Truncate(x))
    case Str(s) => parseInt(s)
    case _ => Wrappers.None
  }

  /** `TokenGenerationSchema.validate`: None is an empty body; a given `max_usage` must be an integer of at least 1. */
  function ValidateTokenGeneration(data: Value, parseInt: string -> Wrappers.Option<int>): (r: Verdict)
    requires Body(data)
    ensures r == Valid <==>
      !Has(data, "max_usage") || (IntOf(Get(data, "max_usage"), parseInt).Some? && IntOf(Get(data, "max_usage"), parseInt).value >= 1)
    ensures Has(data, "max_usage") && IntOf(Get(data, "max_usage"), parseInt).None? ==> r == Invalid(MaxUsageNotInt)
    ensures Has(data, "max_usage") && IntOf(Get(data, "max_usage"), parseInt).Some? ==>
      (IntOf(Get(data, "max_usage"), parseInt).value < 1 ==> r == Invalid(MaxUsageTooSmall))
    ensures data.Null? ==> r == Valid
    ensures r != Raises
  {
    if !Has(data, "max_usage") then Valid
    else match IntOf(Get(data, "max_usage"), parseInt)
      case None => Invalid(MaxUsageNotInt)
      case Some(n) => if n < 1 then Invalid(MaxUsageTooSmall) else Valid
  }

  /** A fraction below one truncates to zero and is refused; one and a half truncates to one and passes. */
  lemma FractionalMaxUsage(parseInt: string -> Wrappers.Option<int>)
    ensures ValidateTokenGeneration(Obj([("max_usage", Real(0.5))]), parseInt) == Invalid(MaxUsageTooSmall)
    ensures ValidateTokenGeneration(Obj([("max_usage", Real(1.5))]), parseInt) == Valid
  {
    assert Keys([("max_usage", Real(0.5))]) == ["max_usage"];
    assert Keys([("max_usage", Real(1.5))]) == ["max_usage"];
    assert Truncate(0.5) == 0 && Truncate(1.5) == 1;
  }
}
