// The deadline request schemas: creation needs a title and an ISO datetime; an update needs
// at least one known field, and checks the title and the datetime only when given.
module DeadlineSchemas {
  import Wrappers
  import Text
  import opened Json
  import opened Schemas
  import Store

  const CreateRequired: seq<string> := ["title", "deadline_datetime"]
  const UpdateFields: seq<string> := ["title", "description", "deadline_datetime", "timezone", "course_code", "assignment_type"]

  const TitleEmpty := "Title cannot be empty"
  const DatetimeRequired := "deadline_datetime is required"
  const BadDatetime := "Invalid deadline_datetime format. " + "Use ISO format (YYYY-MM-DDTHH:MM:SS)"
  const NothingToUpdate := "At least one field must be provided for update"
  const TitleEmptyIfProvided := "Title cannot be empty if provided"

  /** `datetime.fromisoformat(v)` succeeds; a value that is not text raises `TypeError`. */
  predicate Parses(v: Value, parse: Store.IsoParser)
  {
    v.Str? && parse(v.s).Ok?
  }

  /** Both required fields are present exactly when none is missing. */
  lemma CreateFieldsPresent(data: Value)
    ensures Missing(data, CreateRequired) == [] <==> Has(data, "title") && Has(data, "deadline_datetime")
  {
    MissingNone(data, CreateRequired);
  }

  /** The creation checks on the two required values, once both are present. */
  function CreateValues(title: Value, when: Value, parse: Store.IsoParser): (r: Verdict)
    ensures r.Valid? <==> NonBlankText(title) && Truthy(when) && Parses(when, parse)
    ensures r.Raises? <==> Truthy(title) && !title.Str?
    ensures r.Invalid? ==> r.message == TitleEmpty || r.message == DatetimeRequired || r.message == BadDatetime
  {
    if !Truthy(title) then Invalid(TitleEmpty)
    else if !title.Str? then Raises
    else if Text.Strip(title.s) == [] then Invalid(TitleEmpty)
    else if !Truthy(when) then Invalid(DatetimeRequired)
    else if !Parses(when, parse) then Invalid(BadDatetime)
    else Valid
  }

  /** `DeadlineCreateSchema.validate`. */
  function ValidateCreate(data: Value, parse: Store.IsoParser): (r: Verdict)
    requires Body(data)
    ensures !Truthy(data) ==> r == Invalid(BodyRequired)
    ensures Truthy(data) && Missing(data, CreateRequired) != [] ==> r == Invalid(MissingMessage(Missing(data, CreateRequired)))
    ensures Truthy(data) && Missing(data, CreateRequired) == [] ==>
      Has(data, "title") && Has(data, "deadline_datetime")
      && r == CreateValues(Get(data, "title"), Get(data, "deadline_datetime"), parse)
  {
    if !Truthy(data) then Invalid(BodyRequired)
    else
      var missing := Missing(data, CreateRequired);
      CreateFieldsPresent(data);
      if missing != [] then Invalid(MissingMessage(missing))
      else CreateValues(Get(data, "title"), Get(data, "deadline_datetime"), parse)
  }

  /** Some field of `UpdateFields` is in the body. */
  predicate AnyUpdateField(data: Value)
  {
    exists i :: 0 <= i < |UpdateFields| && Has(data, UpdateFields[i])
  }

  /** The update checks on the title and the datetime, each None when the body lacks it. */
  function UpdateValues(title: Wrappers.Option<Value>, when: Wrappers.Option<Value>, parse: Store.IsoParser): (r: Verdict)
    ensures r.Valid? <==> (title.Some? ==> NonBlankText(title.value)) && (when.Some? ==> Parses(when.value, parse))
    ensures r.Raises? <==> title.Some? && Truthy(title.value) && !title.value.Str?
    ensures r.Invalid? ==> r.message == TitleEmptyIfProvided || r.message == BadDatetime
  {
    if title.Some? && !UpdateTitle(title.value).Valid? then UpdateTitle(title.value)
    else if when.Some? && !Parses(when.value, parse) then Invalid(BadDatetime)
    else Valid
  }

  /** The update check on a given title: falsy or blank is refused, a non-text title raises. */
  function UpdateTitle(title: Value): (r: Verdict)
    ensures r.Valid? <==> NonBlankText(title)
    ensures r.Raises? <==> Truthy(title) && !title.Str?
    ensures r.Invalid? ==> r.message == TitleEmptyIfProvided
  {
    if !Truthy(title) then Invalid(TitleEmptyIfProvided)
    else if !title.Str? then Raises
    else if Text.Strip(title.s) == [] then Invalid(TitleEmptyIfProvided)
    else Valid
  }

  /** The value under a key, None when the body lacks the key. */
  function Field(data: Value, k: string): (r: Wrappers.Option<Value>)
    requires Body(data)
    ensures r.Some? <==> Has(data, k)
    ensures r.Some? ==> r.value == Get(data, k)
  {
    if Has(data, k) then Wrappers.Some(Get(data, k)) else Wrappers.None
  }

  /** `DeadlineUpdateSchema.validate`. */
  function ValidateUpdate(data: Value, parse: Store.IsoParser): (r: Verdict)
    requires Body(data)
    ensures !Truthy(data) ==> r == Invalid(BodyRequired)
    ensures Truthy(data) && !AnyUpdateField(data) ==> r == Invalid(NothingToUpdate)
    ensures Truthy(data) && AnyUpdateField(data) ==>
      r == UpdateValues(Field(data, "title"), Field(data, "deadline_datetime"), parse)
  {
    if !Truthy(data) then Invalid(BodyRequired)
    else if !AnyUpdateField(data) then Invalid(NothingToUpdate)
    else UpdateValues(Field(data, "title"), Field(data, "deadline_datetime"), parse)
  }

  /** Every body that creates a deadline is also a valid update. */
  lemma CreateBodyIsValidUpdate(data: Value, parse: Store.IsoParser)
    requires Body(data) && ValidateCreate(data, parse) == Valid
    ensures ValidateUpdate(data, parse) == Valid
  {
    assert UpdateFields[0] == "title";
  }

  /** A body with only a description updates but does not create. */
  lemma DescriptionOnly(data: Value, parse: Store.IsoParser)
    requires data.Obj? && data.fields == [("description", Str("notes"))]
    ensures ValidateUpdate(data, parse) == Valid
    ensures ValidateCreate(data, parse) == Invalid(MissingMessage(["title", "deadline_datetime"]))
  {
    assert Keys(data.fields) == ["description"];
    assert Has(data, UpdateFields[1]);
    assert Missing(data, CreateRequired) == ["title", "deadline_datetime"];
  }
}
