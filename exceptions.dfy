// The application's exception hierarchy: every exception carries a message, an HTTP status
// and an optional payload, and renders as the payload with the message under 'error'.
module Exceptions {
  import opened Wrappers
  import Json

  /** The classes of the hierarchy; each has its own class-level status. */
  datatype Kind =
    | MetaDoc | Validation | Authentication | Authorization | ResourceNotFound | DuplicateResource
    | FileProcessing | Database | ExternalService

  /** The class attribute `status_code`. */
  function ClassStatus(k: Kind): (code: nat)
    ensures 400 <= code < 600
    ensures k == Authentication <==> code == 401
    ensures k == ResourceNotFound <==> code == 404
  {
    match k
    case MetaDoc => 500
    case Validation => 400
    case Authentication => 401
    case Authorization => 403
    case ResourceNotFound => 404
    case DuplicateResource => 409
    case FileProcessing => 422
    case Database => 500
    case ExternalService => 503
  }

  const AuthenticationRequired := "Authentication required"
  const AccessDenied := "Access denied"
  const FileProcessingFailed := "File processing failed"
  const DatabaseFailed := "Database operation failed"

  /** `"<subject><phrase>"`, then `<sep><detail>` when the detail is truthy: the shape of every default message. */
  function Described(subject: string, phrase: string, sep: string, detail: Option<string>): (m: string)
    requires sep != []
    ensures |m| >= |subject| && m[..|subject|] == subject
    ensures Truthy(detail) <==> |m| > |subject| + |phrase|
  {
    subject + phrase + (if Truthy(detail) then sep + detail.value else "")
  }

  /** `"<type> not found"`, then `": <id>"` when the id is truthy. */
  function NotFoundMessage(resourceType: string, resourceId: Option<string>): (m: string)
    ensures |m| >= |resourceType| && m[..|resourceType|] == resourceType
    ensures Truthy(resourceId) <==> |m| > |resourceType| + |" not found"|
  {
    Described(resourceType, " not found", ": ", resourceId)
  }

  /** `"<type> already exists"`, then `" with <field>"` when the field is truthy. */
  function DuplicateMessage(resourceType: string, field: Option<string>): (m: string)
    ensures |m| >= |resourceType| && m[..|resourceType|] == resourceType
    ensures Truthy(field) <==> |m| > |resourceType| + |" already exists"|
  {
    Described(resourceType, " already exists", " with ", field)
  }

  /** `"<service> service unavailable"`, then `": <message>"` when the message is truthy. */
  function ServiceMessage(serviceName: string, message: Option<string>): (m: string)
    ensures |m| >= |serviceName| && m[..|serviceName|] == serviceName
    ensures Truthy(message) <==> |m| > |serviceName| + |" service unavailable"|
  {
    Described(serviceName, " service unavailable", ": ", message)
  }

  /** The id is read back from a not-found message: two ids give the same message only when they are equal. */
  lemma NotFoundMessageInjective(resourceType: string, a: string, b: string)
    requires a != [] && b != []
    requires NotFoundMessage(resourceType, Some(a)) == NotFoundMessage(resourceType, Some(b))
    ensures a == b
  {
    var p := resourceType + " not found" + ": ";
    assert NotFoundMessage(resourceType, Some(a)) == p + a;
    assert NotFoundMessage(resourceType, Some(b)) == p + b;
    assert a == (p + a)[|p|..];
  }

  /**
   * `to_dict`: a copy of the payload (or {}), then the message assigned under 'error', which
   * overrides any 'error' entry of the payload.
   */
  function ErrorDict(payload: Json.Value, message: string): (r: seq<(string, Json.Value)>)
    ensures Json.Lookup(r, "error") == Some(Json.Str(message))
    ensures forall q :: q != "error" ==>
      Json.Lookup(r, q) == (if Json.Truthy(payload) && payload.Obj? then Json.Lookup(payload.fields, q) else None)
    ensures !(Json.Truthy(payload) && payload.Obj?) ==> r == [("error", Json.Str(message))]
  {
    var base := if Json.Truthy(payload) && payload.Obj? then payload.fields else [];
    forall q | true ensures Json.Lookup(Json.Set(base, "error", Json.Str(message)), q) ==
      (if q == "error" then Some(Json.Str(message)) else Json.Lookup(base, q))
    {
      Json.SetGet(base, "error", Json.Str(message), q);
    }
    Json.Set(base, "error", Json.Str(message))
  }

  /**
   * An exception object. The base constructor keeps the class status unless one is passed;
   * each subclass constructor fixes its message and status as its `__init__` does.
   */
  class AppException {
    var kind: Kind
    var message: string
    var statusCode: int
    var payload: Json.Value
    var field: Option<string>

    /** `MetaDocException(message, status_code, payload)`. */
    constructor (message: string, statusCode: Option<int>, payload: Json.Value)
      ensures this.kind == MetaDoc && this.message == message && this.payload == payload
      ensures this.statusCode == if statusCode.Some? then statusCode.value else ClassStatus(MetaDoc)
      ensures this.field.None?
    {
      this.kind := MetaDoc;
      this.message := message;
      this.statusCode := if statusCode.Some? then statusCode.value else ClassStatus(MetaDoc);
      this.payload := payload;
      this.field := None;
    }

    /** `ValidationError(message, field)`: always 400, the field recorded. */
    constructor ValidationError(message: string, field: Option<string>)
      ensures this.kind == Validation && this.message == message && this.statusCode == 400
      ensures this.payload == Json.Null && this.field == field
    {
      this.kind := Validation;
      this.message := message;
      this.statusCode := 400;
      this.payload := Json.Null;
      this.field := field;
    }

    // In the constructors that take an optional message, `None` stands for the argument left
    // out, which takes the class default. A caller passing an explicit `None` would have it
    // stored as is (the message attribute becomes `None`); that case is not represented.

    /** `AuthenticationError(message)`: 401; the message defaults to "Authentication required". */
    constructor AuthenticationError(message: Option<string>)
      ensures this.kind == Authentication && this.statusCode == 401 && this.payload == Json.Null
      ensures this.message == message.GetOr(AuthenticationRequired) && this.field.None?
    {
      this.kind := Authentication;
      this.message := message.GetOr(AuthenticationRequired);
      this.statusCode := 401;
      this.payload := Json.Null;
      this.field := None;
    }

    /** `AuthorizationError(message)`: 403; the message defaults to "Access denied". */
    constructor AuthorizationError(message: Option<string>)
      ensures this.kind == Authorization && this.statusCode == 403 && this.payload == Json.Null
      ensures this.message == message.GetOr(AccessDenied) && this.field.None?
    {
      this.kind := Authorization;
      this.message := message.GetOr(AccessDenied);
      this.statusCode := 403;
      this.payload := Json.Null;
      this.field := None;
    }

    /** `ResourceNotFoundError(resource_type, resource_id)`: 404. */
    constructor ResourceNotFoundError(resourceType: string, resourceId: Option<string>)
      ensures this.kind == ResourceNotFound && this.statusCode == 404 && this.payload == Json.Null
      ensures this.message == NotFoundMessage(resourceType, resourceId) && this.field.None?
    {
      this.kind := ResourceNotFound;
      this.message := NotFoundMessage(resourceType, resourceId);
      this.statusCode := 404;
      this.payload := Json.Null;
      this.field := None;
    }

    /** `DuplicateResourceError(resource_type, field)`: 409; the field only shapes the message. */
    constructor DuplicateResourceError(resourceType: string, field: Option<string>)
      ensures this.kind == DuplicateResource && this.statusCode == 409 && this.payload == Json.Null
      ensures this.message == DuplicateMessage(resourceType, field) && this.field.None?
    {
      this.kind := DuplicateResource;
      this.message := DuplicateMessage(resourceType, field);
      this.statusCode := 409;
      this.payload := Json.Null;
      this.field := None;
    }

    /** `FileProcessingError(message)`: 422; the message defaults to "File processing failed". */
    constructor FileProcessingError(message: Option<string>)
      ensures this.kind == FileProcessing && this.statusCode == 422 && this.payload == Json.Null
      ensures this.message == message.GetOr(FileProcessingFailed) && this.field.None?
    {
      this.kind := FileProcessing;
      this.message := message.GetOr(FileProcessingFailed);
      this.statusCode := 422;
      this.payload := Json.Null;
      this.field := None;
    }

    /** `DatabaseError(message)`: 500; the message defaults to "Database operation failed". */
    constructor DatabaseError(message: Option<string>)
      ensures this.kind == Database && this.statusCode == 500 && this.payload == Json.Null
      ensures this.message == message.GetOr(DatabaseFailed) && this.field.None?
    {
      this.kind := Database;
      this.message := message.GetOr(DatabaseFailed);
      this.statusCode := 500;
      this.payload := Json.Null;
      this.field := None;
    }

    /** `ExternalServiceError(service_name, message)`: 503. */
    constructor ExternalServiceError(serviceName: string, message: Option<string>)
      ensures this.kind == ExternalService && this.statusCode == 503 && this.payload == Json.Null
      ensures this.message == ServiceMessage(serviceName, message) && this.field.None?
    {
      this.kind := ExternalService;
      this.message := ServiceMessage(serviceName, message);
      this.statusCode := 503;
      this.payload := Json.Null;
      this.field := None;
    }

    /** Every subclass passes its own class status, so the instance status is the class one. */
    predicate StatusIsClassStatus()
      reads this
    {
      kind != MetaDoc ==> statusCode == ClassStatus(kind)
    }

    /** `to_dict`. */
    function ToDict(): (r: seq<(string, Json.Value)>)
      reads this
      ensures Json.Lookup(r, "error") == Some(Json.Str(message))
    {
      ErrorDict(payload, message)
    }
  }

  /** A subclass instance keeps its class status, and its dict carries only the message. */
  method NotFoundRendering(resourceType: string, resourceId: Option<string>) returns (e: AppException, d: seq<(string, Json.Value)>)
    ensures e.StatusIsClassStatus() && e.statusCode == 404
    ensures d == [("error", Json.Str(NotFoundMessage(resourceType, resourceId)))]
  {
    e := new AppException.ResourceNotFoundError(resourceType, resourceId);
    d := e.ToDict();
  }
}
