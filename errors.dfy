/**
 * The error taxonomy (a base error and its not-found, validation and storage
 * kinds), the structured error response, and the validation of a new task's
 * title and description.
 */
module Errors {
  import opened Wrappers
  import Text

  /** The JSON-like values that error details and error responses are made of. */
  datatype Json = JInt(i: int) | JStr(s: string) | JObject(fields: map<string, Json>)

  /** Which class the error is an instance of. */
  datatype ErrorKind = Generic | NotFound | Invalid | Storage

  /** An error: its class, a human-readable message, a machine-readable code and a details map. */
  datatype TodoError = TodoError(kind: ErrorKind, message: string, code: string, details: map<string, Json>)

  const MaxTitleLength := 200
  const MaxDescriptionLength := 1000

  /** The base error. A missing details map is stored as the empty map. */
  function NewTodoError(message: string, code: string, details: Option<map<string, Json>>): (e: TodoError)
    ensures e.kind == Generic && e.message == message && e.code == code
    ensures details.None? ==> e.details == map[]
    ensures details.Some? ==> e.details == details.value
  {
    TodoError(Generic, message, code, details.GetOr(map[]))
  }

  /** Raised for an id no task has; the details carry that id. */
  function TaskNotFoundError(taskId: int): (e: TodoError)
    ensures e.kind == NotFound && e.code == "TASK_NOT_FOUND"
    ensures e.details.Keys == {"task_id"} && e.details["task_id"] == JInt(taskId)
    ensures e.message == "Task with ID " + Text.IntToString(taskId) + " not found"
  {
    NewTodoError("Task with ID " + Text.IntToString(taskId) + " not found", "TASK_NOT_FOUND",
                 Some(map["task_id" := JInt(taskId)])).(kind := NotFound)
  }

  /** Raised when a field is rejected; the details name the field. */
  function ValidationError(message: string, field: string): (e: TodoError)
    ensures e.kind == Invalid && e.code == "VALIDATION_ERROR" && e.message == message
    ensures e.details.Keys == {"field"} && e.details["field"] == JStr(field)
  {
    NewTodoError(message, "VALIDATION_ERROR", Some(map["field" := JStr(field)])).(kind := Invalid)
  }

  /** Raised when the task file cannot be read or written; the details are kept as given. */
  function StorageError(operation: string, details: map<string, Json>): (e: TodoError)
    ensures e.kind == Storage && e.code == "STORAGE_ERROR" && e.details == details
    ensures e.message == "Storage operation '" + operation + "' failed"
  {
    NewTodoError("Storage operation '" + operation + "' failed", "STORAGE_ERROR", Some(details)).(kind := Storage)
  }

  /** The code, message and details an error response carries, if it has that shape. */
  function ReadErrorResponse(response: Json): Option<(string, string, map<string, Json>)> {
    if response.JObject? && "error" in response.fields && response.fields["error"].JObject? then
      var body := response.fields["error"].fields;
      if "code" in body && body["code"].JStr? && "message" in body && body["message"].JStr?
         && "details" in body && body["details"].JObject?
      then Some((body["code"].s, body["message"].s, body["details"].fields))
      else None
    else None
  }

  /** `{"error": {"code": ..., "message": ..., "details": ...}}`, copied from the error. */
  function FormatErrorResponse(e: TodoError): (r: Json)
    ensures r.JObject? && r.fields.Keys == {"error"}
    ensures r.fields["error"].JObject? && r.fields["error"].fields.Keys == {"code", "message", "details"}
    ensures ReadErrorResponse(r) == Some((e.code, e.message, e.details))
  {
    JObject(map["error" := JObject(map["code" := JStr(e.code), "message" := JStr(e.message),
                                       "details" := JObject(e.details)])])
  }

  /** A title passes: it is not all whitespace and has at most 200 characters. */
  ghost predicate TitleAcceptable(title: string) {
    !Text.IsBlank(title) && |title| <= MaxTitleLength
  }

  /**
   * The checks on a new task, in order: a missing, empty or whitespace-only title, a
   * title over 200 characters, a description over 1000 characters. The first that
   * fails is reported. A missing title is None: the web front end passes the absent
   * `title` key through as None, which `not title` rejects like the empty string.
   */
  function HandleValidation(title: Option<string>, description: string): (r: Outcome<TodoError>)
    ensures r.Pass? <==> title.Some? && TitleAcceptable(title.value) && |description| <= MaxDescriptionLength
    ensures r.Fail? ==> r.error.kind == Invalid && r.error.code == "VALIDATION_ERROR"
    ensures r.Fail? ==>
      r.error.details == map["field" := JStr(if title.Some? && TitleAcceptable(title.value) then "description" else "title")]
    ensures r.Fail? && (title.None? || Text.IsBlank(title.value)) ==> r.error.message == "Title cannot be empty"
  {
    match title
    case None => Fail(ValidationError("Title cannot be empty", "title"))
    case Some(t) =>
      if t == [] || Text.Strip(t) == [] then Fail(ValidationError("Title cannot be empty", "title"))
      else if |t| > MaxTitleLength then Fail(ValidationError("Title is too long (max 200 characters)", "title"))
      else if |description| > MaxDescriptionLength then
        Fail(ValidationError("Description is too long (max 1000 characters)", "description"))
      else Pass
  }

  /**
   * What a client of the web front end sees when validation fails: the formatted
   * response reads back as a validation error naming the field at fault.
   */
  lemma RejectedInputResponse(title: Option<string>, description: string)
    requires HandleValidation(title, description).Fail?
    ensures var response := ReadErrorResponse(FormatErrorResponse(HandleValidation(title, description).error));
      && response.Some? && response.value.0 == "VALIDATION_ERROR"
      && response.value.2 == map["field" := JStr(if title.Some? && TitleAcceptable(title.value) then "description" else "title")]
  {
  }

  /** The formatted response of a not-found error reads back with its code and the id it names. */
  lemma NotFoundResponse(taskId: int)
    ensures var response := ReadErrorResponse(FormatErrorResponse(TaskNotFoundError(taskId)));
      && response.Some? && response.value.0 == "TASK_NOT_FOUND"
      && response.value.2 == map["task_id" := JInt(taskId)]
  {
  }
}
