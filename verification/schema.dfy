/** Request input as the handlers receive it, and the two input checks the
    handlers run on it: the `{ title: string, description: string }` body
    schema and the `{ id: uuid }` path-parameter schema. */
module Schema {
  import opened Search

  /** A parsed JSON request body. Only what the body schema looks at is
      distinguished: strings and objects. `JOther` stands for every other
      JSON value (null, booleans, numbers, arrays) and for an absent body. */
  datatype Json = JString(text: string) | JObject(fields: map<string, Json>) | JOther

  /** The validated fields of a task body; also the payload the CSV import
      submits for one row. */
  datatype TaskBody = TaskBody(title: string, description: string)

  /** Whether `key` holds a string in a JSON object. */
  predicate HasString(fields: map<string, Json>, key: string) {
    key in fields && fields[key].JString?
  }

  /** The body schema: an object whose `title` and `description` are both
      strings (empty strings included). Other keys are ignored. */
  function ParseTaskBody(body: Json): (r: Option<TaskBody>)
    ensures r.Some? <==> body.JObject? && HasString(body.fields, "title") && HasString(body.fields, "description")
    ensures r.Some? ==> r.value.title == body.fields["title"].text
    ensures r.Some? ==> r.value.description == body.fields["description"].text
  {
    match body
    case JObject(fields) =>
      if HasString(fields, "title") && HasString(fields, "description")
      then Some(TaskBody(fields["title"].text, fields["description"].text))
      else None
    case _ => None
  }

  /** The JSON object a payload is serialised to before it is posted: an
      object with exactly the two string fields, which the body schema
      accepts and reads back as the same payload. */
  function ToJson(b: TaskBody): (r: Json)
    ensures r.JObject? && r.fields.Keys == {"title", "description"}
    ensures ParseTaskBody(r) == Some(b)
  {
    var fields := map["title" := JString(b.title), "description" := JString(b.description)];
    assert HasString(fields, "title") && HasString(fields, "description");
    JObject(fields)
  }

  predicate IsHexDigit(c: char) {
    ('0' <= c <= '9') || ('a' <= c <= 'f') || ('A' <= c <= 'F')
  }

  /** A UUID in its textual form: 32 hexadecimal digits in groups of
      8-4-4-4-12 separated by hyphens. */
  predicate ValidUuid(s: string) {
    && |s| == 36
    && forall i :: 0 <= i < 36 ==>
         if i == 8 || i == 13 || i == 18 || i == 23 then s[i] == '-' else IsHexDigit(s[i])
  }

  /** The path-parameter schema: `id` present and a UUID. */
  function ParseIdParam(params: map<string, string>): (r: Option<string>)
    ensures r.Some? <==> "id" in params && ValidUuid(params["id"])
    ensures r.Some? ==> r.value == params["id"]
  {
    if "id" in params && ValidUuid(params["id"]) then Some(params["id"]) else None
  }
}
