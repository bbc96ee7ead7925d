/**
 * `POST /api/waitlist`: read the JSON body, validate it, upsert, and map
 * the outcome to a status: 201 with the stored row, 400 with the
 * validation issues, 500 for every other failure.
 */
module WaitlistRoute {
  import opened Wrappers
  import opened JsonValue
  import opened WaitlistSchema
  import opened WaitlistStore
  import opened Text

  /** What `req.json()` yields: a JSON value, or a body it cannot parse
      (it then throws an error that is not a `ZodError`). */
  datatype RequestBody = Body(json: Json) | Unparseable

  /** The three responses the handler writes. */
  datatype Response = Created(entry: Entry) | InvalidInput(issues: seq<Issue>) | ServerError {

    /** The HTTP status of the response. */
    function Status(): (s: int)
      ensures s == 201 || s == 400 || s == 500
      ensures 200 <= s <= 299 <==> Created?
    {
      match this
      case Created(_) => 201
      case InvalidInput(_) => 400
      case ServerError => 500
    }

    /** The `success` field of the JSON response body: true exactly for 201. */
    predicate Success()
      ensures Success() <==> Status() == 201
    {
      Created?
    }

    /** The `message` field of the JSON response body, absent on success. */
    function Message(): (m: Option<string>)
      ensures m.None? <==> Success()
      ensures Status() == 400 ==> m == Some("Invalid input")
      ensures Status() == 500 ==> m == Some("Internal Server Error")
    {
      match this
      case Created(_) => None
      case InvalidInput(_) => Some("Invalid input")
      case ServerError => Some("Internal Server Error")
    }
  }

  /**
   * The handler. `storeAvailable` stands for whether the datastore call
   * succeeds. Parsing comes before the upsert, so a body that fails
   * validation (or cannot be read) leaves the table untouched.
   */
  method Post(table: Table, body: RequestBody, isEmail: EmailCheck, storeAvailable: bool)
    returns (resp: Response)
    requires table.Valid()
    modifies table
    ensures table.Valid()
    ensures body.Unparseable? ==> resp == ServerError && table.rows == old(table.rows)
    ensures body.Body? && Parse(body.json, isEmail).Failure? ==>
              resp == InvalidInput(Parse(body.json, isEmail).error) && table.rows == old(table.rows)
    ensures body.Body? && Parse(body.json, isEmail).Success? ==>
              var p := Parse(body.json, isEmail).value;
              if storeAvailable then
                table.rows == Upserted(old(table.rows), p) && resp == Created(table.rows[p.email])
              else
                resp == ServerError && table.rows == old(table.rows)
    ensures resp.Status() == 400 <==> body.Body? && !Conforms(body.json, isEmail)
    ensures resp.Status() == 201 <==> body.Body? && Conforms(body.json, isEmail) && storeAvailable
    ensures resp.InvalidInput? ==> resp.issues != []
    ensures resp.Success() <==> body.Body? && Conforms(body.json, isEmail) && storeAvailable
  {
    if body.Unparseable? {
      return ServerError;
    }
    var parsed := Parse(body.json, isEmail);
    if parsed.Failure? {
      return InvalidInput(parsed.error);
    }
    var entry := table.Upsert(parsed.value, storeAvailable);
    if entry.None? {
      return ServerError;
    }
    resp := Created(entry.value);
  }

  /** A first submission with only an e-mail creates the row with `null`
      feedback and no pain points. */
  method FirstSubmissionScenario(table: Table, isEmail: EmailCheck)
    requires table.Valid() && table.rows == map[] && isEmail("ana@example.com")
    modifies table
  {
    var a := "ana@example.com";
    var b := JObject(map["email" := JString(a)]);
    assert Parse(b, isEmail) == Success(Payload(a, None, None));
    var r := Post(table, Body(b), isEmail, true);
    assert r.Status() == 201 && table.rows == map[a := Entry(a, None, [])];
  }

  /** Feedback with text replaces the stored feedback and leaves the pain points. */
  method FeedbackScenario(table: Table, isEmail: EmailCheck)
    requires table.Valid() && isEmail("ana@example.com")
    requires "ana@example.com" in table.rows
    modifies table
  {
    var a := "ana@example.com";
    var stored := table.rows[a];
    var b := JObject(map["email" := JString(a), "feedback" := JString("great idea")]);
    assert Parse(b, isEmail) == Success(Payload(a, Some("great idea"), None));
    assert HasText("great idea") by { assert !IsWhitespace("great idea"[0]); }
    var r := Post(table, Body(b), isEmail, true);
    assert table.rows[a] == stored.(feedback := Some("great idea"));
  }

  /** Blank feedback keeps the stored feedback while a new list replaces the old. */
  method BlankFeedbackScenario(table: Table, isEmail: EmailCheck)
    requires table.Valid() && isEmail("ana@example.com")
    requires "ana@example.com" in table.rows
    modifies table
  {
    var a := "ana@example.com";
    var stored := table.rows[a];
    var b := JObject(map["email" := JString(a), "feedback" := JString("  "),
                         "painPoints" := JArray([JString("setup time")])]);
    assert Strings([JString("setup time")]) == ["setup time"];
    assert Parse(b, isEmail) == Success(Payload(a, Some("  "), Some(["setup time"])));
    assert !HasText("  ");
    var r := Post(table, Body(b), isEmail, true);
    assert table.rows[a] == stored.(painPoints := ["setup time"]);
  }

  /** An empty pain-point list keeps the stored one, and an address that
      fails the check is refused with 400 and changes nothing. */
  method KeepAndRefuseScenario(table: Table, isEmail: EmailCheck)
    requires table.Valid() && isEmail("ana@example.com") && !isEmail("not-an-email")
    requires "ana@example.com" in table.rows
    modifies table
  {
    var a := "ana@example.com";
    var stored := table.rows[a];
    var b := JObject(map["email" := JString(a), "painPoints" := JArray([])]);
    assert Parse(b, isEmail) == Success(Payload(a, None, Some([])));
    var r := Post(table, Body(b), isEmail, true);
    assert table.rows[a] == stored;

    var before := table.rows;
    b := JObject(map["email" := JString("not-an-email")]);
    r := Post(table, Body(b), isEmail, true);
    assert r.Status() == 400 && table.rows == before;
  }
}
