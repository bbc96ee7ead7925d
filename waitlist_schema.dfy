/**
 * The endpoint's validation gate, `waitlistEntrySchema.parse(body)`:
 * an object with a required `email` that passes the e-mail check, an
 * optional string `feedback` and an optional array of strings `painPoints`.
 * Unknown keys are dropped. On failure every problem found is reported as
 * an issue, and the endpoint turns them into a 400 response.
 */
module WaitlistSchema {
  import opened Wrappers
  import opened JsonValue

  /** The e-mail syntax check (`z.email()`), left uninterpreted: every
      property below holds whatever predicate is supplied. */
  type EmailCheck = string -> bool

  /** The validated payload; an absent optional key is `None`. */
  datatype Payload = Payload(email: string, feedback: Option<string>, painPoints: Option<seq<string>>)

  /** Where an issue is: the body itself, one of its keys, or an element
      of the array under a key (zod's `path` of one, two or no segments). */
  datatype Path = Root | Key(name: string) | Element(name: string, index: nat)

  /** A value of the wrong type, or a string that fails the e-mail format. */
  datatype IssueCode = InvalidType | InvalidFormat

  datatype Issue = Issue(code: IssueCode, path: Path)

  /** Reference definition of what the schema accepts, clause by clause. */
  ghost predicate Conforms(body: Json, isEmail: EmailCheck) {
    && body.JObject?
    && "email" in body.fields && body.fields["email"].JString? && isEmail(body.fields["email"].str)
    && ("feedback" in body.fields ==> body.fields["feedback"].JString?)
    && ("painPoints" in body.fields ==> IsStringArray(body.fields["painPoints"]))
  }

  ghost predicate IsStringArray(v: Json) {
    v.JArray? && forall i :: 0 <= i < |v.items| ==> v.items[i].JString?
  }

  /** One issue per array element, starting at index `from`, that is not a
      string: `z.array(z.string())` checks every element. */
  function ElementIssues(items: seq<Json>, field: string, from: nat): (r: seq<Issue>)
    ensures r == [] <==> forall i :: 0 <= i < |items| ==> items[i].JString?
    ensures forall k :: 0 <= k < |r| ==>
              && r[k].code == InvalidType && r[k].path.Element? && r[k].path.name == field
              && from <= r[k].path.index < from + |items|
    decreases |items|
  {
    if items == [] then []
    else
      var head := if items[0].JString? then [] else [Issue(InvalidType, Element(field, from))];
      var rest := ElementIssues(items[1..], field, from + 1);
      assert forall i :: 1 <= i < |items| ==> items[i] == items[1..][i - 1];
      head + rest
  }

  /** Every element that is not a string is reported, at its own index. */
  lemma {:induction false} ElementIssueAt(items: seq<Json>, field: string, from: nat, i: nat)
    requires i < |items|
    ensures Issue(InvalidType, Element(field, from + i)) in ElementIssues(items, field, from)
            <==> !items[i].JString?
    decreases |items|
  {
    if i == 0 {
      FirstElementIssue(items, field, from);
    } else {
      var issue := Issue(InvalidType, Element(field, from + i));
      var first := Issue(InvalidType, Element(field, from));
      var head := if items[0].JString? then [] else [first];
      var rest := ElementIssues(items[1..], field, from + 1);
      ElementIssueAt(items[1..], field, from + 1, i - 1);
      assert items[1..][i - 1] == items[i];
      assert ElementIssues(items, field, from) == head + rest;
      assert issue !in head;
    }
  }

  /** The first element is reported exactly when it is not a string. */
  lemma FirstElementIssue(items: seq<Json>, field: string, from: nat)
    requires items != []
    ensures Issue(InvalidType, Element(field, from)) in ElementIssues(items, field, from)
            <==> !items[0].JString?
  {
    var issue := Issue(InvalidType, Element(field, from));
    var rest := ElementIssues(items[1..], field, from + 1);
    assert issue !in rest by {
      forall k | 0 <= k < |rest| ensures rest[k] != issue {
        assert rest[k].path.index > from;
      }
    }
    if items[0].JString? {
      assert ElementIssues(items, field, from) == rest;
    } else {
      assert ElementIssues(items, field, from) == [issue] + rest;
    }
  }

  /** `email: z.email()`: one issue when the e-mail is missing, not a
      string, or fails the check, and none otherwise. */
  function EmailIssues(fields: map<string, Json>, isEmail: EmailCheck): (r: seq<Issue>)
    ensures r == [] <==> "email" in fields && fields["email"].JString? && isEmail(fields["email"].str)
    ensures |r| <= 1 && forall k :: 0 <= k < |r| ==> r[k].path == Key("email")
  {
    if "email" !in fields || !fields["email"].JString? then [Issue(InvalidType, Key("email"))]
    else if !isEmail(fields["email"].str) then [Issue(InvalidFormat, Key("email"))]
    else []
  }

  /** `feedback: z.string().optional()`: one type issue when the key is
      present with anything but a string (`null` included). */
  function FeedbackIssues(fields: map<string, Json>): (r: seq<Issue>)
    ensures r == [] <==> ("feedback" in fields ==> fields["feedback"].JString?)
    ensures forall k :: 0 <= k < |r| ==> r[k] == Issue(InvalidType, Key("feedback"))
  {
    if "feedback" in fields && !fields["feedback"].JString? then [Issue(InvalidType, Key("feedback"))]
    else []
  }

  /** `painPoints: z.array(z.string()).optional()`: a type issue on the key
      when the value is not an array, else one per non-string element. */
  function PainPointsIssues(fields: map<string, Json>): (r: seq<Issue>)
    ensures r == [] <==> ("painPoints" in fields ==> IsStringArray(fields["painPoints"]))
    ensures forall k :: 0 <= k < |r| ==>
              && r[k].code == InvalidType
              && (r[k].path == Key("painPoints") || (r[k].path.Element? && r[k].path.name == "painPoints"))
  {
    if "painPoints" !in fields then []
    else if !fields["painPoints"].JArray? then [Issue(InvalidType, Key("painPoints"))]
    else ElementIssues(fields["painPoints"].items, "painPoints", 0)
  }

  /** The strings of an array that holds only strings, in order. */
  function Strings(items: seq<Json>): (r: seq<string>)
    requires forall i :: 0 <= i < |items| ==> items[i].JString?
    ensures |r| == |items| && forall i :: 0 <= i < |items| ==> items[i] == JString(r[i])
  {
    seq(|items|, i requires 0 <= i < |items| => items[i].str)
  }

  /**
   * `waitlistEntrySchema.parse(body)`: the payload when the body conforms
   * to the schema, otherwise the non-empty list of issues (zod throws a
   * `ZodError` carrying them). Keys are checked in the schema's order.
   */
  function Parse(body: Json, isEmail: EmailCheck): (r: Result<Payload, seq<Issue>>)
    ensures r.Success? <==> Conforms(body, isEmail)
    ensures r.Failure? ==> r.error != []
    ensures !body.JObject? ==> r == Failure([Issue(InvalidType, Root)])
    ensures body.JObject? && ("email" !in body.fields || !body.fields["email"].JString?) ==>
              r.Failure? && r.error[0] == Issue(InvalidType, Key("email"))
    ensures body.JObject? && "email" in body.fields && body.fields["email"].JString?
              && !isEmail(body.fields["email"].str) ==>
              r.Failure? && r.error[0] == Issue(InvalidFormat, Key("email"))
    ensures r.Success? ==> var p := r.value; var f := body.fields;
      && p.email == f["email"].str && isEmail(p.email)
      && (p.feedback.Some? <==> "feedback" in f)
      && (p.feedback.Some? ==> f["feedback"] == JString(p.feedback.value))
      && (p.painPoints.Some? <==> "painPoints" in f)
      && (p.painPoints.Some? ==> f["painPoints"] == JArray(StringArray(p.painPoints.value)))
  {
    match body
    case JObject(fields) =>
      var issues := EmailIssues(fields, isEmail) + FeedbackIssues(fields) + PainPointsIssues(fields);
      if issues != [] then Failure(issues)
      else
        Success(Payload(
          fields["email"].str,
          if "feedback" in fields then Some(fields["feedback"].str) else None,
          if "painPoints" in fields then Some(Strings(fields["painPoints"].items)) else None))
    case _ => Failure([Issue(InvalidType, Root)])
  }
}
