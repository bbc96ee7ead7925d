/**
 * The landing page's client-side state: the waitlist form's values, the
 * `isSubmitted`, `isSubmitting` and `feedbackSubmitted` flags and the
 * selected pain points, with the handlers that change them.
 */
module LandingPage {
  import opened Wrappers
  import opened Text
  import opened JsonValue
  import opened WaitlistSchema
  import opened WaitlistStore
  import opened PainSelection
  import WaitlistRoute

  /** The form's two fields; both are bound to inputs, so both are strings. */
  datatype FormValues = FormValues(email: string, feedback: string)

  /** The form's `defaultValues`, which `form.reset()` restores. */
  const DefaultValues := FormValues("", "")

  /** How the `fetch` of the endpoint ends: a response with its status, or
      a rejection (network failure, or a body `res.json()` cannot read). */
  datatype FetchResult = Responded(status: int) | Rejected {
    /** `res.ok`: a response whose status is in the range 200 to 299. */
    predicate Ok() {
      Responded? && 200 <= status <= 299
    }
  }

  /** A snapshot of the component state the handlers touch. */
  datatype UiState = UiState(
    form: FormValues,
    isSubmitted: bool,
    isSubmitting: bool,
    feedbackSubmitted: bool,
    painPoints: seq<string>)

  /** The body `submitToWaitlist` posts, `JSON.stringify({ email, feedback, painPoints })`. */
  function RequestBody(values: FormValues, painPoints: seq<string>): (r: Json)
    ensures r.JObject? && r.fields.Keys == {"email", "feedback", "painPoints"}
    ensures r.fields["email"] == JString(values.email) && r.fields["feedback"] == JString(values.feedback)
    ensures IsStringArray(r.fields["painPoints"]) && |r.fields["painPoints"].items| == |painPoints|
    ensures forall i :: 0 <= i < |painPoints| ==> r.fields["painPoints"].items[i] == JString(painPoints[i])
  {
    JObject(map[
      "email" := JString(values.email),
      "feedback" := JString(values.feedback),
      "painPoints" := JArray(StringArray(painPoints))])
  }

  /**
   * The page's request passes the endpoint's schema exactly when the
   * e-mail passes the check both sides share, and it then arrives with the
   * form's values and the selection intact. The page's choice of thank-you
   * screen uses the same test as the endpoint's feedback update.
   */
  lemma RequestMeetsSchema(values: FormValues, painPoints: seq<string>, isEmail: EmailCheck)
    ensures Parse(RequestBody(values, painPoints), isEmail).Success? <==> isEmail(values.email)
    ensures isEmail(values.email) ==>
              && Parse(RequestBody(values, painPoints), isEmail)
                 == Success(Payload(values.email, Some(values.feedback), Some(painPoints)))
              && (UpdatesFeedback(Parse(RequestBody(values, painPoints), isEmail).value) <==> HasText(values.feedback))
  {
    var body := RequestBody(values, painPoints);
    if isEmail(values.email) {
      assert Conforms(body, isEmail);
      var p := Parse(body, isEmail).value;
      assert |p.painPoints.value| == |painPoints|;
      assert forall i :: 0 <= i < |painPoints| ==> p.painPoints.value[i] == painPoints[i] by {
        forall i | 0 <= i < |painPoints|
          ensures p.painPoints.value[i] == painPoints[i]
        {
          assert body.fields["painPoints"].items[i] == JString(painPoints[i]);
        }
      }
      assert p.painPoints.value == painPoints;
      assert p == Payload(values.email, Some(values.feedback), Some(painPoints));
    }
  }

  /**
   * The state `submitToWaitlist` leaves behind. On success the thank-you
   * flag chosen by the feedback's text is raised, the form is reset and
   * the selection cleared; on a non-ok response or a rejection nothing but
   * `isSubmitting` changes; `isSubmitting` ends false either way.
   * It is defined through `SettledOn`, and `Page.Settle` is specified by
   * `SettledOn`. That keeps the trim reasoning behind the feedback test
   * out of the proof about the state update, which stays cheap.
   */
  function Settled(s: UiState, values: FormValues, result: FetchResult): (r: UiState)
    ensures !r.isSubmitting
    ensures result.Ok() && HasText(values.feedback) ==> r.feedbackSubmitted && r.isSubmitted == s.isSubmitted
    ensures result.Ok() && !HasText(values.feedback) ==> r.isSubmitted && r.feedbackSubmitted == s.feedbackSubmitted
    ensures result.Ok() ==> r.form == DefaultValues && r.painPoints == []
    ensures !result.Ok() ==> r == s.(isSubmitting := false)
  {
    SettledOn(s, HasText(values.feedback), result)
  }

  /** `Settled` with the outcome of the page's feedback test,
      `values.feedback && values.feedback.trim()`, already taken. */
  function SettledOn(s: UiState, withText: bool, result: FetchResult): (r: UiState)
    ensures !r.isSubmitting
    ensures result.Ok() ==> r.form == DefaultValues && r.painPoints == []
    ensures result.Ok() ==> r.feedbackSubmitted == (withText || s.feedbackSubmitted)
    ensures result.Ok() ==> r.isSubmitted == (!withText || s.isSubmitted)
    ensures !result.Ok() ==> r == s.(isSubmitting := false)
  {
    if !result.Ok() then s.(isSubmitting := false)
    else if withText then
      s.(feedbackSubmitted := true, form := DefaultValues, painPoints := [], isSubmitting := false)
    else
      s.(isSubmitted := true, form := DefaultValues, painPoints := [], isSubmitting := false)
  }

  /** The endpoint's response makes `res.ok` hold exactly when it is the
      created response, so only a stored signup takes the success branch of
      `Settled`; every other response changes nothing but `isSubmitting`. */
  lemma ResponseOkIffCreated(resp: WaitlistRoute.Response, s: UiState, values: FormValues)
    ensures Responded(resp.Status()).Ok() <==> resp.Created?
    ensures !resp.Created? ==> Settled(s, values, Responded(resp.Status())) == s.(isSubmitting := false)
  {
  }

  /** A submission never lowers a success flag. */
  lemma SettledKeepsSuccess(s: UiState, values: FormValues, result: FetchResult)
    ensures s.isSubmitted ==> Settled(s, values, result).isSubmitted
    ensures s.feedbackSubmitted ==> Settled(s, values, result).feedbackSubmitted
  {
  }

  class Page {
    /** The e-mail check of `waitlistFormSchema`. */
    const isEmail: EmailCheck
    var form: FormValues
    var isSubmitted: bool
    var isSubmitting: bool
    var feedbackSubmitted: bool
    var painPoints: seq<string>

    function State(): UiState
      reads this
    {
      UiState(form, isSubmitted, isSubmitting, feedbackSubmitted, painPoints)
    }

    /** The selection never holds a pain point twice: it starts empty, and
        `togglePainPoint` appends a pain point only when it is absent. */
    ghost predicate Valid()
      reads this
    {
      Distinct(painPoints)
    }

    /** The initial state: default form values, every flag false, nothing selected. */
    constructor (isEmail: EmailCheck)
      ensures this.isEmail == isEmail
      ensures State() == UiState(DefaultValues, false, false, false, [])
      ensures Valid()
    {
      this.isEmail := isEmail;
      form := DefaultValues;
      isSubmitted, isSubmitting, feedbackSubmitted := false, false, false;
      painPoints := [];
    }

    /** The visitor types into the form's fields: the e-mail input and the
        feedback textarea (src/app/page.tsx:581-600) of the same form. */
    method Edit(values: FormValues)
      requires Valid()
      modifies this
      ensures Valid()
      ensures State() == old(State()).(form := values)
    {
      form := values;
    }

    /** `togglePainPoint`. */
    method TogglePainPoint(pain: string)
      requires Valid()
      modifies this
      ensures Valid()
      ensures State() == old(State()).(painPoints := Toggle(old(painPoints), pain))
    {
      ToggleDistinct(painPoints, pain);
      if pain in painPoints {
        painPoints := Without(painPoints, pain);
      } else {
        painPoints := painPoints + [pain];
      }
    }

    /** The solutions section lists the selected catalogue items in catalogue order. */
    function Solutions(): (r: seq<PainPoint>)
      reads this
      ensures forall x :: x in r <==> x in CreatorPainPoints && x.pain in painPoints
    {
      Shown(CreatorPainPoints, painPoints)
    }

    /** `setIsSubmitting(true)`, done by both handlers before the request. */
    method BeginSubmission()
      requires Valid()
      modifies this
      ensures Valid()
      ensures State() == old(State()).(isSubmitting := true)
    {
      isSubmitting := true;
    }

    /**
     * `submitToWaitlist`: post the form values with the current selection,
     * then settle on the outcome of the request. Returns the body sent.
     */
    method SubmitToWaitlist(values: FormValues, result: FetchResult) returns (request: Json)
      requires Valid()
      modifies this
      ensures Valid()
      ensures request == RequestBody(values, old(painPoints))
      ensures State() == Settled(old(State()), values, result)
    {
      request := RequestBody(values, painPoints);
      var withText := HasText(values.feedback);
      Settle(withText, result);
    }

    /**
     * What `submitToWaitlist` does once the request has ended: on `res.ok`
     * raise the thank-you flag the feedback test `withText` calls for, reset the form and
     * clear the selection; in every case (`finally`) clear `isSubmitting`.
     */
    method Settle(withText: bool, result: FetchResult)
      requires Valid()
      modifies this
      ensures Valid()
      ensures State() == SettledOn(old(State()), withText, result)
    {
      if !result.Ok() {
        isSubmitting := false;
      } else if withText {
        feedbackSubmitted, form, painPoints, isSubmitting := true, DefaultValues, [], false;
      } else {
        isSubmitted, form, painPoints, isSubmitting := true, DefaultValues, [], false;
      }
    }

    /**
     * The feedback form's submit: `form.handleSubmit` calls
     * `handleFormSubmit` only when the form passes its schema, which here
     * means the e-mail passes the check. Returns the body sent, if any.
     */
    method HandleFormSubmit(result: FetchResult) returns (request: Option<Json>)
      requires Valid()
      modifies this
      ensures Valid()
      ensures !isEmail(old(form).email) ==> request == None && State() == old(State())
      ensures isEmail(old(form).email) ==>
                && request == Some(RequestBody(old(form), old(painPoints)))
                && State() == Settled(old(State()).(isSubmitting := true), old(form), result)
    {
      if !isEmail(form.email) {
        return None;
      }
      var values := form;
      BeginSubmission();
      var sent := SubmitToWaitlist(values, result);
      request := Some(sent);
    }

    /**
     * The quick-access button: `form.trigger("email")` validates the
     * e-mail alone; when it fails nothing is submitted. Otherwise the
     * current form values are submitted. Returns the body sent, if any.
     */
    method HandleButtonClick(result: FetchResult) returns (request: Option<Json>)
      requires Valid()
      modifies this
      ensures Valid()
      ensures !isEmail(old(form).email) ==> request == None && State() == old(State())
      ensures isEmail(old(form).email) ==>
                && request == Some(RequestBody(old(form), old(painPoints)))
                && State() == Settled(old(State()).(isSubmitting := true), old(form), result)
    {
      var isValid := isEmail(form.email);
      if !isValid {
        return None;
      }
      var values := form;
      BeginSubmission();
      var sent := SubmitToWaitlist(values, result);
      request := Some(sent);
    }

    /** "Submit More Feedback": leave the thank-you screen and reset the form. */
    method SubmitMoreFeedback()
      requires Valid()
      modifies this
      ensures Valid()
      ensures State() == old(State()).(feedbackSubmitted := false, form := DefaultValues)
    {
      feedbackSubmitted := false;
      form := DefaultValues;
    }
  }

  /**
   * One signup from the feedback form against the endpoint: the page's
   * request is posted to `POST /api/waitlist` and the page settles on the
   * status it gets back. A valid address with a working store is stored as
   * sent and always reaches a thank-you screen.
   */
  method SubmitSignup(page: Page, table: Table, storeAvailable: bool) returns (resp: Option<WaitlistRoute.Response>)
    requires page.Valid() && table.Valid()
    modifies page, table
    ensures page.Valid() && table.Valid()
    ensures !page.isEmail(old(page.form).email) ==>
              resp == None && page.State() == old(page.State()) && table.rows == old(table.rows)
    ensures page.isEmail(old(page.form).email) ==>
              var p := Payload(old(page.form).email, Some(old(page.form).feedback), Some(old(page.painPoints)));
              && resp.Some?
              && (resp.value.Created? <==> storeAvailable)
              && (storeAvailable ==> table.rows == Upserted(old(table.rows), p))
              && (!storeAvailable ==> table.rows == old(table.rows))
              && page.State() == Settled(old(page.State()).(isSubmitting := true), old(page.form), Responded(resp.value.Status()))
    ensures page.isEmail(old(page.form).email) && storeAvailable ==>
              (page.isSubmitted || page.feedbackSubmitted) && page.painPoints == [] && !page.isSubmitting
  {
    if !page.isEmail(page.form.email) {
      var none := page.HandleFormSubmit(Rejected);
      return None;
    }
    var body := RequestBody(page.form, page.painPoints);
    RequestMeetsSchema(page.form, page.painPoints, page.isEmail);
    var r := WaitlistRoute.Post(table, WaitlistRoute.Body(body), page.isEmail, storeAvailable);
    var sent := page.HandleFormSubmit(Responded(r.Status()));
    resp := Some(r);
  }
}
