/**
 * The "Add New Artwork" dialog: its form state, the field updates, the
 * reset, the required-field gate in front of the create mutation, the
 * payload the mutation validates and posts, and what the dialog does when
 * the mutation succeeds or fails.
 */
module ArtworkDialog {
  import opened JsValues
  import opened JsText
  import opened Schema
  import Feedback

  /** The text inputs, in the form's declaration order. */
  const TextInputs: seq<string> :=
    ["title", "description", "price", "imageUrl", "style", "medium", "width", "height", "year"]

  /** The two switches. */
  const Switches: seq<string> := ["isAvailable", "isFeatured"]

  /** The form state the dialog opens with: every input empty, the artwork
      available and not featured. */
  const InitialForm: Obj := Object(TextInputs + Switches, map[
    "title" := Str(""), "description" := Str(""), "price" := Str(""), "imageUrl" := Str(""),
    "style" := Str(""), "medium" := Str(""), "width" := Str(""), "height" := Str(""),
    "year" := Str(""), "isAvailable" := Bool(true), "isFeatured" := Bool(false)])

  /** Every input holds text and every switch a boolean. */
  predicate FormShaped(form: Obj) {
    && Get(form, "title").Str? && Get(form, "description").Str? && Get(form, "price").Str?
    && Get(form, "imageUrl").Str? && Get(form, "style").Str? && Get(form, "medium").Str?
    && Get(form, "width").Str? && Get(form, "height").Str? && Get(form, "year").Str?
    && Get(form, "isAvailable").Bool? && Get(form, "isFeatured").Bool?
  }

  /** The form as it opens and as it is reset: exactly the eleven fields,
      the inputs empty, the switches on their defaults. */
  lemma InitialFormShape()
    ensures FormShaped(InitialForm)
    ensures forall k :: k in TextInputs ==> Get(InitialForm, k) == Str("")
    ensures Get(InitialForm, "isAvailable") == Bool(true) && Get(InitialForm, "isFeatured") == Bool(false)
  {
    forall k | k in TextInputs ensures Get(InitialForm, k) == Str("") {
      assert k in InitialForm.props && InitialForm.props[k] == Str("");
    }
  }

  /** The form has exactly the properties the insert schema declares, in the
      same order. */
  lemma InitialFormKeys()
    ensures InitialForm.keys == Names(ArtworkShape)
  {
    ArtworkNames();
  }

  /** The submit gate: title, price and image URL must all be non-empty. */
  predicate MayCreate(form: Obj) {
    Truthy(Get(form, "title")) && Truthy(Get(form, "price")) && Truthy(Get(form, "imageUrl"))
  }

  /** `s ? parseInt(s) : undefined`, the mutation's coercion of an optional
      integer input. */
  function OptionalInteger(s: string): (v: JsValue)
    ensures s == "" ==> v.Undefined?
    ensures s != "" ==> v == ParseInt(s)
  {
    if s != "" then ParseInt(s) else Undefined
  }

  /** The object the mutation hands to `insertArtworkSchema.parse`, as
      written: the form spread with price through `parseFloat` and the three
      integer inputs coerced. */
  function MutationPayload(form: Obj): Obj
    requires FormShaped(form)
  {
    var withPrice := Put(form, "price", ParseFloat(Get(form, "price").s));
    var withWidth := Put(withPrice, "width", OptionalInteger(Get(form, "width").s));
    var withHeight := Put(withWidth, "height", OptionalInteger(Get(form, "height").s));
    Put(withHeight, "year", OptionalInteger(Get(form, "year").s))
  }

  /** The payload as written never passes the insert schema: the schema
      wants the price as a string, and `parseFloat` always yields a number. */
  lemma MutationPayloadRefused(form: Obj)
    requires FormShaped(form)
    ensures !InsertableBody(MutationPayload(form))
    ensures ParseInsert(MutationPayload(form)).Err?
  {
    InsertAccepts(MutationPayload(form));
  }

  /** `s ? parseInt(s) : null`: an empty integer input becomes null. */
  function NullableInteger(s: string): (v: JsValue)
    ensures s == "" ==> v.Null?
    ensures s != "" ==> v == ParseInt(s)
  {
    if s != "" then ParseInt(s) else Null
  }

  const IntegerInputs: seq<string> := ["width", "height", "year"]

  /** The payload with the price left as the string the schema declares and
      empty integer inputs sent as null. */
  function CorrectedPayload(form: Obj): Obj
    requires FormShaped(form)
  {
    var withWidth := Put(form, "width", NullableInteger(Get(form, "width").s));
    var withHeight := Put(withWidth, "height", NullableInteger(Get(form, "height").s));
    Put(withHeight, "year", NullableInteger(Get(form, "year").s))
  }

  /** An integer input is usable when it is empty or `parseInt` finds a
      number at its start. */
  predicate IntegerInput(form: Obj, k: string)
    requires FormShaped(form) && k in IntegerInputs
  {
    Get(form, k).s == "" || ParseInt(Get(form, k).s).Num?
  }

  /** The corrected payload passes the insert schema exactly when every
      integer input is usable. */
  lemma CorrectedPayloadAccepted(form: Obj)
    requires FormShaped(form)
    ensures ParseInsert(CorrectedPayload(form)).Ok? <==>
      IntegerInput(form, "width") && IntegerInput(form, "height") && IntegerInput(form, "year")
  {
    var payload := CorrectedPayload(form);
    assert Get(payload, "width") == NullableInteger(Get(form, "width").s);
    assert Get(payload, "height") == NullableInteger(Get(form, "height").s);
    assert Get(payload, "year") == NullableInteger(Get(form, "year").s);
    assert forall k :: k != "width" && k != "height" && k != "year" ==> Get(payload, k) == Get(form, k);
    InsertAccepts(payload);
  }

  /** A form filled in through the number inputs (digits only, or empty)
      passes. */
  lemma CorrectedPayloadOfDigits(form: Obj)
    requires FormShaped(form)
    requires forall k :: k in IntegerInputs ==> AllDigits(Get(form, k).s)
    ensures ParseInsert(CorrectedPayload(form)).Ok?
  {
    forall k | k in IntegerInputs ensures IntegerInput(form, k) {
      if Get(form, k).s != "" {
        ParseIntOfNumeral(Get(form, k).s, []);
        assert Get(form, k).s + [] == Get(form, k).s;
      }
    }
    CorrectedPayloadAccepted(form);
  }

  const ValidationToast :=
    Feedback.Toast("Validation Error", "Title, price, and image URL are required fields.", true)

  const CreatedToast := Feedback.Toast("Success", "Artwork added successfully!", false)

  const CreateFailure := "Failed to add artwork. Please try again."

  /** The server's answer to the POST, which the model does not compute. */
  datatype PostOutcome = Created | Unauthorized | Failed

  /** What a submit came to. */
  datatype Submission = Blocked | Refused | Posted(body: Obj)

  class AddArtworkDialog {
    var formData: Obj
    var open: bool
    var toasts: seq<Feedback.Toast>
    var redirect: Option<string>

    ghost predicate Valid()
      reads this
    {
      FormShaped(formData)
    }

    constructor (isOpen: bool)
      ensures formData == InitialForm && open == isOpen
      ensures toasts == [] && redirect == None
      ensures Valid()
    {
      formData := InitialForm;
      open := isOpen;
      toasts := [];
      redirect := None;
      InitialFormShape();
    }

    /** `handleChange(field, value)`: the named field takes the value (a new
        field is appended), every other field is kept. */
    method HandleChange(field: string, value: JsValue)
      modifies this
      ensures formData == Put(old(formData), field, value)
      ensures forall k :: k != field ==> Get(formData, k) == Get(old(formData), k)
      ensures Get(formData, field) == value
      ensures open == old(open) && toasts == old(toasts) && redirect == old(redirect)
      ensures old(Valid()) && (field in TextInputs ==> value.Str?) && (field in Switches ==> value.Bool?) ==> Valid()
    {
      formData := Put(formData, field, value);
    }

    /** `resetForm()`: the form is as the dialog first opened. */
    method ResetForm()
      modifies this
      ensures formData == InitialForm
      ensures open == old(open) && toasts == old(toasts) && redirect == old(redirect)
      ensures Valid()
    {
      formData := InitialForm;
      InitialFormShape();
    }

    /** The mutation's `onSuccess`: a success toast, the dialog closed and
        the form reset. */
    method OnSuccess()
      modifies this
      ensures toasts == old(toasts) + [CreatedToast]
      ensures !open && formData == InitialForm && redirect == old(redirect)
      ensures Valid()
    {
      toasts := toasts + [CreatedToast];
      open := false;
      ResetForm();
    }

    /** The mutation's `onError`: a failure toast, and for a lost session a
        redirect to the login route; the form is kept. */
    method OnError(unauthorized: bool)
      modifies this
      ensures toasts == old(toasts) + [Feedback.FailureFeedback(unauthorized, CreateFailure).0]
      ensures unauthorized ==> redirect == Some(Feedback.LoginPath)
      ensures !unauthorized ==> redirect == old(redirect)
      ensures formData == old(formData) && open == old(open)
    {
      var (toast, target) := Feedback.FailureFeedback(unauthorized, CreateFailure);
      toasts := toasts + [toast];
      if target.Some? {
        redirect := target;
      }
    }

    /** `handleSubmit`: an incomplete form only raises the validation toast;
        a complete one runs the create mutation, which validates the
        (corrected) payload and posts what the schema returns. */
    method HandleSubmit(outcome: PostOutcome) returns (s: Submission)
      requires Valid()
      modifies this
      ensures s.Blocked? <==> !MayCreate(old(formData))
      ensures s.Blocked? ==>
        && toasts == old(toasts) + [ValidationToast] && formData == old(formData)
        && open == old(open) && redirect == old(redirect)
      ensures s.Refused? <==> MayCreate(old(formData)) && ParseInsert(CorrectedPayload(old(formData))).Err?
      ensures s.Posted? ==> s.body == ParseInsert(CorrectedPayload(old(formData))).value
      ensures s.Posted? && outcome == Created ==>
        toasts == old(toasts) + [CreatedToast] && !open && formData == InitialForm
      ensures s.Refused? || (s.Posted? && outcome != Created) ==>
        && toasts == old(toasts) + [Feedback.FailureFeedback(s.Posted? && outcome == Unauthorized, CreateFailure).0]
        && formData == old(formData) && open == old(open)
      ensures s.Posted? && outcome == Unauthorized ==> redirect == Some(Feedback.LoginPath)
      ensures !(s.Posted? && outcome == Unauthorized) ==> redirect == old(redirect)
      ensures Valid()
    {
      if !MayCreate(formData) {
        toasts := toasts + [ValidationToast];
        return Blocked;
      }
      var parsed := ParseInsert(CorrectedPayload(formData));
      if parsed.Err? {
        OnError(false);
        return Refused;
      }
      s := Posted(parsed.value);
      if outcome == Created {
        OnSuccess();
      } else {
        OnError(outcome == Unauthorized);
      }
    }
  }

  /** The form the dialog opens with never gets past the gate. */
  lemma InitialFormBlocked()
    ensures !MayCreate(InitialForm)
  {
  }

  /** With the gate passed, a form whose number inputs hold digits or
      nothing is posted, with the title, price and image URL as typed. */
  lemma CompleteFormPosted(form: Obj)
    requires FormShaped(form) && MayCreate(form)
    requires forall k :: k in IntegerInputs ==> AllDigits(Get(form, k).s)
    ensures ParseInsert(CorrectedPayload(form)).Ok?
    ensures var body := ParseInsert(CorrectedPayload(form)).value;
      && body.keys == Names(ArtworkShape)
      && Get(body, "title") == Get(form, "title") && Truthy(Get(body, "title"))
      && Get(body, "price") == Get(form, "price") && Truthy(Get(body, "price"))
      && Get(body, "imageUrl") == Get(form, "imageUrl") && Truthy(Get(body, "imageUrl"))
  {
    CorrectedPayloadOfDigits(form);
    PostedAsTyped(form, "title");
    PostedAsTyped(form, "price");
    PostedAsTyped(form, "imageUrl");
  }

  /** A posted body has the eleven declared properties and carries every
      text input other than the integers as the form holds it. */
  lemma PostedAsTyped(form: Obj, k: string)
    requires FormShaped(form) && ParseInsert(CorrectedPayload(form)).Ok?
    requires k in TextInputs && k !in IntegerInputs
    ensures var body := ParseInsert(CorrectedPayload(form)).value;
      body.keys == Names(ArtworkShape) && Get(body, k) == Get(form, k)
  {
    var payload := CorrectedPayload(form);
    assert Get(payload, k) == Get(form, k);
    ArtworkNames();
    InsertOutput(payload, k);
  }
}
