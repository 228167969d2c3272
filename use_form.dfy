/** The `useForm` hook: field values, per-field error messages, the set of
    touched fields and the submitting flag, updated by the change, blur,
    submit and reset handlers.

    The pure functions give each handler's effect on the whole form state;
    the class `FormHook` keeps the state in fields and applies the handlers in
    place. `onSubmit` is recorded as the list of values it was called with;
    whether it throws changes nothing but a console message. */
module UseForm {
  import opened JsCore

  /** A field value: the text of an input, the `checked` flag of a checkbox,
      or an initial value of some other kind (told apart by a tag). */
  datatype FieldValue = Text(text: string) | Flag(flag: bool) | Other(tag: int)

  type Values = map<string, FieldValue>

  /** Error messages by field. A key may be present with the value
      `undefined` (None): `handleChange` clears errors that way. */
  type Errors = map<string, Option<string>>

  type Validator = Values -> Errors

  datatype Form = Form(values: Values, errors: Errors, touched: set<string>, isSubmitting: bool)

  /** The target of a change event: its name, value, type and `checked`. */
  datatype ChangeEvent = ChangeEvent(name: string, value: string, inputType: string, checked: bool)

  function InitialForm(initialValues: Values): (f: Form)
    ensures f.values == initialValues && f.errors == map[] && f.touched == {} && !f.isSubmitting
  {
    Form(initialValues, map[], {}, false)
  }

  /** `isValid`: the error object has no keys at all. */
  predicate IsValid(f: Form) {
    |f.errors| == 0
  }

  /** `errors[name]` is a non-empty message. */
  predicate HasError(errors: Errors, name: string) {
    name in errors && Truthy(errors[name])
  }

  /** The value a change event stores. */
  function ChangedValue(e: ChangeEvent): FieldValue {
    if e.inputType == "checkbox" then Flag(e.checked) else Text(e.value)
  }

  /** `handleChange`. */
  function Change(f: Form, e: ChangeEvent): (r: Form)
    ensures r.values.Keys == f.values.Keys + {e.name}
    ensures r.values[e.name] == ChangedValue(e)
    ensures forall k :: k in f.values && k != e.name ==> r.values[k] == f.values[k]
    ensures r.errors.Keys == f.errors.Keys
    ensures e.name in r.errors ==> !Truthy(r.errors[e.name])
    ensures forall k :: k in f.errors && k != e.name ==> r.errors[k] == f.errors[k]
    ensures r.touched == f.touched && r.isSubmitting == f.isSubmitting
  {
    var values := f.values[e.name := ChangedValue(e)];
    var errors := if HasError(f.errors, e.name) then f.errors[e.name := None] else f.errors;
    f.(values := values, errors := errors)
  }

  /** The message the validator reports for one field, if any. */
  function FieldError(validate: Option<Validator>, values: Values, name: string): Option<string> {
    if validate.None? then None
    else
      var all := validate.value(values);
      if name in all then all[name] else None
  }

  /** `handleBlur`. */
  function Blur(f: Form, name: string, validate: Option<Validator>): (r: Form)
    ensures r.touched == f.touched + {name}
    ensures r.values == f.values && r.isSubmitting == f.isSubmitting
    ensures Truthy(FieldError(validate, f.values, name)) ==>
      r.errors == f.errors[name := FieldError(validate, f.values, name)]
    ensures !Truthy(FieldError(validate, f.values, name)) ==> r.errors == f.errors
  {
    var fieldError := FieldError(validate, f.values, name);
    var errors := if Truthy(fieldError) then f.errors[name := fieldError] else f.errors;
    f.(touched := f.touched + {name}, errors := errors)
  }

  /** `validateForm`: no validator means no errors. */
  function ValidateForm(validate: Option<Validator>, values: Values): Errors {
    if validate.None? then map[] else validate.value(values)
  }

  /** `handleSubmit`: the form afterwards, and whether `onSubmit` was called. */
  function Submit(f: Form, validate: Option<Validator>): (r: (Form, bool))
    ensures r.0.touched == f.values.Keys
    ensures r.0.errors == ValidateForm(validate, f.values)
    ensures r.0.values == f.values
    ensures r.1 <==> |ValidateForm(validate, f.values)| == 0
    ensures r.0.isSubmitting == (if r.1 then false else f.isSubmitting)
  {
    var errors := ValidateForm(validate, f.values);
    var called := |errors| == 0;
    (Form(f.values, errors, f.values.Keys, if called then false else f.isSubmitting), called)
  }

  /** `resetForm`. */
  function Reset(f: Form, initialValues: Values): (r: Form)
    ensures r == InitialForm(initialValues)
  {
    Form(initialValues, map[], {}, false)
  }

  // ---------------------------------------------------------------------------
  // Properties

  /** Clearing an error on change keeps its key, so a form with errors stays
      invalid however its fields are edited, and a valid form stays valid. */
  lemma ChangeKeepsValidity(f: Form, e: ChangeEvent)
    ensures IsValid(Change(f, e)) <==> IsValid(f)
    ensures HasError(f.errors, e.name) ==> e.name in Change(f, e).errors && !IsValid(Change(f, e))
  {
    assert Change(f, e).errors.Keys == f.errors.Keys;
  }

  /** Blurring never removes an error, so it never makes the form valid, and
      it marks the field touched. */
  lemma BlurNeverClears(f: Form, name: string, validate: Option<Validator>)
    ensures var r := Blur(f, name, validate);
      && f.errors.Keys <= r.errors.Keys
      && (forall k :: k in f.errors && k != name ==> r.errors[k] == f.errors[k])
      && (IsValid(r) ==> IsValid(f))
      && name in r.touched
  {
    var r := Blur(f, name, validate);
    if IsValid(r) {
      assert f.errors.Keys <= r.errors.Keys;
      assert |f.errors.Keys| <= |r.errors.Keys| by {
        SubsetCardinality(f.errors.Keys, r.errors.Keys);
      }
    }
  }

  lemma SubsetCardinality<T>(a: set<T>, b: set<T>)
    requires a <= b
    ensures |a| <= |b|
  {
    assert b == a + (b - a);
  }

  /** After a submit the form is valid exactly when `onSubmit` was called, and
      then it is no longer submitting. */
  lemma SubmitValidIffCalled(f: Form, validate: Option<Validator>)
    ensures var (r, called) := Submit(f, validate);
      (IsValid(r) <==> called) && (called ==> !r.isSubmitting)
  {
  }

  /** Without a validator every submit calls `onSubmit` and leaves no
      errors. */
  lemma NoValidatorAlwaysSubmits(f: Form)
    ensures Submit(f, None).1 && Submit(f, None).0.errors == map[]
  {
  }

  /** Submitting twice without edits in between gives the same form and the
      same decision. */
  lemma SubmitIdempotent(f: Form, validate: Option<Validator>)
    ensures Submit(Submit(f, validate).0, validate) == Submit(f, validate)
  {
  }

  // ---------------------------------------------------------------------------
  // The hook's state, updated in place

  class FormHook {
    const initialValues: Values
    const validate: Option<Validator>
    var values: Values
    var errors: Errors
    var touched: set<string>
    var isSubmitting: bool
    /** The values `onSubmit` was called with, in call order. */
    var submissions: seq<Values>

    function View(): Form
      reads this
    {
      Form(values, errors, touched, isSubmitting)
    }

    constructor (initialValues: Values, validate: Option<Validator>)
      ensures View() == InitialForm(initialValues)
      ensures this.initialValues == initialValues && this.validate == validate
      ensures submissions == []
    {
      this.initialValues := initialValues;
      this.validate := validate;
      values, errors, touched, isSubmitting := initialValues, map[], {}, false;
      submissions := [];
    }

    method HandleChange(e: ChangeEvent)
      modifies this
      ensures View() == Change(old(View()), e)
      ensures submissions == old(submissions)
    {
      values := values[e.name := if e.inputType == "checkbox" then Flag(e.checked) else Text(e.value)];
      if e.name in errors && Truthy(errors[e.name]) {
        errors := errors[e.name := None];
      }
    }

    method HandleBlur(name: string)
      modifies this
      ensures View() == Blur(old(View()), name, validate)
      ensures submissions == old(submissions)
    {
      touched := touched + {name};
      if validate.Some? {
        var all := validate.value(values);
        if name in all && Truthy(all[name]) {
          errors := errors[name := all[name]];
        }
      }
    }

    /** The submit handler; `onSubmitThrows` says whether the awaited
        `onSubmit` throws, which is caught. */
    method HandleSubmit(onSubmitThrows: bool) returns (called: bool)
      modifies this
      ensures (View(), called) == Submit(old(View()), validate)
      ensures submissions == if called then old(submissions) + [old(values)] else old(submissions)
    {
      touched := values.Keys;
      var validateErrors := if validate.None? then map[] else validate.value(values);
      errors := validateErrors;
      called := |validateErrors| == 0;
      if called {
        isSubmitting := true;
        submissions := submissions + [values];
        // Whether or not `onSubmit` throws, the flag is cleared afterwards.
        isSubmitting := false;
      }
    }

    method ResetForm()
      modifies this
      ensures View() == Reset(old(View()), initialValues)
      ensures submissions == old(submissions)
    {
      values, errors, touched, isSubmitting := initialValues, map[], {}, false;
    }
  }
}
