/** The contact form's controller: the field table with the current value of
    each bound input, the inline error display, and the submit button's state,
    updated by the input and submit handlers. The page itself (CSS classes,
    error nodes, the summary markup and the success popup) is outside the model;
    the error display is the map from a field to the message shown beside it. */
module ContactForm {
  import opened Text
  import opened Rules
  import opened PhoneFormat

  /** How the submit handler ends. */
  datatype SubmitOutcome =
    | Refused                        // the final check left the button disabled
    | Submitted(values: seq<string>) // the trimmed values, in field order
    | Crashed                        // a field has no bound input, so reading its value throws

  /** Every field of the table has a bound input. */
  predicate AllBound(inputs: map<string, string>) {
    forall i | 0 <= i < |FieldNames| :: FieldNames[i] in inputs
  }

  /** The record the submit handler builds: each field's trimmed value. */
  function Snapshot(inputs: map<string, string>): (values: seq<string>)
    requires AllBound(inputs)
    ensures |values| == |FieldNames|
    ensures forall i | 0 <= i < |FieldNames| :: values[i] == Trim(inputs[FieldNames[i]])
  {
    seq(|FieldNames|, i requires 0 <= i < |FieldNames| => Trim(inputs[FieldNames[i]]))
  }

  /** The submit handler after its final `updateSubmitState()`: it stops when
      there is a button and the button is disabled, and otherwise reads every
      field's value. Without a submit button the guard does not stop anything. */
  function SubmitResult(inputs: map<string, string>, hasSubmitButton: bool): (o: SubmitOutcome)
    ensures o.Refused? <==> hasSubmitButton && !AllValid(inputs)
    ensures o.Submitted? <==> (!hasSubmitButton || AllValid(inputs)) && AllBound(inputs)
    ensures o.Submitted? ==>
              |o.values| == |FieldNames| &&
              forall i | 0 <= i < |FieldNames| :: FieldNames[i] in inputs && o.values[i] == Trim(inputs[FieldNames[i]])
  {
    if hasSubmitButton && !AllValid(inputs) then Refused
    else if AllBound(inputs) then Submitted(Snapshot(inputs))
    else Crashed
  }

  /** With a submit button, what gets submitted is each field's trimmed value, in
      field order, and each of them passes its own field's rule. */
  lemma SubmittedValuesPass(inputs: map<string, string>)
    requires SubmitResult(inputs, true).Submitted?
    ensures var values := SubmitResult(inputs, true).values;
      |values| == |FieldNames| &&
      forall i | 0 <= i < |FieldNames| ::
        FieldNames[i] in inputs && values[i] == Trim(inputs[FieldNames[i]]) &&
        Trim(values[i]) == values[i] && Check(FieldNames[i], values[i]).None?
  {
  }

  /** Without a submit button the final check stops nothing: a form whose every
      field is blank is still read and submitted. */
  lemma SubmitWithoutButtonSkipsGuard(inputs: map<string, string>)
    requires AllBound(inputs)
    requires forall n | n in inputs :: inputs[n] == ""
    ensures !AllValid(inputs)
    ensures SubmitResult(inputs, false).Submitted?
  {
    assert !FieldValid(inputs, FieldNames[0]);
  }

  /** The error display after validating a field with `showErrors` set. */
  function Display(shown: map<string, Error>, name: string, r: Option<Error>): (shown': map<string, Error>)
    ensures (name in shown') == r.Some?
    ensures r.Some? ==> shown'[name] == r.value
    ensures shown' - {name} == shown - {name}
  {
    match r
    case Some(e) => shown[name := e]
    case None => shown - {name}
  }

  /** Every error on display is the current error of its field. */
  predicate DisplayConsistent(inputs: map<string, string>, shown: map<string, Error>)
    requires shown.Keys <= inputs.Keys
  {
    forall n | n in shown :: Check(n, inputs[n]) == Some(shown[n])
  }

  /** Storing a new value in one field and then showing that field's verdict
      keeps every displayed error current. */
  lemma DisplayStaysConsistent(inputs: map<string, string>, shown: map<string, Error>, name: string, value: string)
    requires shown.Keys <= inputs.Keys && name in inputs
    requires DisplayConsistent(inputs, shown)
    ensures var inputs' := inputs[name := value];
      var shown' := Display(shown, name, Check(name, value));
      shown'.Keys <= inputs'.Keys && DisplayConsistent(inputs', shown')
  {
  }

  class Form {
    /** The table of bound inputs: field name to current raw value. */
    var inputs: map<string, string>
    /** The error display: a field to the error shown beside it; no entry means
        the field shows no error. */
    var shown: map<string, Error>
    /** Whether the submit button is enabled. */
    var submitEnabled: bool
    const hasSubmitButton: bool

    ghost predicate Valid()
      reads this
    {
      (forall n | n in inputs :: n in FieldNames) &&
      shown.Keys <= inputs.Keys &&
      (submitEnabled ==> hasSubmitButton)
    }

    ghost predicate Displayed()
      reads this
      requires Valid()
    {
      DisplayConsistent(inputs, shown)
    }

    /** Page load: the inputs are bound, no error is shown and the button (if
        any) starts disabled. */
    constructor (initial: map<string, string>, hasButton: bool)
      requires forall n | n in initial :: n in FieldNames
      ensures Valid() && Displayed()
      ensures inputs == initial && shown == map[] && !submitEnabled && hasSubmitButton == hasButton
    {
      inputs := initial;
      shown := map[];
      submitEnabled := false;
      hasSubmitButton := hasButton;
    }

    /** `validateField(name, showErrors)`: the verdict never depends on
        `showErrors`, which only decides whether the display is updated. */
    method ValidateField(name: string, showErrors: bool) returns (ok: bool)
      requires Valid()
      modifies this`shown
      ensures Valid()
      ensures ok == FieldValid(inputs, name)
      ensures shown == if showErrors && name in inputs then Display(old(shown), name, Check(name, inputs[name])) else old(shown)
    {
      if name !in inputs {
        return true;
      }
      var error := Check(name, inputs[name]);
      if showErrors {
        shown := Display(shown, name, error);
      }
      ok := error.None?;
    }

    /** `updateSubmitState()`: silently validates every field and enables the
        button exactly when all of them pass. */
    method UpdateSubmitState()
      requires Valid()
      modifies this`shown, this`submitEnabled
      ensures Valid()
      ensures shown == old(shown)
      ensures hasSubmitButton ==> submitEnabled == AllValid(inputs)
      ensures !hasSubmitButton ==> !submitEnabled
    {
      var allValid := true;
      for i := 0 to |FieldNames|
        invariant Valid() && shown == old(shown) && submitEnabled == old(submitEnabled)
        invariant allValid <==> forall j | 0 <= j < i :: FieldValid(inputs, FieldNames[j])
      {
        var ok := ValidateField(FieldNames[i], false);
        if !ok {
          allValid := false;
        }
      }
      if hasSubmitButton {
        submitEnabled := allValid;
      }
    }

    /** `handlePhoneInput(e)`: the phone input's value, as the event carries it,
        is replaced by its formatted form. */
    method HandlePhoneInput(typed: string)
      requires Valid() && Telefonas in inputs
      modifies this`inputs
      ensures Valid()
      ensures inputs == old(inputs)[Telefonas := NormalizePhone(typed)]
    {
      inputs := inputs[Telefonas := NormalizePhone(typed)];
    }

    /** The two calls every input listener ends with: the field is validated
        with its error shown, then the button state is recomputed. The display
        stays current when it was current for the field's new verdict. */
    method ValidateAndRefresh(name: string)
      requires Valid() && name in inputs
      requires DisplayConsistent(inputs, Display(shown, name, Check(name, inputs[name])))
      modifies this`shown, this`submitEnabled
      ensures Valid() && Displayed()
      ensures shown == Display(old(shown), name, Check(name, inputs[name]))
      ensures submitEnabled == (hasSubmitButton && AllValid(inputs))
    {
      var _ := ValidateField(name, true);
      UpdateSubmitState();
    }

    /** The phone field's input listener, after the browser has stored what was
        typed: the value is formatted, then validated with its error shown, then
        the button state is recomputed. Formatting never changes whether the
        typed number is valid. */
    method OnPhoneInput(typed: string)
      requires Valid() && Displayed() && Telefonas in inputs
      modifies this`inputs, this`shown, this`submitEnabled
      ensures Valid() && Displayed()
      ensures inputs == old(inputs)[Telefonas := NormalizePhone(typed)]
      ensures FieldValid(inputs, Telefonas) == Check(Telefonas, typed).None?
      ensures shown == Display(old(shown), Telefonas, Check(Telefonas, inputs[Telefonas]))
      ensures submitEnabled == (hasSubmitButton && AllValid(inputs))
    {
      NormalizeKeepsValidity(typed);
      DisplayStaysConsistent(inputs, shown, Telefonas, NormalizePhone(typed));
      HandlePhoneInput(typed);
      ValidateAndRefresh(Telefonas);
    }

    /** The input listener of every other bound field: the typed value is
        validated with its error shown, then the button state is recomputed. */
    method OnFieldInput(name: string, typed: string)
      requires Valid() && Displayed() && name in inputs && name != Telefonas
      modifies this`inputs, this`shown, this`submitEnabled
      ensures Valid() && Displayed()
      ensures inputs == old(inputs)[name := typed]
      ensures FieldValid(inputs, name) == Check(name, typed).None?
      ensures shown == Display(old(shown), name, Check(name, typed))
      ensures submitEnabled == (hasSubmitButton && AllValid(inputs))
    {
      DisplayStaysConsistent(inputs, shown, name, typed);
      inputs := inputs[name := typed];
      ValidateAndRefresh(name);
    }

    /** An input event on a bound field goes to the listener registered for it:
        the phone listener for the phone field and the plain one for the rest. */
    method OnInput(name: string, typed: string)
      requires Valid() && Displayed() && name in inputs
      modifies this`inputs, this`shown, this`submitEnabled
      ensures Valid() && Displayed()
      ensures inputs == old(inputs)[name := if name == Telefonas then NormalizePhone(typed) else typed]
      ensures FieldValid(inputs, name) == Check(name, typed).None?
      ensures shown == Display(old(shown), name, Check(name, inputs[name]))
      ensures submitEnabled == (hasSubmitButton && AllValid(inputs))
    {
      if name == Telefonas {
        OnPhoneInput(typed);
      } else {
        OnFieldInput(name, typed);
      }
    }

    /** The submit handler: the final aggregate check, then the guard, then the
        record of trimmed values. */
    method Submit() returns (outcome: SubmitOutcome)
      requires Valid()
      modifies this`shown, this`submitEnabled
      ensures Valid() && shown == old(shown)
      ensures submitEnabled == (hasSubmitButton && AllValid(inputs))
      ensures outcome == SubmitResult(inputs, hasSubmitButton)
    {
      UpdateSubmitState();
      if hasSubmitButton && !submitEnabled {
        return Refused;
      }
      if forall i | 0 <= i < |FieldNames| :: FieldNames[i] in inputs {
        return Submitted(Snapshot(inputs));
      }
      return Crashed;
    }
  }
}
