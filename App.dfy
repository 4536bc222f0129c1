/**
 * The controller of the four-step quote form: which step is showing, the
 * messages shown next to the fields, and the answers typed so far. Steps 1-3
 * ask for personal details, vehicle details and cover; step 4 shows the
 * quote. Each event handler of the page is a method that updates the state
 * in place.
 */
module App {
  import opened Types
  import opened Utils

  const FirstStep := 1
  const SummaryStep := 4

  class QuoteForm {
    /** The step on screen, 1 to 4. */
    var currentStep: int
    /** The messages shown next to the fields. */
    var errors: Errors
    /** The answers typed so far. */
    var formData: FormData

    /** The step on screen is always one of the four steps. */
    ghost predicate Valid()
      reads this
    {
      FirstStep <= currentStep <= SummaryStep
    }

    /** A fresh form: step 1, no messages, every answer empty. */
    constructor()
      ensures Valid()
      ensures currentStep == FirstStep && errors == map[] && formData == EmptyForm
    {
      currentStep := FirstStep;
      errors := map[];
      formData := EmptyForm;
    }

    /** Typing into a field: stores the new answer for that field alone and,
        when the field shows a non-empty message, blanks that message. */
    method HandleInputChange(field: Field, value: string)
      requires Valid()
      modifies this
      ensures Valid()
      ensures formData.Get(field) == value
      ensures forall g :: g != field ==> formData.Get(g) == old(formData).Get(g)
      ensures errors ==
        if field in old(errors) && old(errors)[field] != "" then old(errors)[field := ""] else old(errors)
      ensures currentStep == old(currentStep)
    {
      formData := formData.With(field, value);
      if field in errors && errors[field] != "" {
        errors := errors[field := ""];
      }
    }

    /** "Next": validates the step on screen. If it fails, its messages
        replace the shown ones and the step stays; if it passes, steps 1-3
        move on by one and clear the messages, and on the summary nothing
        changes. */
    method NextStep()
      requires Valid()
      modifies this
      ensures Valid()
      ensures formData == old(formData)
      ensures old(StepErrors(currentStep, formData)) != map[] ==>
        errors == old(StepErrors(currentStep, formData)) && currentStep == old(currentStep)
        && forall f :: f in errors ==> f in StepFields(currentStep)
      ensures old(StepErrors(currentStep, formData)) == map[] && old(currentStep) < SummaryStep ==>
        currentStep == old(currentStep) + 1 && errors == map[]
      ensures old(currentStep) == SummaryStep ==> unchanged(this)
    {
      var stepErrors := ValidateStep(currentStep, formData);
      if |stepErrors| > 0 {
        StepErrorEntries(currentStep, formData);
        errors := stepErrors;
        return;
      }
      if currentStep < SummaryStep {
        currentStep := currentStep + 1;
        errors := map[];
      }
    }

    /** "Back": from steps 2-4 goes back one step and clears the messages;
        on step 1 nothing changes. */
    method PrevStep()
      requires Valid()
      modifies this
      ensures Valid()
      ensures old(currentStep) > FirstStep ==>
        currentStep == old(currentStep) - 1 && errors == map[] && formData == old(formData)
      ensures old(currentStep) == FirstStep ==> unchanged(this)
    {
      if currentStep > FirstStep {
        currentStep := currentStep - 1;
        errors := map[];
      }
    }

    /** "Reset", with the user's answer to the confirmation dialog: when
        confirmed, the form is as new; otherwise nothing changes. */
    method ResetForm(confirmed: bool)
      requires Valid()
      modifies this
      ensures Valid()
      ensures confirmed ==> currentStep == FirstStep && errors == map[] && formData == EmptyForm
      ensures !confirmed ==> unchanged(this)
    {
      if confirmed {
        formData := EmptyForm;
        currentStep := FirstStep;
        errors := map[];
      }
    }

    /** The premium shown for the current answers. */
    method QuoteAmount() returns (amount: string)
      ensures amount == QuoteText(formData)
    {
      amount := CalculateQuote(formData);
    }
  }
}
