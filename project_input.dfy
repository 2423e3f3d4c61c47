/**
 * The input form (src/app.ts:98-127 and 311-386): the generic `validate`
 * helper, and the form that validates its three fields and hands a new
 * project to the store.
 */
module ProjectInputForm {
  import opened Wrappers
  import opened JsText
  import opened ProjectModel
  import opened ProjectStore

  /** `string | number` */
  datatype Value = Str(s: string) | Num(x: JsNumber)

  /** A value with its optional checks; a check that is `None` is not set. */
  datatype Validatable = Validatable(
    value: Value,
    required: bool,
    minLength: Option<int>,
    maxLength: Option<int>,
    min: Option<int>,
    max: Option<int>)

  /** `value.toString()` */
  function ValueText(v: Value): string {
    match v
    case Str(s) => s
    case Num(x) => NumberToString(x)
  }

  /** `x >= bound`; false for NaN. */
  predicate AtLeast(x: JsNumber, bound: int) {
    x.Int? && x.n >= bound
  }

  /** `x <= bound`; false for NaN. */
  predicate AtMost(x: JsNumber, bound: int) {
    x.Int? && x.n <= bound
  }

  /** `validate(input)`: a flag that starts true and that each set check may clear. */
  function Validate(input: Validatable): bool {
    var isValid := true;
    var afterRequired :=
      if input.required then isValid && |Trim(ValueText(input.value))| != 0 else isValid;
    var afterMinLength :=
      if input.minLength.Some? && input.value.Str?
      then afterRequired && |Trim(input.value.s)| >= input.minLength.value else afterRequired;
    var afterMaxLength :=
      if input.maxLength.Some? && input.value.Str?
      then afterMinLength && |Trim(input.value.s)| <= input.maxLength.value else afterMinLength;
    var afterMin :=
      if input.min.Some? && input.value.Num?
      then afterMaxLength && AtLeast(input.value.x, input.min.value) else afterMaxLength;
    var afterMax :=
      if input.max.Some? && input.value.Num?
      then afterMin && AtMost(input.value.x, input.max.value) else afterMin;
    afterMax
  }

  /** `required`: the text of the value is not blank. */
  predicate RequiredHolds(input: Validatable) {
    input.required ==> exists k | 0 <= k < |ValueText(input.value)| :: !IsWhiteSpace(ValueText(input.value)[k])
  }

  /** `minLength`/`maxLength`: checked on strings only, on the trimmed length, inclusively. */
  predicate LengthHolds(input: Validatable) {
    input.value.Str? ==>
      (input.minLength.Some? ==> |Trim(input.value.s)| >= input.minLength.value)
      && (input.maxLength.Some? ==> |Trim(input.value.s)| <= input.maxLength.value)
  }

  /** `min`/`max`: checked on numbers only, inclusively; NaN fails any set bound. */
  predicate RangeHolds(input: Validatable) {
    input.value.Num? ==>
      (input.min.Some? ==> input.value.x.Int? && input.value.x.n >= input.min.value)
      && (input.max.Some? ==> input.value.x.Int? && input.value.x.n <= input.max.value)
  }

  /** `validate` accepts exactly when every check that is set holds. */
  lemma ValidateIsConjunction(input: Validatable)
    ensures Validate(input) <==> RequiredHolds(input) && LengthHolds(input) && RangeHolds(input)
  {
  }

  /** With no check set, every value is valid. */
  lemma ValidateUnconstrained(v: Value)
    ensures Validate(Validatable(v, false, None, None, None, None))
  {
  }

  /** A number always passes `required`: its text is never blank. */
  lemma RequiredNumberHolds(x: JsNumber, minLength: Option<int>, maxLength: Option<int>)
    ensures Validate(Validatable(Num(x), true, minLength, maxLength, None, None))
  {
  }

  /** Setting a check can only turn a valid input invalid, never the reverse. */
  lemma ChecksOnlyReject(input: Validatable)
    ensures Validate(input) ==> Validate(input.(required := false))
    ensures Validate(input) ==> Validate(input.(minLength := None))
    ensures Validate(input) ==> Validate(input.(maxLength := None))
    ensures Validate(input) ==> Validate(input.(min := None))
    ensures Validate(input) ==> Validate(input.(max := None))
  {
  }

  /** The title check: required only, so the trimmed title must not be empty. */
  lemma TitleRule(title: string)
    ensures Validate(Validatable(Str(title), true, None, None, None, None)) <==> Trim(title) != []
  {
  }

  /** The description check: required with a minimum length of 5 on the trimmed text. */
  lemma DescriptionRule(description: string)
    ensures Validate(Validatable(Str(description), true, Some(5), None, None, None))
            <==> |Trim(description)| >= 5
  {
  }

  /** The people check: required, from 1 to 5; NaN fails. */
  lemma PeopleRule(people: JsNumber)
    ensures Validate(Validatable(Num(people), true, None, None, Some(1), Some(5)))
            <==> people.Int? && 1 <= people.n <= 5
  {
  }

  /** The title, description and number of people a submission carries. */
  datatype UserInput = UserInput(title: string, description: string, people: int)

  /** The form. Its three fields hold the texts of the three input elements. */
  class ProjectInput {
    var titleValue: string
    var descriptionValue: string
    var peopleValue: string

    constructor ()
      ensures titleValue == "" && descriptionValue == "" && peopleValue == ""
    {
      titleValue := "";
      descriptionValue := "";
      peopleValue := "";
    }

    /**
     * `gatherUserInput()`: the three values, the people count as a number,
     * exactly when the title is not blank, the trimmed description has at
     * least 5 characters and the count is a number from 1 to 5; otherwise
     * nothing.
     */
    function GatherUserInput(): (r: Option<UserInput>)
      reads this
      ensures r.Some? <==>
        Trim(titleValue) != [] && |Trim(descriptionValue)| >= 5
        && ToNumber(peopleValue).Int? && 1 <= ToNumber(peopleValue).n <= 5
      ensures r.Some? ==> r.value == UserInput(titleValue, descriptionValue, ToNumber(peopleValue).n)
    {
      var titleValidatable := Validatable(Str(titleValue), true, None, None, None, None);
      var descriptionValidatable := Validatable(Str(descriptionValue), true, Some(5), None, None, None);
      var peopleValidatable := Validatable(Num(ToNumber(peopleValue)), true, None, None, Some(1), Some(5));
      TitleRule(titleValue);
      DescriptionRule(descriptionValue);
      PeopleRule(ToNumber(peopleValue));
      if !Validate(titleValidatable) || !Validate(descriptionValidatable) || !Validate(peopleValidatable)
      then None
      else Some(UserInput(titleValue, descriptionValue, ToNumber(peopleValue).n))
    }

    /** Empties the three fields. */
    method ClearInputs()
      modifies this
      ensures titleValue == "" && descriptionValue == "" && peopleValue == ""
    {
      titleValue := "";
      descriptionValue := "";
      peopleValue := "";
    }

    /**
     * On valid input, adds the project (with the caller's id) and clears the
     * form; on invalid input, changes neither the store nor the form.
     */
    method SubmitHandler(id: string, store: ProjectState)
      modifies this, store`projects, store`log
      ensures old(GatherUserInput()).None? ==>
        titleValue == old(titleValue) && descriptionValue == old(descriptionValue)
        && peopleValue == old(peopleValue)
        && store.projects == old(store.projects) && store.log == old(store.log)
      ensures old(GatherUserInput()).Some? ==>
        var input := old(GatherUserInput()).value;
        store.projects == old(store.projects) + [Project(id, input.title, input.description, input.people, Active)]
        && store.log == old(store.log) + Round(|store.listeners|, store.projects)
        && titleValue == "" && descriptionValue == "" && peopleValue == ""
    {
      var userInput := GatherUserInput();
      if userInput.Some? {
        var UserInput(title, desc, people) := userInput.value;
        store.AddProject(id, title, desc, people);
        ClearInputs();
      }
    }
  }
}
