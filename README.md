# Project tracker store and drag-and-drop lists, in Dafny

This project models the core of a small browser project tracker. A form
creates projects. Each project has an id, title, description, number of
people and a status that is either Active or Finished. An in-memory store
keeps the projects in insertion order and notifies registered listeners
after each change. Two lists, one bound to "active" and one to "finished",
each show the projects with their status. A project is moved from one list
to the other by dragging its item onto the other list.

Modules, one per source file or component:

- `ProjectModel` (`project.dfy`): the `ProjectStatus` enumeration and the `Project` record.
- `ProjectStore` (`project_state.dfy`): the store class `ProjectState`, the lazily created single instance (`InstanceSlot`), and the functions that specify a move and a notification round. Listener callbacks are not executed. Every call the store makes is appended to a ghost log as (listener position, snapshot). `ListView` in `ProjectListView` then says what a list shows once those calls are made.
- `ProjectListView` (`project_list.dfy`): the list component. It covers the status filter, the drop status, drag-over, drag-leave and drop, and re-rendering.
- `ProjectItemView` (`project_item.dfy`): the item component. It covers the people label, the item's texts and id, and drag start.
- `ProjectInputForm` (`project_input.dfy`): the generic `validate` helper and the form that gathers, validates, submits and clears.
- `DragDrop` (`drag_data.dfy`): the browser's drag data store (`dataTransfer`), reduced to what the handlers use.
- `JsText` (`js_text.dfy`): JavaScript's `trim`, the decimal text of an integer, and unary `+` on a text field.
- `Scenarios` (`scenarios.dfy`): client methods that drive the components through complete interactions. Their proofs use only the components' contracts.

The store, the list and item views, and the form are classes whose methods
update fields, as in the source. `src/app.ts` repeats the store
(35-93), the item (179-221) and the list (223-309). Each is modelled once.
The rows below cite the standalone files.

Three behaviours of the code that a reader might not expect:

- A drop does not clear the "droppable" flag; only drag-leave does.
- Ids are not checked for uniqueness. A move acts on the first project with the id. `UniqueIds` states the intended invariant, and the lemmas say when it holds.
- Listeners receive `projects.slice()`. That is a new array holding the same project objects, not an independent deep copy.

## Model

| member | source | states |
|---|---|---|
| `ProjectStore.ProjectState.constructor` | src/state/project-state.ts:5-20 | A new store has no projects, no listeners and has made no calls. |
| `ProjectStore.ProjectState.AddListener` | src/state/project-state.ts:8-10 | The callback is appended at the end of the listeners; earlier ones are unchanged and duplicates are kept (same code at src/app.ts:38-40). |
| `ProjectStore.ProjectState.AddProject` | src/state/project-state.ts:30-41 | The projects grow by exactly one at the end: an Active project with the given id, title, description and people, earlier projects unchanged; then exactly one notification round with the new projects (same code at src/app.ts:60-71). |
| `ProjectStore.ProjectState.MoveProject` | src/state/project-state.ts:43-52 | The new projects are `Moved(old projects, id, status)`; one notification round follows exactly when the move takes effect, otherwise the log is unchanged (same code at src/app.ts:73-82). |
| `ProjectStore.ProjectState.UpdateListeners` | src/state/project-state.ts:54-61 | The loop calls every listener once, in registration order, each with a copy of the current projects (same code at src/app.ts:84-91). |
| `ProjectStore.InstanceSlot.constructor` | src/state/project-state.ts:16 | Before the first access there is no instance. |
| `ProjectStore.InstanceSlot.GetInstance` | src/state/project-state.ts:22-28 | The first call creates an empty store; every later call returns that same store, and the slot holds what was returned (same code at src/app.ts:52-58). |
| `ProjectStore.FindIndex` | src/state/project-state.ts:46 | `find` by id: None exactly when no project has the id, otherwise the position of a project with the id before which none has it. |
| `ProjectStore.Moved` | src/state/project-state.ts:46-50 | Length, order and all identity fields are kept. An unknown id or an unchanged status leaves the projects as they are; otherwise only the first match's status becomes the new status and every other project is unchanged. |
| `ProjectStore.Round` | src/state/project-state.ts:54-61 | A round has one call per listener, the k-th call going to listener k with the same snapshot. |
| `ProjectStore.RoundDeliversSnapshot` | src/state/project-state.ts:54-61 | After a round, every listener it reached has the round's snapshot as its latest; the others keep their latest. |
| `ProjectStore.MoveNotifiesIffChanged` | src/state/project-state.ts:48-50 | A move notifies if and only if it changes the projects. |
| `ProjectStore.AddKeepsIdsUnique` | src/state/project-state.ts:30-39 | Appending a project whose id is new keeps ids unique. |
| `ProjectStore.UniqueIdsFindOnlyMatch` | src/state/project-state.ts:46 | With unique ids, the first match `find` returns is the only match. |
| `ProjectListView.DropStatus` | src/components/project-list.ts:41-46 | A drop asks for Active on the 'active' list and for Finished on the other list. |
| `ProjectListView.RelevantIffDropStatus` | src/components/project-list.ts:64-70 | The filter keeps exactly the projects whose status a drop on the same list sets. |
| `ProjectListView.Relevant` | src/components/project-list.ts:65-70 | The filter's result holds only matching projects, is a subsequence of the snapshot, and is as long as the number of matching projects. |
| `ProjectListView.RelevantIsUnique` | src/components/project-list.ts:65-70 | Any subsequence of the snapshot that holds only matching projects and all of them equals the filter's result, so the result is exactly the matching projects in original order. |
| `ProjectListView.RelevantSubsequenceBound` | src/components/project-list.ts:65-70 | No subsequence of matching projects is longer than the number of matching projects. |
| `ProjectListView.RelevantMembers` | src/components/project-list.ts:65-70 | A project is in the filter's result if and only if it is in the snapshot and matches. |
| `ProjectListView.ListViewAfterRound` | src/components/project-list.ts:64-73 | After a notification round that reaches a list's callback, the list's assigned projects are the matching part of the store's current projects. |
| `ProjectListView.ProjectList.constructor` | src/components/project-list.ts:16-22 | A new list has no assigned projects and no items, is not droppable, and has its callback appended to the store's listeners. |
| `ProjectListView.ProjectList.DragOverHandler` | src/components/project-list.ts:24-36 | The drag is accepted (default prevented, droppable set) if and only if there is drag data and its first type is "text/plain"; otherwise nothing changes. |
| `ProjectListView.ProjectList.DropHandler` | src/components/project-list.ts:37-51 | The store moves the project whose id is the "text/plain" data to the list's drop status, with the store's notification rule; the droppable flag is untouched. |
| `ProjectListView.ProjectList.DragLeaveHandler` | src/components/project-list.ts:52-57 | The droppable flag is cleared unconditionally. |
| `ProjectListView.ProjectList.OnProjects` | src/components/project-list.ts:64-73 | The callback sets the assigned projects to the filtered snapshot, then re-renders them. |
| `ProjectListView.ProjectList.RenderProjects` | src/components/project-list.ts:85-96 | The old items are discarded; there is one new item per assigned project, in the same order, each hosted by the list's `ul` and showing its project. |
| `ProjectItemView.PersonsSingularIffOne` | src/components/project-item.ts:11-16 | The label is "1 Person" if and only if the count is 1. |
| `ProjectItemView.PersonsPluralReadsBack` | src/components/project-item.ts:15 | For any other count, the label ends in " People"; the text before it is the canonical decimal spelling of the count (no leading zero, a minus sign exactly for negatives) and reads back as the count. |
| `ProjectItemView.ProjectItem.constructor` | src/components/project-item.ts:18-27 | The item's element id is the project's id; its texts are the title, the people label followed by " assigned", and the description (render at lines 44-48). |
| `ProjectItemView.ProjectItem.DragStartHandler` | src/components/project-item.ts:29-34 | The drag data's "text/plain" entry becomes the project's id and the allowed effect becomes "move". |
| `DragDrop.DataOf` | src/components/project-list.ts:39 | `getData` gives the data of the first entry with the format, or "" when no entry has it. |
| `DragDrop.DataTransfer.SetData` | src/components/project-item.ts:32 | After `setData`, the format reads back as the data and is the last type; every other format reads as before. |
| `JsText.Trim` | src/app.ts:112-118 | `trim` returns the slice of the string with only white space around it. It is empty exactly when the string is all white space. It neither starts nor ends with white space, and it leaves a string that does not start or end with white space unchanged. |
| `JsText.NatToString` | src/components/project-item.ts:15 | The text of a natural number is canonical decimal: digits only, with no leading zero except for "0" itself, which is printed exactly for 0. |
| `JsText.IntToString` | src/components/project-item.ts:15 | The text of an integer is canonical decimal, starts with a minus sign exactly when the integer is negative, and has no white space at either end. |
| `JsText.NatToStringOfDigitsValue` | src/components/project-item.ts:15 | Every canonical digit string is what the printer produces for its value. |
| `JsText.CanonicalIntReadsBackUniquely` | src/components/project-item.ts:15 | The only canonical integer text that reads back as a number is that number's printed text, so printing picks the unique canonical spelling. |
| `JsText.NumberToString` | src/app.ts:112 | The `toString()` of a number, NaN included, is never blank. |
| `JsText.ToNumberOfIntToString` | src/app.ts:348 | Unary `+` on the printed text of an integer gives that integer back. |
| `JsText.IntToStringInjective` | src/components/project-item.ts:15 | Different integers print differently. |
| `ProjectInputForm.ValidateIsConjunction` | src/app.ts:108-127 | `validate` is true if and only if every check that is set holds. Required means the text is not blank; the length checks apply to strings only, on the trimmed length, inclusive; the bounds apply to numbers only, inclusive, and NaN fails them. |
| `ProjectInputForm.ValidateUnconstrained` | src/app.ts:108-127 | With no check set, every value is valid. |
| `ProjectInputForm.ChecksOnlyReject` | src/app.ts:108-127 | Removing any one check never turns a valid input invalid, so each set check can only reject. |
| `ProjectInputForm.RequiredNumberHolds` | src/app.ts:111-113 | A number always passes `required`. |
| `ProjectInputForm.TitleRule` | src/app.ts:338-341 | The title passes exactly when its trimmed text is not empty. |
| `ProjectInputForm.DescriptionRule` | src/app.ts:342-346 | The description passes exactly when its trimmed length is at least 5. |
| `ProjectInputForm.PeopleRule` | src/app.ts:347-352 | The people value passes exactly when it is a number from 1 to 5. |
| `ProjectInputForm.ProjectInput.constructor` | src/app.ts:317-325 | The form starts with three empty fields. |
| `ProjectInputForm.ProjectInput.GatherUserInput` | src/app.ts:333-364 | The entered values come back, with the count converted to a number, if and only if the title is not blank, the trimmed description has at least 5 characters and the count is from 1 to 5; otherwise nothing comes back. |
| `ProjectInputForm.ProjectInput.ClearInputs` | src/app.ts:366-370 | All three fields become empty. |
| `ProjectInputForm.ProjectInput.SubmitHandler` | src/app.ts:372-382 | On valid input, the store gains the Active project, with one notification round, and the form is cleared. On invalid input, neither the store nor the form changes. |

## Left out

- Project identity: projects are values, so a move replaces the moved element of the store's sequence. In the source a move writes `status` on a shared object. Snapshots handed out earlier share that object and so see the new status; the model's snapshots do not.
- Listener callbacks: they are recorded in the ghost log, not run. A callback that registers another listener while a round is running is not modelled. `ListView` gives what a list holds once its calls are made.
- Id generation: `Math.random().toString()` is replaced by an id the caller supplies to `AddProject` and `SubmitHandler`.
- The global `projectState`: it is passed to the list constructor, `DropHandler` and `SubmitHandler` as a parameter.
- DOM plumbing: the `Component` base class, template cloning and attaching, event-listener wiring in `configure`, the list's header text (`toUpperCase`), the section element ids, and `preventDefault` in the form's submit handler. The "droppable" CSS class is a boolean field.
- The `autobind` decorator: it only rebinds `this`, which the model never needs.
- `alert` and `console.log`: these are side output only.
- `dragEndHandler`: it is a stub that only logs.
- Drag data store modes (protected mode during drag-over) and the `setData` format normalisation (lower-casing, "text" meaning "text/plain") are not modelled.
- ProjectInputForm.ProjectInput.GatherUserInput: the people field is converted by a `Number()` that knows only optionally signed decimal integers, and blank text becomes 0. Fractions, exponents, hexadecimal and "Infinity" read as NaN. So "2.5" is rejected here, while the source accepts it with 2.5 people.
- JsText.IntToString: it prints every integer in decimal. JavaScript switches to exponent notation from 1e21, and doubles lose integer precision beyond 2^53.
- JsText.Trim: lengths are counted in Unicode scalar values, not UTF-16 code units, so text outside the Basic Multilingual Plane is shorter here than in the source.
- Validation bounds: `minLength`, `maxLength`, `min` and `max` are integers, and `numberOfPeople` is an integer, not a floating-point number.
- `ProjectState` being constructible only through `getInstance` (a private constructor) is not enforced.
