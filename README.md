# Lesson-plan generator: a verified model of its data layer

The program is a single-page editor for primary-school daily lesson plans. A
form collects the lesson details and ten teaching-activity notes. A live
preview renders the plan as a printable table. A button asks an external
generative model to fill the plan in, and the user's own values take
precedence over what comes back.

This project models the logic behind that page as Dafny and proves what it
promises:

- `types.dfy`: the record shapes. This covers the typed `LessonActivities`,
  `LessonPlan` and `GenerationParams`, and the partial shape in which the page
  actually holds a plan (every key may be missing, and the live update may add
  the form's textbook and image fields as keys the type does not declare).
- `gemini_service.dfy`: the generation client. It builds the activity notes,
  the prompt's conditional sections and the request parts, declares the
  response shape, checks for an empty reply, and applies the precedence rule.
- `app.dfy`: the page coordinator. It performs the live-update merge with its
  equality short-circuit and the debounce, and it runs generation with its
  loading and error flags. The initial plan is here too. The coordinator is a
  class whose methods are specified by pure transition functions.
- `lesson_plan_view.dfy`: the preview. It covers the emptiness test, the
  three-way row rule, the `N/A` and header fallbacks, the fixed section and
  row order, and the export file name.
- `lesson_form.dfy`: the form. It covers the parameter record and its
  handlers, the merge of the page's plan into the form, and the rich editor's
  sync rules. The rich editor is a class whose methods are specified by pure
  transition functions.
- `strings.dfy`, `dom.dfy`, `wrappers.dfy`: the JavaScript `trim`, `join` and
  `split` the code relies on, an abstract `textContent`, and `Option`/`Result`.

Timers and the asynchronous request become explicit events, as follows:

- `Schedule` is a live update arriving.
- `Fire` is the quiet period ending.
- `Submit` is the generate button being pressed.
- `Finish` is the reply arriving.

The identity of the plan object, which decides whether React re-renders, is
tracked by a `commits` counter. The counter increases only when a new plan
object is stored.

Where the documented behaviour and the code differ, the model follows the
code:

- A successful generation always replaces the plan. There is no equality
  check on that path.
- An external value that reaches a focused editor is dropped, not queued for
  the blur. `LessonForm.FocusedExternalWriteIsDropped` shows that the surface
  still does not show it after the blur.
- The failure banner is the code's own text, `AI Generation failed. Check
  textbook info or image clarity.`
- The reply is not validated against the declared schema. Any key or slot of
  it may be missing, and the designation may be any string.
- A chosen file is accepted whatever its type. Only the file picker's
  `accept` filter restricts it.

## Model

| member | source | states |
|---|---|---|
| Types.SlotsOf | types.ts:2-13 | The run-time view of a typed activities record holds every slot with the record's value; only the three optional slots can be missing |
| Types.OnlyOptionalSlotsMayBeMissing | types.ts:2-13 | A slot can be absent from a `LessonActivities` exactly when it is one of the three declared optional |
| Types.PlanOf | types.ts:15-30 | A partial plan with every key and every required slot is the view of the `LessonPlan` read back from it |
| Types.PartialOfIsComplete | types.ts:15-30 | The view of a full `LessonPlan` has every top-level key and every required slot |
| Types.CompleteIffLessonPlan | types.ts:15-30 | A partial plan is the view of some `LessonPlan` exactly when every top-level key and every required slot is present and it carries no undeclared key |
| Types.FieldIndex | types.ts:15-30 | Each top-level field sits at its own position in declaration order |
| GeminiService.SlotIndex | types.ts:2-13 | Each slot sits at its own position in declaration order |
| GeminiService.EntriesOver | services/geminiService.ts:9 | `Object.entries` yields no more entries than slots listed, only present slots with their own values, and, over a list naming no slot twice, no slot twice |
| GeminiService.EntriesOverMembers | services/geminiService.ts:9 | The entries are exactly the slots present in the activities object, each with its own value |
| GeminiService.EntriesOverAscending | services/geminiService.ts:9 | The entries follow the slots' declaration order |
| GeminiService.FilterBlank | services/geminiService.ts:10 | The filter keeps no more entries than it is given, and only ones whose value is non-empty after trimming |
| GeminiService.FilterBlankKeeps | services/geminiService.ts:10 | The filter keeps exactly the entries whose value is non-empty after trimming |
| GeminiService.FilterBlankAscending | services/geminiService.ts:10 | The filter keeps the relative order of what it keeps |
| GeminiService.NoteLines | services/geminiService.ts:11 | One `- key: value` line per kept entry, in the same order |
| GeminiService.NotesListFilledSlots | services/geminiService.ts:9-12 | The notes list exactly the slots with text, each with its own value, in declaration order |
| GeminiService.ActivityContext | services/geminiService.ts:9-12 | The notes are empty exactly when no entry is kept, and otherwise begin with the first kept entry's line |
| GeminiService.FilledEntriesEmptyIff | services/geminiService.ts:9-12 | A list holding exactly the slots with text is empty exactly when no slot has text |
| GeminiService.ActivityContextEmptyIff | services/geminiService.ts:9-12 | The notes are empty exactly when no slot has text after trimming |
| Strings.TrimEmptyIff | services/geminiService.ts:10 | `trim()` gives the empty string exactly when the string is whitespace only, and otherwise starts and ends with visible characters |
| GeminiService.Template | services/geminiService.ts:14-50 | The prompt opens with the lesson context and closes with the formatting and structure requirements. The textbook section appears exactly when the textbook text is non-empty, the notes section exactly when the notes are non-empty, and the image sentence exactly when an image is attached |
| GeminiService.ConcatInOrder | services/geminiService.ts:14-50 | Two runs of sections in their fixed order, the first ending below where the second starts, stay in order when joined |
| GeminiService.RunsInOrder | services/geminiService.ts:14-50 | The lesson context, at most one textbook, one notes and one image section, then the formatting rule and the structure, are in the fixed order |
| GeminiService.TemplateInOrder | services/geminiService.ts:14-50 | The prompt's sections come in the fixed order context, textbook, notes, image, formatting, structure, so none appears twice |
| GeminiService.PromptSections | services/geminiService.ts:14-50 | The only notes section the prompt can hold is the joined notes, and it holds it exactly when some entry is kept |
| GeminiService.NotesSectionIffSomeSlotHasText | services/geminiService.ts:26 | The notes section appears exactly when some activity slot has text |
| GeminiService.ImageData | services/geminiService.ts:57 | `split(',')[1]` is undefined exactly when the data URL has no comma |
| GeminiService.ImageDataAfterFirstComma | services/geminiService.ts:57 | For `header,payload` the data sent is the payload up to any further comma, and the whole payload when it has none |
| Strings.JoinSplit | services/geminiService.ts:57 | Splitting on a character and joining with it gives back the string |
| GeminiService.BuildParts | services/geminiService.ts:52-61 | The text part comes first. The image part is appended exactly when both the image data and its MIME type are given, and it carries the data after the first comma and the MIME type |
| GeminiService.ActivitiesSchema | services/geminiService.ts:84-99 | The activities object declares the ten slots as strings in declaration order, with seven required keys |
| GeminiService.SlotKeyInjective | types.ts:2-13 | Distinct slots have distinct property names |
| GeminiService.RequiredKeysMatchSlots | services/geminiService.ts:98 | The required keys are the names of the seven non-optional slots, in the listed order |
| GeminiService.RequiredKeysAreRequiredSlots | services/geminiService.ts:98 | A slot's key is required exactly when the record type declares the slot non-optional |
| GeminiService.RequiredKeysNameSlots | services/geminiService.ts:98 | Every required key is the name of a slot |
| GeminiService.ResponseSchema | services/geminiService.ts:68-101 | The thirteen top-level fields are declared as strings under their own property names, in declaration order, followed by the activities object; no key is required |
| GeminiService.BlankReplyIsMalformed | services/geminiService.ts:105-109 | A reply of whitespace alone passes the emptiness test, trims to nothing and fails as malformed, given that `JSON.parse` rejects the empty text |
| GeminiService.PickDesignation | services/geminiService.ts:116 | A designation is never empty, so the user's designation always wins |
| GeminiService.Precedence | services/geminiService.ts:111-124 | The five identity fields are the user's value when non-empty, else the generated one. The six lesson-detail fields are always the user's, even when empty. The prose fields and every slot come from the reply unchanged, and the result carries no undeclared key |
| GeminiService.GenerateLessonPlan | services/geminiService.ts:105-124 | A transport failure or a missing or empty reply text fails with no plan. A reply that parses succeeds. The result is the precedence merge of the parsed reply |
| GeminiService.PrecedenceExamples | services/geminiService.ts:113-123 | A user topic `Fruits` beats a generated `Vegetables`, an empty user topic yields `Vegetables`, and an empty user duration still beats a generated `45 minutes` |
| App.MergeSlots | App.tsx:64-67 | Slots present in the update overwrite, and absent slots keep their previous values |
| App.MergeExtra | App.tsx:61-63 | Undeclared keys present in the update overwrite, and absent ones keep their previous values |
| App.MergeUpdate | App.tsx:60-68 | Keys present in the update overwrite, absent keys keep their previous values, undeclared keys are merged the same way, and the activities are merged slot by slot |
| App.Reflects | App.tsx:69-71 | A plan reflects itself and any update that carries no key, declared or not |
| App.MergeUnchangedIffReflects | App.tsx:69-71 | The merge leaves the plan equal to the previous one exactly when every key and slot of the update already has that value |
| App.MergeIdempotent | App.tsx:60-72 | Applying the same update twice gives the same plan as applying it once |
| App.MergeReflectsUpdate | App.tsx:60-68 | After the merge every key and slot of the update has the update's value |
| App.InitialPlan | App.tsx:11-35 | The designation is `Assistant Teacher`, the grade `Class 3` and the duration `40 minutes`. Every other scalar and every slot is empty, and there are no prose fields and no undeclared keys |
| App.InitialCoord | App.tsx:9-11 | The page starts valid on the initial plan, not loading, with no error and no pending update |
| App.Schedule | App.tsx:54-59 | A live update replaces any pending update and touches nothing else |
| App.Fire | App.tsx:59-73 | The pending update is merged into the plan as it is at that moment. A new plan object is stored exactly when the merge changes the plan. With nothing pending nothing happens |
| App.Submit | App.tsx:39-41 | Loading starts and the error is cleared. While loading the disabled button ignores the submission |
| App.Finish | App.tsx:42-50 | On success the returned plan replaces the current one. On any failure the plan stays and the generic message is set. Either way loading ends |
| App.EventsPreserveValid | App.tsx:39-74 | Every event keeps "loading exactly while a request runs" and "an error only as the generic message, after loading" |
| App.ScheduleAllKeepsLast | App.tsx:54-59 | A burst of live updates leaves only the last one pending and changes nothing else |
| App.DebounceLastWins | App.tsx:54-74 | When the timer fires after a burst, only the last update is committed |
| App.ReflectedUpdateKeepsPlan | App.tsx:69-71 | An update the plan already reflects keeps the same plan object |
| App.GenerationRound | App.tsx:39-51 | A full round clears the error and sets loading. It ends not loading, with no error and the precedence merge as the plan exactly when generation succeeds, and otherwise with the plan untouched and the generic message |
| App.EmptyReplyKeepsPlan | App.tsx:42-47 | An empty reply leaves the plan as it was and shows the message |
| App.EchoRound | components/LessonForm.tsx:141-162 | The form takes the page's plan over. Only when that stores new parameters does the form push them as a live update, committed when the timer fires. The flags stay, and a commit happens exactly when the merge changes the plan |
| App.FormEchoOfFullPlan | App.tsx:108-113 | When the page's plan has every key and already carries each of the form's textbook and image keys, the exchange with the form commits nothing |
| App.GenerationEchoCommits | App.tsx:39-73 | A successful generation stores one new plan object. When the form's sync with it stores new parameters, the echo adds the textbook text the generated plan lacks and stores a second; otherwise the form pushes nothing |
| App.KeylessReplyCommitsOnce | App.tsx:39-73 | A reply parsing to an object without keys, for a form whose identity fields are filled in, leaves the form unchanged, so the round commits once and the plan still lacks its prose keys |
| App.PushedUpdateIsReflected | components/LessonForm.tsx:141-162 | Once the form has pushed new parameters, the plan holds every top-level key and each key the form carries, and the form already reflects it |
| App.FormExchangeSettles | App.tsx:108-113 | A second exchange between page and form after the first changes neither. When the first pushes an update, the plan then has every top-level key and every key the form carries |
| App.InitialPreview | App.tsx:11-35 | The initial preview shows both header fallbacks and marks both prose fields `[Empty]` |
| App.InitialTeacherRows | App.tsx:11-35 | The initial preview marks the teacher's name `[Empty]` and shows the default designation |
| App.InitialActivityRows | App.tsx:23-34 | The initial preview marks the seven required activities `[Empty]` and leaves out the three optional ones |
| App.PlaceholderMeansEmpty | components/LessonForm.tsx:53 | The editor's placeholder shows only for values the preview treats as empty. The converse fails, for instance for `<b></b>` |
| App.ChosenImageIsSent | components/LessonForm.tsx:175-190 | A chosen image reaches the request with both image fields set, and the data sent is the payload after the data URL's first comma |
| App.Coordinator.constructor | App.tsx:9-37 | A new coordinator holds the initial state, which is valid |
| App.Coordinator.LiveUpdate | App.tsx:54-59 | The new state is `Schedule` of the old, and validity is kept |
| App.Coordinator.TimerFired | App.tsx:59-73 | The new state is `Fire` of the old, and validity is kept |
| App.Coordinator.Generate | App.tsx:39-41 | The new state is `Submit` of the old, and validity is kept |
| App.Coordinator.Completed | App.tsx:42-50 | The new state is `Finish` of the old, and validity is kept |
| Dom.TextContent | components/LessonPlanView.tsx:37-39 | The text content is never longer than the markup it is taken from |
| Dom.MarkupOnlyHasNoText | components/LessonPlanView.tsx:37-39 | A fragment made only of tags has no text content |
| Dom.PlainTextIsItsOwnContent | components/LessonPlanView.tsx:37-39 | Text without `<` or `&` is its own text content |
| LessonPlanView.IsEmptyHtml | components/LessonPlanView.tsx:35-41 | A value is empty exactly when it is missing or its text content is whitespace only |
| LessonPlanView.IsEmptyHtmlCases | components/LessonPlanView.tsx:35-41 | Markup-only values are empty, and plain text with a visible character is not |
| LessonPlanView.RenderRow | components/LessonPlanView.tsx:43-62 | An optional empty row is left out. A required empty row shows `[Empty]`. A non-empty value shows itself under the row's label |
| LessonPlanView.DetailText | components/LessonPlanView.tsx:99-106 | A lesson detail shows its value when non-empty, and `N/A` otherwise, never a blank |
| LessonPlanView.Heading | components/LessonPlanView.tsx:77-78 | A header line shows its value or its fallback, never a blank |
| LessonPlanView.ActivityLabelInjective | components/LessonPlanView.tsx:117-126 | Distinct slots have distinct row labels |
| LessonPlanView.ActivityCells | components/LessonPlanView.tsx:117-126 | There are no more activity rows than slots listed, each for a listed slot, and, over a list naming no slot twice, at most one per slot |
| LessonPlanView.ActivityCellsMembers | components/LessonPlanView.tsx:117-126 | A slot has a row exactly when it is required or has text, and its cell follows the three-way rule |
| LessonPlanView.ActivityCellsAscending | components/LessonPlanView.tsx:117-126 | The activity rows follow the slots' order |
| LessonPlanView.ActivityRowsInOrder | components/LessonPlanView.tsx:116-126 | The activity section lists, in declaration order, every required slot and every optional slot with text |
| LessonPlanView.RequiredSlotsAlwaysShown | components/LessonPlanView.tsx:117-126 | Every required slot keeps its row, showing its value or `[Empty]`, so only optional slots can lose one |
| LessonPlanView.OptionalSlotCount | components/LessonPlanView.tsx:117-126 | Three of the ten activity rows are optional |
| LessonPlanView.ActivityCellCount | components/LessonPlanView.tsx:117-126 | Between seven and ten of the ten slots have a row |
| LessonPlanView.ActivityRows | components/LessonPlanView.tsx:116-126 | The activity section has between seven and ten rows, each a labelled field row |
| LessonPlanView.Render | components/LessonPlanView.tsx:73-128 | The school and address lines use their fallbacks. The four sections appear in their fixed order under their titles |
| LessonPlanView.TeacherRows | components/LessonPlanView.tsx:87-89 | The teacher's name and designation rows are never left out, and each shows its value or `[Empty]` |
| LessonPlanView.DesignRows | components/LessonPlanView.tsx:112-114 | The learning-outcomes and teaching-aids rows are never left out, and each shows its value or `[Empty]` |
| LessonPlanView.LessonDetails | components/LessonPlanView.tsx:92-110 | The details grid has six labelled values, none blank |
| LessonPlanView.FixedSections | components/LessonPlanView.tsx:87-114 | The first three sections have exactly their rows in order: name and designation, the details grid, outcomes and aids |
| LessonPlanView.DetailsNeverBlank | components/LessonPlanView.tsx:92-110 | The grid shows exactly the six lesson-detail fields, each under its label with its value when non-empty and `N/A` otherwise |
| LessonPlanView.ActivitySectionRows | components/LessonPlanView.tsx:116-126 | The activity section shows each activity cell under its slot's label, in order |
| LessonPlanView.TableSize | components/LessonPlanView.tsx:87-126 | The table, header rows included, has between sixteen and nineteen rows |
| LessonPlanView.PdfFileName | components/LessonPlanView.tsx:25 | The file name starts with `Lesson_Plan_` and ends with `.pdf` |
| LessonPlanView.PdfFileNameReadsBack | components/LessonPlanView.tsx:25 | The name part is the topic, or `Export` when the topic is empty |
| LessonForm.InitialParams | components/LessonForm.tsx:108-135 | The form starts with the page's defaults, an empty textbook text, empty prose fields and slots, and no image |
| LessonForm.SetField | components/LessonForm.tsx:164-166 | Only the named field changes; the activities and the image fields stay |
| LessonForm.SetSlot | components/LessonForm.tsx:171 | Only the named slot changes |
| LessonForm.SetActivity | components/LessonForm.tsx:168-173 | Only the named slot changes; every field and the image stay |
| LessonForm.SetFieldCommutes | components/LessonForm.tsx:164-166 | Edits of two different fields commute |
| LessonForm.SetFieldToSameValue | components/LessonForm.tsx:164-166 | Setting a field to the value it has changes nothing |
| LessonForm.FileChange | components/LessonForm.tsx:175-190 | With no file nothing changes. Otherwise the preview and both image fields take the file's data URL and type, and no other field changes |
| LessonForm.ToGenerationParams | components/LessonForm.tsx:192-195 | The submitted parameters carry every scalar field of the form unchanged, with its image, its textbook text and its activities |
| LessonForm.AsUpdate | components/LessonForm.tsx:159-162 | The live update carries every field and slot of the form, and its textbook text and image fields as undeclared keys |
| LessonForm.TakeSlot | components/LessonForm.tsx:148-151 | Incoming slots overwrite, and absent ones keep the form's values |
| LessonForm.MergeInitial | components/LessonForm.tsx:141-157 | Incoming keys overwrite and absent ones stay. Slots merge one by one. The plan's undeclared keys overwrite the textbook text and the image fields, which otherwise stay |
| LessonForm.SyncInitialData | components/LessonForm.tsx:141-157 | The form stores a new parameters object exactly when the merge changes it, and otherwise keeps the old one |
| LessonForm.SyncKeepsIffReflects | components/LessonForm.tsx:153 | The form keeps its parameters exactly when it already has every incoming key and slot |
| LessonForm.SyncIdempotent | components/LessonForm.tsx:141-157 | Syncing the same plan twice replaces nothing the second time |
| LessonForm.ShowsPlaceholder | components/LessonForm.tsx:53 | The placeholder shows only for fragments without any text content |
| LessonForm.Mount | components/LessonForm.tsx:18-32 | After mounting, the surface, the recorded value and the value prop agree, and the editor is unfocused |
| LessonForm.Rerender | components/LessonForm.tsx:23-32 | A new value is written and recorded exactly when it changed, differs from the surface and the surface is unfocused; otherwise the surface and the record stay |
| LessonForm.HandleInput | components/LessonForm.tsx:34-42 | `onChange` gets the surface's content exactly when it differs from the recorded value, which then becomes the content |
| LessonForm.Edit | components/LessonForm.tsx:44-50 | After an edit or a toolbar command the surface holds the new content, is focused and is recorded. A change is notified exactly when the content differs from the old record |
| LessonForm.Focus | components/LessonForm.tsx:27 | Focus changes only the focus flag |
| LessonForm.Blur | components/LessonForm.tsx:98 | Leaving the surface drops focus, keeps the content, and notifies exactly an unrecorded change |
| LessonForm.RepeatedInputIsSilent | components/LessonForm.tsx:34-42 | After any input the editor is in sync, and a second input event notifies nobody |
| LessonForm.EchoDoesNotRewrite | components/LessonForm.tsx:23-42 | An edit echoed back as the new value does not rewrite the surface |
| LessonForm.FocusedExternalWriteIsDropped | components/LessonForm.tsx:23-32 | A value arriving while focused is not written, not even after the blur, until a different value arrives |
| LessonForm.UnfocusedWriteIsShown | components/LessonForm.tsx:27-30 | A new value arriving while unfocused is shown and recorded, so when the surface reads it back unchanged the following input and blur notify nobody |
| LessonForm.RichEditor.constructor | components/LessonForm.tsx:18-19 | A new editor holds the mounted state |
| LessonForm.RichEditor.Render | components/LessonForm.tsx:23-32 | The new state is `Rerender` of the old |
| LessonForm.RichEditor.Input | components/LessonForm.tsx:34-42 | The new state and the notification are those of `HandleInput` |
| LessonForm.RichEditor.Edited | components/LessonForm.tsx:44-50 | The new state and the notification are those of `Edit` |
| LessonForm.RichEditor.FocusIn | components/LessonForm.tsx:27 | The new state is `Focus` of the old |
| LessonForm.RichEditor.FocusOut | components/LessonForm.tsx:98 | The new state and the notification are those of `Blur` |

## Left out

- The generator call, its SDK, the API key and the network. A reply is a `Reply` value given as a parameter, and `JSON.parse` is a parameter function that may fail.
- GeminiService.GenerateLessonPlan: nothing constrains the `parse` parameter, so the contract alone does not say that a whitespace-only reply fails. `GeminiService.BlankReplyIsMalformed` states it under the hypothesis that `JSON.parse` rejects the empty text. A reply that parses to something other than an object is not fully represented. A number gives what a parsed plan with every key missing gives: its spread adds nothing and its properties read as `undefined`. For `null` the source reads `generated.schoolName` (and likewise the school address, the teacher's name and the topic) whenever the user's value of that field is empty, throws, and the page shows the generic error. It succeeds only when all four are filled in. The model's `parse` does not see the parameters, so it cannot make the outcome depend on them, and a keyless parsed plan stands for `null` only in that last case. For a string or an array the spread adds character or element positions as keys, which the model does not represent.
- GeminiService.Template: the prompt's wording is not modelled, only its sections and the conditions under which they appear.
- App.Fire: the `JSON.stringify` comparison is modelled as structural equality of the plan. Key order cannot tell the two plans apart, because the merged object spreads the previous plan first and so keeps its key order (App.tsx:61-66); a key the update adds, declared or not, changes the text and the model alike. The model does not distinguish a plan without an `activities` object, as a reply may leave it, from one with an empty object, though their texts differ. That difference shows only when an update that carries no slot meets a plan without an `activities` object. Every update the form sends carries all ten slots.
- A key holding `undefined` is modelled as a missing key. Such a key arises when the user's value of an identity field is empty and the reply lacks that key (`"" || undefined`). The source's spreads then copy `undefined` over the previous value (App.tsx:61, components/LessonForm.tsx:145), while `Wrappers.Override` and `LessonForm.Take` keep the previous value for a missing key. So after such a generation the model's form keeps the value it had where the source's holds `undefined`. The preview treats `""` and `undefined` alike.
- Undeclared keys in a reply are not modelled: `Precedence` gives a plan with none, while the source's `...generated` spread keeps whatever else the parsed object holds. The undeclared keys the form adds (textbook text and image fields) are modelled as `Types.ExtraKeys`.
- Real timers and the 150 ms window are left out. Only the order of the `Schedule` and `Fire` events is modelled.
- Overlapping generations are not modelled, because the button is disabled while loading. `App.Submit` ignores a submission while loading.
- LessonPlanView.IsEmptyHtml: HTML parsing is abstracted to a tag-stripping `textContent` that decodes the four entities `&nbsp;`, `&amp;`, `&lt;` and `&gt;`. Comments, scripts and other entities are not modelled.
- LessonForm.Rerender: the editable surface is taken to read back exactly the fragment last written to it, so values are taken to be in the browser's serialised form already. A browser re-serialises `innerHTML` (`Q&A` reads back as `Q&amp;A`), and in the source the next input or blur after such a write reports the serialised text although nothing was typed. The model's editor reports nothing then.
- LessonForm.Edit: what `document.execCommand` does to the surface is not modelled. The new content is a parameter.
- The preview toggle, `window.print`, `html2pdf` and the rasterised file are left out. Only the file name is modelled.
- `FileReader` is not modelled. A chosen file arrives as its data URL and its type.
- The form's rendering, the image preview's display and the signature footer are presentation only.
