/** The data-entry form: its parameter record and the handlers that replace
    it, the merge of the page's current plan into it, and the rich editor
    that keeps an editable surface and its value in step. */
module LessonForm {
  import opened Wrappers
  import opened Types
  import opened GeminiService
  import Dom

  // ---------------------------------------------------------------------
  // The form's parameters

  /** `GenerationParams & { learningOutcomes: string; teachingAids: string }`. */
  datatype FormParams = FormParams(
    schoolName: string,
    schoolAddress: string,
    teacherName: string,
    teacherDesignation: Designation,
    topic: string,
    gradeLevel: string,
    unit: string,
    lessonNo: string,
    sessionNo: string,
    pageNo: string,
    duration: string,
    imageBase64: Option<string>,
    imageMimeType: Option<string>,
    textbookText: Option<string>,
    learningOutcomes: string,
    teachingAids: string,
    activities: LessonActivities)

  /** The fields `handleInputChange` is called with. */
  datatype FormField = PlanKey(f: PlanField) | TextbookText

  function FormValue(p: FormParams, k: FormField): Option<string> {
    match k
    case TextbookText => p.textbookText
    case PlanKey(f) =>
      match f
      case SchoolName => Some(p.schoolName)
      case SchoolAddress => Some(p.schoolAddress)
      case TeacherName => Some(p.teacherName)
      case TeacherDesignation => Some(p.teacherDesignation)
      case Topic => Some(p.topic)
      case GradeLevel => Some(p.gradeLevel)
      case Unit => Some(p.unit)
      case LessonNo => Some(p.lessonNo)
      case SessionNo => Some(p.sessionNo)
      case PageNo => Some(p.pageNo)
      case Duration => Some(p.duration)
      case LearningOutcomes => Some(p.learningOutcomes)
      case TeachingAids => Some(p.teachingAids)
  }

  /** The initial parameters: the same defaults as the page's initial plan,
      an empty textbook text and empty prose fields, and no image. */
  function InitialParams(): (p: FormParams)
    ensures p.teacherDesignation == "Assistant Teacher"
    ensures p.gradeLevel == "Class 3" && p.duration == "40 minutes"
    ensures p.imageBase64.None? && p.imageMimeType.None?
    ensures forall k :: (k != PlanKey(TeacherDesignation) && k != PlanKey(GradeLevel) &&
                         k != PlanKey(Duration)) ==> FormValue(p, k) == Some("")
    ensures forall s :: ActivityValue(p.activities, s) == Some("")
  {
    FormParams("", "", "", "Assistant Teacher", "", "Class 3", "", "", "", "",
               "40 minutes", None, None, Some(""), "", "",
               LessonActivities("", Some(""), Some(""), "", "", "", Some(""), "", "", ""))
  }

  /** The values a field can take: the designation selector offers only the
      two designations. */
  predicate Admissible(k: FormField, v: string) {
    k == PlanKey(TeacherDesignation) ==> IsDesignation(v)
  }

  /** `handleInputChange(field, value)`: `{...prev, [field]: value}`. */
  function SetField(p: FormParams, k: FormField, v: string): (r: FormParams)
    requires Admissible(k, v)
    ensures FormValue(r, k) == Some(v)
    ensures forall j :: j != k ==> FormValue(r, j) == FormValue(p, j)
    ensures r.activities == p.activities
    ensures r.imageBase64 == p.imageBase64 && r.imageMimeType == p.imageMimeType
  {
    match k
    case TextbookText => p.(textbookText := Some(v))
    case PlanKey(f) =>
      match f
      case SchoolName => p.(schoolName := v)
      case SchoolAddress => p.(schoolAddress := v)
      case TeacherName => p.(teacherName := v)
      case TeacherDesignation => p.(teacherDesignation := v)
      case Topic => p.(topic := v)
      case GradeLevel => p.(gradeLevel := v)
      case Unit => p.(unit := v)
      case LessonNo => p.(lessonNo := v)
      case SessionNo => p.(sessionNo := v)
      case PageNo => p.(pageNo := v)
      case Duration => p.(duration := v)
      case LearningOutcomes => p.(learningOutcomes := v)
      case TeachingAids => p.(teachingAids := v)
  }

  /** `{...activities, [slot]: value}`. */
  function SetSlot(a: LessonActivities, s: Slot, v: string): (r: LessonActivities)
    ensures ActivityValue(r, s) == Some(v)
    ensures forall t :: t != s ==> ActivityValue(r, t) == ActivityValue(a, t)
  {
    match s
    case Introduction => a.(introduction := v)
    case ReviewPriorKnowledge => a.(reviewPriorKnowledge := Some(v))
    case ReviewPreviousSession => a.(reviewPreviousSession := Some(v))
    case Presentation => a.(presentation := v)
    case Practice => a.(practice := v)
    case Assessment => a.(assessment := v)
    case Homework => a.(homework := Some(v))
    case Feedback => a.(feedback := v)
    case Summary => a.(summary := v)
    case Concluding => a.(concluding := v)
  }

  /** `handleActivityChange(slot, value)`: only that slot changes. */
  function SetActivity(p: FormParams, s: Slot, v: string): (r: FormParams)
    ensures ActivityValue(r.activities, s) == Some(v)
    ensures forall t :: t != s ==> ActivityValue(r.activities, t) == ActivityValue(p.activities, t)
    ensures forall k :: FormValue(r, k) == FormValue(p, k)
    ensures r.imageBase64 == p.imageBase64 && r.imageMimeType == p.imageMimeType
  {
    p.(activities := SetSlot(p.activities, s, v))
  }

  /** Two handler calls on different fields commute. */
  lemma SetFieldCommutes(p: FormParams, j: FormField, v: string, k: FormField, w: string)
    requires Admissible(j, v) && Admissible(k, w) && j != k
    ensures SetField(SetField(p, j, v), k, w) == SetField(SetField(p, k, w), j, v)
  {
    var x := SetField(SetField(p, j, v), k, w);
    var y := SetField(SetField(p, k, w), j, v);
    forall i ensures FormValue(x, i) == FormValue(y, i) {
    }
    FormExtensionality(x, y);
  }

  /** Setting a field back to the value it has leaves the parameters as
      they were. */
  lemma SetFieldToSameValue(p: FormParams, k: FormField, v: string)
    requires Admissible(k, v) && FormValue(p, k) == Some(v)
    ensures SetField(p, k, v) == p
  {
  }

  /** The parameters with the image preview shown beside the form. */
  datatype FormState = FormState(params: FormParams, imagePreview: Option<string>)

  /** A chosen file as the reader delivers it: its data URL and its type. */
  datatype ChosenFile = ChosenFile(dataUrl: string, mimeType: string)

  /** `handleFileChange`: with no file nothing changes; otherwise the
      preview and both image fields take the file's data URL and type. */
  function FileChange(st: FormState, file: Option<ChosenFile>): (r: FormState)
    ensures file.None? ==> r == st
    ensures file.Some? ==>
      && r.imagePreview == Some(file.value.dataUrl)
      && r.params.imageBase64 == Some(file.value.dataUrl)
      && r.params.imageMimeType == Some(file.value.mimeType)
    ensures forall k :: FormValue(r.params, k) == FormValue(st.params, k)
    ensures r.params.activities == st.params.activities
  {
    match file
    case None => st
    case Some(f) =>
      FormState(st.params.(imageBase64 := Some(f.dataUrl), imageMimeType := Some(f.mimeType)),
                Some(f.dataUrl))
  }

  /** The parameters sent on submit: every field of the form but the two
      prose fields, unchanged. */
  function ToGenerationParams(p: FormParams): (g: GenerationParams)
    ensures forall f :: IsIdentityField(f) || IsDetailField(f) ==> Some(UserValue(g, f)) == FormValue(p, PlanKey(f))
    ensures g.imageBase64 == p.imageBase64 && g.imageMimeType == p.imageMimeType
    ensures g.textbookText == p.textbookText && g.activities == p.activities
  {
    GenerationParams(p.schoolName, p.schoolAddress, p.teacherName, p.teacherDesignation,
                     p.topic, p.gradeLevel, p.unit, p.lessonNo, p.sessionNo, p.pageNo,
                     p.duration, p.imageBase64, p.imageMimeType, p.textbookText, p.activities)
  }

  /** The parameters as the live update the page receives: every field and
      slot, and the textbook text and image fields as undeclared keys. */
  function AsUpdate(p: FormParams): (u: PartialPlan)
    ensures forall f :: FieldValue(u, f) == FormValue(p, PlanKey(f))
    ensures forall s :: SlotValue(u.activities, s) == ActivityValue(p.activities, s)
    ensures u.extra.textbookText == FormValue(p, TextbookText)
    ensures u.extra.imageBase64 == p.imageBase64 && u.extra.imageMimeType == p.imageMimeType
  {
    PartialPlan(Some(p.schoolName), Some(p.schoolAddress), Some(p.teacherName),
                Some(p.teacherDesignation), Some(p.topic), Some(p.gradeLevel), Some(p.unit),
                Some(p.lessonNo), Some(p.sessionNo), Some(p.pageNo), Some(p.duration),
                Some(p.learningOutcomes), Some(p.teachingAids), SlotsOf(p.activities),
                ExtraKeys(p.textbookText, p.imageBase64, p.imageMimeType))
  }

  // ---------------------------------------------------------------------
  // Syncing the page's plan into the form

  /** One key of the incoming plan spread over the form's value, which is
      always present. */
  function Take(incoming: Option<string>, current: string): string {
    Override(incoming, Some(current)).value
  }

  /** One slot of the incoming activities spread over the form's slot; a
      required slot is a plain string in the form. */
  function TakeSlot(a: LessonActivities, d: ActivitySlots): (r: LessonActivities)
    ensures forall s :: SlotValue(d, s).Some? ==> ActivityValue(r, s) == SlotValue(d, s)
    ensures forall s :: SlotValue(d, s).None? ==> ActivityValue(r, s) == ActivityValue(a, s)
  {
    LessonActivities(
      Take(d.introduction, a.introduction),
      Override(d.reviewPriorKnowledge, a.reviewPriorKnowledge),
      Override(d.reviewPreviousSession, a.reviewPreviousSession),
      Take(d.presentation, a.presentation),
      Take(d.practice, a.practice),
      Take(d.assessment, a.assessment),
      Override(d.homework, a.homework),
      Take(d.feedback, a.feedback),
      Take(d.summary, a.summary),
      Take(d.concluding, a.concluding))
  }

  /** `{...prev, ...initialData, activities: {...prev.activities,
      ...(initialData.activities || {})}}`. The undeclared keys the plan
      picked up from an earlier live update are spread over the form's
      textbook text and image fields too. */
  function MergeInitial(p: FormParams, d: PartialPlan): (r: FormParams)
    ensures forall f :: FieldValue(d, f).Some? ==> FormValue(r, PlanKey(f)) == FieldValue(d, f)
    ensures forall f :: FieldValue(d, f).None? ==> FormValue(r, PlanKey(f)) == FormValue(p, PlanKey(f))
    ensures forall s :: SlotValue(d.activities, s).Some? ==> ActivityValue(r.activities, s) == SlotValue(d.activities, s)
    ensures forall s :: SlotValue(d.activities, s).None? ==> ActivityValue(r.activities, s) == ActivityValue(p.activities, s)
    ensures r.textbookText == Override(d.extra.textbookText, p.textbookText)
    ensures r.imageBase64 == Override(d.extra.imageBase64, p.imageBase64)
    ensures r.imageMimeType == Override(d.extra.imageMimeType, p.imageMimeType)
  {
    FormParams(
      Take(d.schoolName, p.schoolName), Take(d.schoolAddress, p.schoolAddress),
      Take(d.teacherName, p.teacherName),
      if d.teacherDesignation.Some? then d.teacherDesignation.value else p.teacherDesignation,
      Take(d.topic, p.topic), Take(d.gradeLevel, p.gradeLevel), Take(d.unit, p.unit),
      Take(d.lessonNo, p.lessonNo), Take(d.sessionNo, p.sessionNo), Take(d.pageNo, p.pageNo),
      Take(d.duration, p.duration), Override(d.extra.imageBase64, p.imageBase64),
      Override(d.extra.imageMimeType, p.imageMimeType), Override(d.extra.textbookText, p.textbookText),
      Take(d.learningOutcomes, p.learningOutcomes), Take(d.teachingAids, p.teachingAids),
      TakeSlot(p.activities, d.activities))
  }

  /** The outcome of the sync effect: the parameters, and whether a new
      parameters object was stored (which pushes a live update). */
  datatype Synced = Synced(params: FormParams, replaced: bool)

  /** The sync effect: when the merge changes nothing the previous
      parameters are kept. */
  function SyncInitialData(p: FormParams, d: PartialPlan): (r: Synced)
    ensures r.params == MergeInitial(p, d)
    ensures r.replaced <==> MergeInitial(p, d) != p
    ensures !r.replaced ==> r.params == p
  {
    var merged := MergeInitial(p, d);
    if merged == p then Synced(p, false) else Synced(merged, true)
  }

  /** Every key the incoming plan carries already has that value in the
      form. */
  predicate FormReflects(p: FormParams, d: PartialPlan) {
    && (forall f :: FieldValue(d, f).Some? ==> FormValue(p, PlanKey(f)) == FieldValue(d, f))
    && (forall s :: SlotValue(d.activities, s).Some? ==> ActivityValue(p.activities, s) == SlotValue(d.activities, s))
    && (d.extra.textbookText.Some? ==> p.textbookText == d.extra.textbookText)
    && (d.extra.imageBase64.Some? ==> p.imageBase64 == d.extra.imageBase64)
    && (d.extra.imageMimeType.Some? ==> p.imageMimeType == d.extra.imageMimeType)
  }

  /** Two parameter records agreeing on every field, slot and image field
      are the same record. */
  lemma FormExtensionality(p: FormParams, q: FormParams)
    requires forall k :: FormValue(p, k) == FormValue(q, k)
    requires forall s :: ActivityValue(p.activities, s) == ActivityValue(q.activities, s)
    requires p.imageBase64 == q.imageBase64 && p.imageMimeType == q.imageMimeType
    ensures p == q
  {
    assert p.schoolName == q.schoolName by { assert FormValue(p, PlanKey(SchoolName)) == FormValue(q, PlanKey(SchoolName)); }
    assert p.schoolAddress == q.schoolAddress by { assert FormValue(p, PlanKey(SchoolAddress)) == FormValue(q, PlanKey(SchoolAddress)); }
    assert p.teacherName == q.teacherName by { assert FormValue(p, PlanKey(TeacherName)) == FormValue(q, PlanKey(TeacherName)); }
    assert p.teacherDesignation == q.teacherDesignation by { assert FormValue(p, PlanKey(TeacherDesignation)) == FormValue(q, PlanKey(TeacherDesignation)); }
    assert p.topic == q.topic by { assert FormValue(p, PlanKey(Topic)) == FormValue(q, PlanKey(Topic)); }
    assert p.gradeLevel == q.gradeLevel by { assert FormValue(p, PlanKey(GradeLevel)) == FormValue(q, PlanKey(GradeLevel)); }
    assert p.unit == q.unit by { assert FormValue(p, PlanKey(Unit)) == FormValue(q, PlanKey(Unit)); }
    assert p.lessonNo == q.lessonNo by { assert FormValue(p, PlanKey(LessonNo)) == FormValue(q, PlanKey(LessonNo)); }
    assert p.sessionNo == q.sessionNo by { assert FormValue(p, PlanKey(SessionNo)) == FormValue(q, PlanKey(SessionNo)); }
    assert p.pageNo == q.pageNo by { assert FormValue(p, PlanKey(PageNo)) == FormValue(q, PlanKey(PageNo)); }
    assert p.duration == q.duration by { assert FormValue(p, PlanKey(Duration)) == FormValue(q, PlanKey(Duration)); }
    assert p.learningOutcomes == q.learningOutcomes by { assert FormValue(p, PlanKey(LearningOutcomes)) == FormValue(q, PlanKey(LearningOutcomes)); }
    assert p.teachingAids == q.teachingAids by { assert FormValue(p, PlanKey(TeachingAids)) == FormValue(q, PlanKey(TeachingAids)); }
    assert p.textbookText == q.textbookText by { assert FormValue(p, TextbookText) == FormValue(q, TextbookText); }
    ActivitiesExtensionality(p.activities, q.activities);
  }

  /** The sync keeps the previous parameters exactly when the form already
      reflects the incoming plan. */
  lemma SyncKeepsIffReflects(p: FormParams, d: PartialPlan)
    ensures !SyncInitialData(p, d).replaced <==> FormReflects(p, d)
  {
    var m := MergeInitial(p, d);
    if FormReflects(p, d) {
      forall k ensures FormValue(m, k) == FormValue(p, k) {
        if k.PlanKey? {
          assert FieldValue(d, k.f).Some? ==> FormValue(p, k) == FieldValue(d, k.f);
        }
      }
      FormExtensionality(m, p);
    }
  }

  /** After the sync the form reflects the incoming plan, so syncing the
      same plan again keeps the parameters. */
  lemma SyncIdempotent(p: FormParams, d: PartialPlan)
    ensures FormReflects(SyncInitialData(p, d).params, d)
    ensures !SyncInitialData(SyncInitialData(p, d).params, d).replaced
  {
    SyncKeepsIffReflects(SyncInitialData(p, d).params, d);
  }

  // ---------------------------------------------------------------------
  // The rich editor

  /** `isEmpty`: the placeholder shows for an empty value and for the two
      fragments an emptied editable surface leaves behind, none of which
      holds any text. */
  function ShowsPlaceholder(value: string): (r: bool)
    ensures r ==> Dom.TextContent(value) == []
  {
    Dom.LineBreakHasNoText();
    Dom.WrappedLineBreakHasNoText();
    value == "" || value == "<br>" || value == "<div><br></div>"
  }

  /** The editor's state: the `value` it was last rendered with, the
      surface's `innerHTML`, `lastValueRef`, and whether it has focus. */
  datatype EditorState = EditorState(value: string, content: string, lastValue: string, focused: bool)

  /** A handler's outcome: the new state and the value passed to
      `onChange`, if it was called. */
  datatype Step = Step(state: EditorState, notified: Option<string>)

  /** The first render and its effect: the surface starts empty, the ref
      holds the value, and the effect then writes any non-empty value. */
  function Mount(value: string): (st: EditorState)
    ensures st.content == value && st.lastValue == value && st.value == value && !st.focused
  {
    var surface := "";
    if value != surface then EditorState(value, value, value, false)
    else EditorState(value, surface, value, false)
  }

  /** A render with a new `value`: the effect runs only when the value
      changed, and writes it (and records it) only when it differs from the
      surface and the surface is not focused. */
  function Rerender(st: EditorState, value: string): (r: EditorState)
    ensures r.value == value && r.focused == st.focused
    ensures r.content == st.content || (r.content == value && r.lastValue == value)
    ensures r.content != st.content ==> !st.focused && value != st.value
    ensures value != st.value && value != st.content && !st.focused ==> r.content == value && r.lastValue == value
    ensures value == st.value || value == st.content || st.focused ==> r.content == st.content && r.lastValue == st.lastValue
  {
    if value == st.value then st
    else if value != st.content && !st.focused then st.(value := value, content := value, lastValue := value)
    else st.(value := value)
  }

  /** `handleInput`: `onChange` is called with the surface's content
      exactly when it differs from the recorded value, which then becomes
      the content. */
  function HandleInput(st: EditorState): (r: Step)
    ensures r.notified.Some? <==> st.content != st.lastValue
    ensures r.notified.Some? ==> r.notified.value == st.content
    ensures r.state == st.(lastValue := st.content)
  {
    if st.content != st.lastValue then Step(st.(lastValue := st.content), Some(st.content))
    else Step(st, None)
  }

  /** An edit of the surface followed by the input event: the user typing
      into the focused surface, or a toolbar command, which rewrites the
      surface and gives it focus. `html` is the surface's new content. */
  function Edit(st: EditorState, html: string): (r: Step)
    ensures r.state.content == html && r.state.lastValue == html && r.state.focused
    ensures r.notified.Some? <==> html != st.lastValue
    ensures r.state.value == st.value
  {
    HandleInput(st.(content := html, focused := true))
  }

  function Focus(st: EditorState): (r: EditorState)
    ensures r == st.(focused := true)
  {
    st.(focused := true)
  }

  /** Leaving the surface: focus is lost and the input handler runs once
      more. */
  function Blur(st: EditorState): (r: Step)
    ensures !r.state.focused && r.state.content == st.content
    ensures r.notified.Some? <==> st.content != st.lastValue
  {
    HandleInput(st.(focused := false))
  }

  /** The recorded value is the surface's content whenever the editor is
      at rest. */
  predicate InSync(st: EditorState) {
    st.lastValue == st.content
  }

  /** After any input the editor is in sync, and running the handler again
      calls nobody. */
  lemma RepeatedInputIsSilent(st: EditorState)
    ensures InSync(HandleInput(st).state)
    ensures HandleInput(HandleInput(st).state).notified.None?
  {
  }

  /** The round trip of an edit: the form stores the notified value and
      re-renders the editor with it, and the effect does not write the
      surface again, so the cursor stays where it is. */
  lemma EchoDoesNotRewrite(st: EditorState, html: string)
    ensures var s := Edit(st, html);
      Rerender(s.state, html).content == html && InSync(Rerender(s.state, html))
  {
  }

  /** An external value that arrives while the surface has focus is not
      written, and it is not written after the blur either: the surface
      keeps the text it had until a different value arrives. */
  lemma FocusedExternalWriteIsDropped(st: EditorState, v: string)
    requires st.focused && InSync(st) && v != st.value && v != st.content
    ensures var s1 := Rerender(st, v);
      var s2 := Blur(s1).state;
      && s1.content == st.content && Blur(s1).notified.None?
      && s2.content == st.content && s2.content != v
      && Rerender(s2, v) == s2
  {
  }

  /** A value written while unfocused is shown and recorded, so, as long as
      the surface reads it back unchanged (a value already in the browser's
      serialised form), the blur and input handlers that follow call
      nobody. */
  lemma UnfocusedWriteIsShown(st: EditorState, v: string)
    requires !st.focused && v != st.value
    ensures var s := Rerender(st, v);
      s.content == v && (v != st.content ==> InSync(s))
  {
  }

  /** The editor as a component instance: its value prop, its surface and
      ref, and focus. */
  class RichEditor {
    var value: string
    var content: string
    var lastValue: string
    var focused: bool

    function State(): EditorState
      reads this
    {
      EditorState(value, content, lastValue, focused)
    }

    constructor(v: string)
      ensures State() == Mount(v)
    {
      var surface := "";
      var recorded := v;
      if v != surface {
        surface := v;
        recorded := v;
      }
      value := v;
      content := surface;
      lastValue := recorded;
      focused := false;
    }

    /** The `useEffect` on `[value]`. */
    method Render(v: string)
      modifies this
      ensures State() == Rerender(old(State()), v)
    {
      if v != value {
        value := v;
        if v != content && !focused {
          content := v;
          lastValue := v;
        }
      }
    }

    method Input() returns (notified: Option<string>)
      modifies this
      ensures Step(State(), notified) == HandleInput(old(State()))
    {
      notified := None;
      if content != lastValue {
        lastValue := content;
        notified := Some(content);
      }
    }

    /** An edit or a toolbar command, then the input event. */
    method Edited(html: string) returns (notified: Option<string>)
      modifies this
      ensures Step(State(), notified) == Edit(old(State()), html)
    {
      content := html;
      focused := true;
      notified := Input();
    }

    method FocusIn()
      modifies this
      ensures State() == Focus(old(State()))
    {
      focused := true;
    }

    method FocusOut() returns (notified: Option<string>)
      modifies this
      ensures Step(State(), notified) == Blur(old(State()))
    {
      focused := false;
      notified := Input();
    }
  }
}
