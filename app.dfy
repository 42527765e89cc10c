/** The page coordinator: it holds the current plan shown in the preview,
    commits the form's live updates after a quiet period, and runs a
    generation with loading and error flags beside it. Timers become explicit
    `Schedule` and `Fire` events; the asynchronous generation becomes a
    `Submit` event and a later `Finish` event carrying the reply. */
module App {
  import opened Wrappers
  import opened Strings
  import opened Types
  import opened GeminiService
  import opened LessonForm
  import opened LessonPlanView

  // ---------------------------------------------------------------------
  // The live-update merge

  /** Object spread of one run-time activities object over another. */
  function MergeSlots(prev: ActivitySlots, u: ActivitySlots): (r: ActivitySlots)
    ensures forall s :: SlotValue(u, s).Some? ==> SlotValue(r, s) == SlotValue(u, s)
    ensures forall s :: SlotValue(u, s).None? ==> SlotValue(r, s) == SlotValue(prev, s)
  {
    ActivitySlots(
      Override(u.introduction, prev.introduction),
      Override(u.reviewPriorKnowledge, prev.reviewPriorKnowledge),
      Override(u.reviewPreviousSession, prev.reviewPreviousSession),
      Override(u.presentation, prev.presentation),
      Override(u.practice, prev.practice),
      Override(u.assessment, prev.assessment),
      Override(u.homework, prev.homework),
      Override(u.feedback, prev.feedback),
      Override(u.summary, prev.summary),
      Override(u.concluding, prev.concluding))
  }

  /** The undeclared keys under the top-level spread: each key the update
      carries overwrites, the others keep their previous values. */
  function MergeExtra(prev: ExtraKeys, u: ExtraKeys): (r: ExtraKeys)
    ensures u.textbookText.Some? ==> r.textbookText == u.textbookText
    ensures u.textbookText.None? ==> r.textbookText == prev.textbookText
    ensures u.imageBase64.Some? ==> r.imageBase64 == u.imageBase64
    ensures u.imageBase64.None? ==> r.imageBase64 == prev.imageBase64
    ensures u.imageMimeType.Some? ==> r.imageMimeType == u.imageMimeType
    ensures u.imageMimeType.None? ==> r.imageMimeType == prev.imageMimeType
  {
    ExtraKeys(Override(u.textbookText, prev.textbookText),
              Override(u.imageBase64, prev.imageBase64),
              Override(u.imageMimeType, prev.imageMimeType))
  }

  /** Every undeclared key the update carries already has that value. */
  predicate ExtraReflects(prev: ExtraKeys, u: ExtraKeys) {
    && (u.textbookText.Some? ==> prev.textbookText == u.textbookText)
    && (u.imageBase64.Some? ==> prev.imageBase64 == u.imageBase64)
    && (u.imageMimeType.Some? ==> prev.imageMimeType == u.imageMimeType)
  }

  /** `{...prev, ...updatedPlan, activities: {...prev.activities,
      ...(updatedPlan.activities || {})}}`: keys present in the update
      overwrite, absent keys and absent slots keep their previous values. */
  function MergeUpdate(prev: PartialPlan, u: PartialPlan): (r: PartialPlan)
    ensures forall f :: FieldValue(u, f).Some? ==> FieldValue(r, f) == FieldValue(u, f)
    ensures forall f :: FieldValue(u, f).None? ==> FieldValue(r, f) == FieldValue(prev, f)
    ensures u.teacherDesignation.Some? ==> r.teacherDesignation == u.teacherDesignation
    ensures u.teacherDesignation.None? ==> r.teacherDesignation == prev.teacherDesignation
    ensures forall s :: SlotValue(u.activities, s).Some? ==> SlotValue(r.activities, s) == SlotValue(u.activities, s)
    ensures forall s :: SlotValue(u.activities, s).None? ==> SlotValue(r.activities, s) == SlotValue(prev.activities, s)
    ensures r.extra == MergeExtra(prev.extra, u.extra)
  {
    PartialPlan(
      Override(u.schoolName, prev.schoolName),
      Override(u.schoolAddress, prev.schoolAddress),
      Override(u.teacherName, prev.teacherName),
      Override(u.teacherDesignation, prev.teacherDesignation),
      Override(u.topic, prev.topic),
      Override(u.gradeLevel, prev.gradeLevel),
      Override(u.unit, prev.unit),
      Override(u.lessonNo, prev.lessonNo),
      Override(u.sessionNo, prev.sessionNo),
      Override(u.pageNo, prev.pageNo),
      Override(u.duration, prev.duration),
      Override(u.learningOutcomes, prev.learningOutcomes),
      Override(u.teachingAids, prev.teachingAids),
      MergeSlots(prev.activities, u.activities),
      MergeExtra(prev.extra, u.extra))
  }

  /** Every key the update carries already has that value in `prev`; in
      particular a plan reflects itself and an update that carries nothing. */
  function Reflects(prev: PartialPlan, u: PartialPlan): (r: bool)
    ensures u == prev ==> r
    ensures u.activities == NoSlots && u.extra == NoExtraKeys && (forall f :: FieldValue(u, f).None?) ==> r
  {
    && (forall f :: FieldValue(u, f).Some? ==> FieldValue(prev, f) == FieldValue(u, f))
    && (forall s :: SlotValue(u.activities, s).Some? ==> SlotValue(prev.activities, s) == SlotValue(u.activities, s))
    && ExtraReflects(prev.extra, u.extra)
  }

  /** Two plans agreeing on every field, every slot and every undeclared key
      are the same plan. */
  lemma PlanExtensionality(p: PartialPlan, q: PartialPlan)
    requires forall f :: FieldValue(p, f) == FieldValue(q, f)
    requires forall s :: SlotValue(p.activities, s) == SlotValue(q.activities, s)
    requires p.extra == q.extra
    ensures p == q
  {
    assert p.schoolName == q.schoolName by { assert FieldValue(p, SchoolName) == FieldValue(q, SchoolName); }
    assert p.schoolAddress == q.schoolAddress by { assert FieldValue(p, SchoolAddress) == FieldValue(q, SchoolAddress); }
    assert p.teacherName == q.teacherName by { assert FieldValue(p, TeacherName) == FieldValue(q, TeacherName); }
    assert p.teacherDesignation == q.teacherDesignation by { assert FieldValue(p, TeacherDesignation) == FieldValue(q, TeacherDesignation); }
    assert p.topic == q.topic by { assert FieldValue(p, Topic) == FieldValue(q, Topic); }
    assert p.gradeLevel == q.gradeLevel by { assert FieldValue(p, GradeLevel) == FieldValue(q, GradeLevel); }
    assert p.unit == q.unit by { assert FieldValue(p, Unit) == FieldValue(q, Unit); }
    assert p.lessonNo == q.lessonNo by { assert FieldValue(p, LessonNo) == FieldValue(q, LessonNo); }
    assert p.sessionNo == q.sessionNo by { assert FieldValue(p, SessionNo) == FieldValue(q, SessionNo); }
    assert p.pageNo == q.pageNo by { assert FieldValue(p, PageNo) == FieldValue(q, PageNo); }
    assert p.duration == q.duration by { assert FieldValue(p, Duration) == FieldValue(q, Duration); }
    assert p.learningOutcomes == q.learningOutcomes by { assert FieldValue(p, LearningOutcomes) == FieldValue(q, LearningOutcomes); }
    assert p.teachingAids == q.teachingAids by { assert FieldValue(p, TeachingAids) == FieldValue(q, TeachingAids); }
    SlotsExtensionality(p.activities, q.activities);
  }

  /** The merge leaves the plan as it was exactly when the plan already
      reflects the update; this is when the equality test keeps `prev`. */
  lemma MergeUnchangedIffReflects(prev: PartialPlan, u: PartialPlan)
    ensures MergeUpdate(prev, u) == prev <==> Reflects(prev, u)
  {
    var m := MergeUpdate(prev, u);
    if Reflects(prev, u) {
      forall f ensures FieldValue(m, f) == FieldValue(prev, f) {
      }
      forall s ensures SlotValue(m.activities, s) == SlotValue(prev.activities, s) {
      }
      PlanExtensionality(m, prev);
    }
  }

  /** Applying the same update twice is the same as applying it once. */
  lemma MergeIdempotent(prev: PartialPlan, u: PartialPlan)
    ensures MergeUpdate(MergeUpdate(prev, u), u) == MergeUpdate(prev, u)
  {
    var m := MergeUpdate(prev, u);
    assert Reflects(m, u);
    MergeUnchangedIffReflects(m, u);
  }

  /** After the merge the plan reflects the update. */
  lemma MergeReflectsUpdate(prev: PartialPlan, u: PartialPlan)
    ensures Reflects(MergeUpdate(prev, u), u)
  {
  }

  // ---------------------------------------------------------------------
  // The coordinator's state and its events

  /** The message shown after any failed generation. */
  const GenerationFailedMessage: string := "AI Generation failed. Check textbook info or image clarity."

  /** `currentPlan` with its identity (`commits` counts the times a new plan
      object was stored), the update captured by the pending timer,
      `isLoading`, `error`, and the parameters of the running generation. */
  datatype Coord = Coord(
    plan: PartialPlan,
    commits: nat,
    pending: Option<PartialPlan>,
    isLoading: bool,
    error: Option<string>,
    inFlight: Option<GenerationParams>)

  /** The loading flag marks exactly a running generation, and an error is
      only ever the generic message, shown once loading has ended. */
  predicate Valid(c: Coord) {
    && (c.isLoading <==> c.inFlight.Some?)
    && (c.error.Some? ==> c.error == Some(GenerationFailedMessage) && !c.isLoading)
  }

  /** The initial `currentPlan`: the three defaults, every other scalar and
      every slot empty, no prose fields and no undeclared keys. */
  function InitialPlan(): (r: PartialPlan)
    ensures r.teacherDesignation == Some("Assistant Teacher")
    ensures r.gradeLevel == Some("Class 3") && r.duration == Some("40 minutes")
    ensures r.learningOutcomes.None? && r.teachingAids.None?
    ensures forall f :: (f != TeacherDesignation && f != GradeLevel && f != Duration &&
                         f != LearningOutcomes && f != TeachingAids) ==> FieldValue(r, f) == Some("")
    ensures forall s :: SlotValue(r.activities, s) == Some("")
    ensures r.extra == NoExtraKeys
  {
    var e := Some("");
    PartialPlan(e, e, e, Some("Assistant Teacher"), e, Some("Class 3"), e, e, e, e,
                Some("40 minutes"), None, None,
                ActivitySlots(e, e, e, e, e, e, e, e, e, e), NoExtraKeys)
  }

  function InitialCoord(): (c: Coord)
    ensures Valid(c) && c.plan == InitialPlan() && c.pending.None? && !c.isLoading && c.error.None?
  {
    Coord(InitialPlan(), 0, None, false, None, None)
  }

  /** `handleLiveUpdate`: the pending timer, if any, is cleared and a new
      one captures the update; the plan is not touched yet. */
  function Schedule(c: Coord, u: PartialPlan): (r: Coord)
    ensures r.pending == Some(u)
    ensures r.plan == c.plan && r.commits == c.commits
    ensures r.isLoading == c.isLoading && r.error == c.error && r.inFlight == c.inFlight
  {
    c.(pending := Some(u))
  }

  /** The timer firing: the captured update is merged into the plan as it is
      now; when nothing changes the previous plan object is kept. */
  function Fire(c: Coord): (r: Coord)
    ensures r.pending.None?
    ensures c.pending.None? ==> r == c
    ensures c.pending.Some? ==> r.plan == MergeUpdate(c.plan, c.pending.value)
    ensures r.commits == c.commits + 1 <==> c.pending.Some? && MergeUpdate(c.plan, c.pending.value) != c.plan
    ensures r.commits == c.commits || r.commits == c.commits + 1
    ensures r.isLoading == c.isLoading && r.error == c.error && r.inFlight == c.inFlight
  {
    match c.pending
    case None => c
    case Some(u) =>
      var merged := MergeUpdate(c.plan, u);
      if merged == c.plan then c.(pending := None)
      else c.(plan := merged, commits := c.commits + 1, pending := None)
  }

  /** `handleGenerate` up to the request: loading starts and the error is
      cleared. The submit button is disabled while loading, so a second
      submission then does nothing. */
  function Submit(c: Coord, p: GenerationParams): (r: Coord)
    ensures c.isLoading ==> r == c
    ensures !c.isLoading ==> r.isLoading && r.error.None? && r.inFlight == Some(p)
    ensures r.plan == c.plan && r.commits == c.commits && r.pending == c.pending
  {
    if c.isLoading then c
    else c.(isLoading := true, error := None, inFlight := Some(p))
  }

  /** `handleGenerate` after the reply: on success the returned plan replaces
      the current one; on any failure the plan stays and the generic message
      is set; either way loading ends. */
  function Finish(c: Coord, reply: Reply, parse: string -> Option<GeneratedPlan>): (r: Coord)
    ensures c.inFlight.None? ==> r == c
    ensures c.inFlight.Some? ==> !r.isLoading && r.inFlight.None? && r.pending == c.pending
    ensures c.inFlight.Some? ==>
      match GenerateLessonPlan(c.inFlight.value, reply, parse)
      case Success(plan) => r.plan == plan && r.commits == c.commits + 1 && r.error == c.error
      case Failure(_) => r.plan == c.plan && r.commits == c.commits && r.error == Some(GenerationFailedMessage)
  {
    match c.inFlight
    case None => c
    case Some(p) =>
      match GenerateLessonPlan(p, reply, parse)
      case Success(plan) =>
        c.(plan := plan, commits := c.commits + 1, isLoading := false, inFlight := None)
      case Failure(_) =>
        c.(error := Some(GenerationFailedMessage), isLoading := false, inFlight := None)
  }

  // ---------------------------------------------------------------------
  // Properties of the event sequence

  /** Every event keeps the coordinator valid. */
  lemma EventsPreserveValid(c: Coord, u: PartialPlan, p: GenerationParams, reply: Reply,
                            parse: string -> Option<GeneratedPlan>)
    requires Valid(c)
    ensures Valid(Schedule(c, u)) && Valid(Fire(c)) && Valid(Submit(c, p))
    ensures Valid(Finish(c, reply, parse))
  {
    if c.inFlight.Some? {
      assert c.error.None?;
    }
  }

  /** Several live updates in a row, with no timer firing between them. */
  function ScheduleAll(c: Coord, us: seq<PartialPlan>): Coord
    decreases |us|
  {
    if us == [] then c else ScheduleAll(Schedule(c, us[0]), us[1..])
  }

  /** A burst of live updates changes nothing but the pending update, which
      is the last one of the burst. */
  lemma {:induction false} ScheduleAllKeepsLast(c: Coord, us: seq<PartialPlan>)
    requires |us| > 0
    ensures ScheduleAll(c, us) == c.(pending := Some(us[|us| - 1]))
    decreases |us|
  {
    if |us| > 1 {
      ScheduleAllKeepsLast(Schedule(c, us[0]), us[1..]);
    }
  }

  /** When the timer fires after a burst, only the last update of the burst
      is committed: the result is that of scheduling the last one alone. */
  lemma DebounceLastWins(c: Coord, us: seq<PartialPlan>)
    requires |us| > 0
    ensures Fire(ScheduleAll(c, us)) == Fire(Schedule(c, us[|us| - 1]))
    ensures Fire(ScheduleAll(c, us)).plan == MergeUpdate(c.plan, us[|us| - 1])
  {
    ScheduleAllKeepsLast(c, us);
  }

  /** A timer firing for an update the plan already reflects keeps the same
      plan object. */
  lemma ReflectedUpdateKeepsPlan(c: Coord, u: PartialPlan)
    requires Reflects(c.plan, u)
    ensures Fire(Schedule(c, u)).plan == c.plan
    ensures Fire(Schedule(c, u)).commits == c.commits
  {
    MergeUnchangedIffReflects(c.plan, u);
  }

  /** A full generation round: the error is cleared and loading is set at
      the start; at the end loading is over, and either the plan is the
      precedence merge of the reply or it is untouched and the generic
      message is shown. */
  lemma GenerationRound(c: Coord, p: GenerationParams, reply: Reply, parse: string -> Option<GeneratedPlan>)
    requires Valid(c) && !c.isLoading
    ensures var s := Submit(c, p);
      s.isLoading && s.error.None? && s.plan == c.plan
    ensures var r := Finish(Submit(c, p), reply, parse);
      && !r.isLoading && r.pending == c.pending
      && (r.error.None? <==> GenerateLessonPlan(p, reply, parse).Success?)
      && (r.error.None? ==> r.plan == Precedence(p, parse(Strings.Trim(reply.text.value)).value))
      && (r.error.Some? ==> r.plan == c.plan && r.commits == c.commits && r.error == Some(GenerationFailedMessage))
  {
  }

  /** An empty reply leaves the plan as it was and shows the message. */
  lemma EmptyReplyKeepsPlan(c: Coord, p: GenerationParams, parse: string -> Option<GeneratedPlan>)
    requires !c.isLoading
    ensures var r := Finish(Submit(c, p), Replied(Some("")), parse);
      r.plan == c.plan && r.error == Some(GenerationFailedMessage) && !r.isLoading
  {
  }

  // ---------------------------------------------------------------------
  // The page with the form and the preview

  /** Every key and every slot of the plan is present. */
  predicate Full(p: PartialPlan) {
    && (forall f :: FieldValue(p, f).Some?)
    && (forall s :: SlotValue(p.activities, s).Some?)
  }

  /** The plan already carries each undeclared key the form has, as it does
      once one live update from the form has been merged into it. */
  predicate CarriesFormKeys(p: PartialPlan, form: FormParams) {
    && (form.textbookText.Some? ==> p.extra.textbookText.Some?)
    && (form.imageBase64.Some? ==> p.extra.imageBase64.Some?)
    && (form.imageMimeType.Some? ==> p.extra.imageMimeType.Some?)
  }

  /** One exchange between the page and the form: the form takes the page's
      plan over, and only when that stores a new parameters object does its
      push effect fire, sending the parameters as a live update that the
      timer then commits. The form keeps its old object otherwise, so its
      push effect does not run. */
  function EchoRound(c: Coord, form: FormParams): (r: (Coord, FormParams))
    ensures r.1 == SyncInitialData(form, c.plan).params
    ensures !SyncInitialData(form, c.plan).replaced ==> r.0 == c
    ensures SyncInitialData(form, c.plan).replaced ==>
      && r.0.plan == MergeUpdate(c.plan, AsUpdate(r.1)) && r.0.pending.None?
      && (r.0.commits == c.commits + 1 <==> r.0.plan != c.plan)
      && (r.0.commits == c.commits <==> r.0.plan == c.plan)
    ensures r.0.isLoading == c.isLoading && r.0.error == c.error && r.0.inFlight == c.inFlight
  {
    var s := SyncInitialData(form, c.plan);
    if s.replaced then (Fire(Schedule(c, AsUpdate(s.params))), s.params) else (c, form)
  }

  /** When the page's plan has every key and already carries the form's
      undeclared keys, the exchange with the form commits nothing, whether
      or not the form pushes an update back. */
  lemma FormEchoOfFullPlan(c: Coord, form: FormParams)
    requires Full(c.plan) && CarriesFormKeys(c.plan, form)
    ensures EchoRound(c, form).0.plan == c.plan && EchoRound(c, form).0.commits == c.commits
  {
    var f2 := SyncInitialData(form, c.plan).params;
    var u := AsUpdate(f2);
    forall f ensures FieldValue(u, f).Some? ==> FieldValue(c.plan, f) == FieldValue(u, f) {
      assert FieldValue(c.plan, f).Some?;
    }
    forall s ensures SlotValue(u.activities, s).Some? ==> SlotValue(c.plan.activities, s) == SlotValue(u.activities, s) {
      assert SlotValue(c.plan.activities, s).Some?;
    }
    ReflectedUpdateKeepsPlan(c, u);
  }

  /** A generated plan carries no undeclared key. When the form's sync
      with it stores new parameters, the echo adds the form's textbook text
      to the plan and stores a second new plan object, so the round commits
      twice; otherwise the form pushes nothing and the round commits once. */
  lemma GenerationEchoCommits(c: Coord, reply: Reply, parse: string -> Option<GeneratedPlan>,
                              form: FormParams)
    requires c.inFlight.Some? && GenerateLessonPlan(c.inFlight.value, reply, parse).Success?
    requires form.textbookText.Some?
    ensures var c1 := Finish(c, reply, parse);
      var replaced := SyncInitialData(form, c1.plan).replaced;
      var c2 := EchoRound(c1, form).0;
      && c1.commits == c.commits + 1
      && c2.commits == c.commits + (if replaced then 2 else 1)
      && (replaced ==> c2.plan.extra.textbookText == form.textbookText)
  {
    var c1 := Finish(c, reply, parse);
    assert c1.plan.extra == NoExtraKeys;
    var s := SyncInitialData(form, c1.plan);
    if s.replaced {
      assert s.params.textbookText == form.textbookText;
      var merged := MergeUpdate(c1.plan, AsUpdate(s.params));
      assert merged.extra.textbookText != c1.plan.extra.textbookText;
    }
  }

  /** A reply that parses to an object without any key, for parameters
      taken from a form whose identity fields are all filled in, changes
      nothing in the form; so the form pushes nothing, the round commits
      once, and the page's plan stays without its prose keys. */
  lemma KeylessReplyCommitsOnce(c: Coord, reply: Reply, parse: string -> Option<GeneratedPlan>,
                                form: FormParams)
    requires c.inFlight == Some(ToGenerationParams(form))
    requires reply.Replied? && Truthy(reply.text)
    requires parse(Trim(reply.text.value)) ==
      Some(GeneratedPlan(None, None, None, None, None, None, None, None, None, None, None, None, None, None))
    requires forall f :: IsIdentityField(f) ==> UserValue(ToGenerationParams(form), f) != ""
    ensures var c1 := Finish(c, reply, parse);
      && !SyncInitialData(form, c1.plan).replaced
      && EchoRound(c1, form).0.commits == c.commits + 1
      && FieldValue(EchoRound(c1, form).0.plan, LearningOutcomes).None?
  {
    var c1 := Finish(c, reply, parse);
    var g := ToGenerationParams(form);
    forall f | FieldValue(c1.plan, f).Some? ensures FormValue(form, PlanKey(f)) == FieldValue(c1.plan, f) {
      assert IsIdentityField(f) || IsDetailField(f);
    }
    SyncKeepsIffReflects(form, c1.plan);
  }

  /** After the form pushes its new parameters, the plan holds every key
      the form sends, so the form already reflects it. */
  lemma PushedUpdateIsReflected(c: Coord, form: FormParams)
    requires SyncInitialData(form, c.plan).replaced
    ensures var r := EchoRound(c, form);
      && (forall f :: FieldValue(r.0.plan, f).Some?)
      && CarriesFormKeys(r.0.plan, r.1)
      && !SyncInitialData(r.1, r.0.plan).replaced
  {
    var f2 := SyncInitialData(form, c.plan).params;
    var c2 := EchoRound(c, form).0;
    assert c2.plan == MergeUpdate(c.plan, AsUpdate(f2));
    forall f ensures FieldValue(c2.plan, f) == FormValue(f2, PlanKey(f)) {
    }
    forall s ensures SlotValue(c2.plan.activities, s) == ActivityValue(f2.activities, s) {
    }
    SyncKeepsIffReflects(f2, c2.plan);
  }

  /** The exchange between the page and the form settles: whatever the plan,
      a second exchange after the first changes neither the page nor the
      form. When the first exchange pushes an update, the plan then has every
      top-level key and carries the form's undeclared keys. */
  lemma FormExchangeSettles(c: Coord, form: FormParams)
    ensures var r := EchoRound(c, form);
      && EchoRound(r.0, r.1) == r
      && (SyncInitialData(form, c.plan).replaced ==>
            (forall f :: FieldValue(r.0.plan, f).Some?) && CarriesFormKeys(r.0.plan, r.1))
  {
    if SyncInitialData(form, c.plan).replaced {
      PushedUpdateIsReflected(c, form);
    }
  }

  /** The preview of the initial plan: the two header fallbacks, and the
      prose fields marked `[Empty]`. */
  lemma InitialPreview(p: PartialPlan)
    requires p == InitialPlan()
    ensures var d := Render(p);
      && d.schoolLine == "Name of School" && d.addressLine == "School Address"
      && d.sections[2].rows == [FieldRow("Learning Outcomes", EmptyMarker), FieldRow("Teaching Aids", EmptyMarker)]
  {
    FixedSections(p);
  }

  /** In the initial preview the teacher's name is marked `[Empty]` and the
      default designation is shown. */
  lemma InitialTeacherRows(p: PartialPlan)
    requires p == InitialPlan()
    ensures var rows := Render(p).sections[0].rows;
      && |rows| == 2
      && rows[0] == FieldRow("Teacher\U{2019}s Name", EmptyMarker)
      && rows[1] == FieldRow("Designation", Shown("Assistant Teacher"))
  {
    DesignationShown(p.teacherDesignation.value);
    FixedSections(p);
  }

  /** The default designation passes the emptiness test. */
  lemma DesignationShown(d: string)
    requires d == "Assistant Teacher"
    ensures RequiredCell(Some(d)) == Shown(d)
  {
    assert !Strings.IsWhitespace(d[0]);
    assert '<' !in d && '&' !in d;
    IsEmptyHtmlCases(d);
  }

  /** In the initial preview the seven required activities are marked
      `[Empty]` and the three optional ones are left out. */
  lemma InitialActivityRows()
    ensures forall s, c :: (s, c) in ActivityCells(InitialPlan().activities, SlotOrder) <==>
      !IsOptionalSlot(s) && c == EmptyMarker
  {
    ActivityRowsInOrder(InitialPlan().activities);
  }

  /** The form's placeholder shows only for values the preview treats as
      empty; the converse fails, for instance for `<b></b>`. */
  lemma PlaceholderMeansEmpty(v: string)
    ensures ShowsPlaceholder(v) ==> IsEmptyHtml(Some(v))
    ensures IsEmptyHtml(Some("<b></b>")) && !ShowsPlaceholder("<b></b>")
  {
    Dom.LineBreakHasNoText();
    Dom.WrappedLineBreakHasNoText();
    Dom.EmptyBoldHasNoText();
  }

  /** A chosen image with a non-empty type reaches the request: both image
      fields are set, and the data sent is the payload after the data URL's
      first comma. */
  lemma ChosenImageIsSent(st: FormState, header: string, payload: string, mimeType: string)
    requires ',' !in header && mimeType != ""
    ensures var g := ToGenerationParams(FileChange(st, Some(ChosenFile(header + "," + payload, mimeType))).params);
      && Truthy(g.imageBase64) && Truthy(g.imageMimeType)
      && ImageData(g.imageBase64.value).Some?
      && (',' !in payload ==> ImageData(g.imageBase64.value) == Some(payload))
  {
    ImageDataAfterFirstComma(header, payload);
  }

  // ---------------------------------------------------------------------
  // The coordinator as the page holds it

  class Coordinator {
    var plan: PartialPlan
    var commits: nat
    var pending: Option<PartialPlan>
    var isLoading: bool
    var error: Option<string>
    var inFlight: Option<GenerationParams>

    function State(): Coord
      reads this
    {
      Coord(plan, commits, pending, isLoading, error, inFlight)
    }

    constructor()
      ensures State() == InitialCoord() && Valid(State())
    {
      plan := InitialPlan();
      commits := 0;
      pending := None;
      isLoading := false;
      error := None;
      inFlight := None;
    }

    method LiveUpdate(u: PartialPlan)
      requires Valid(State())
      modifies this
      ensures State() == Schedule(old(State()), u)
      ensures Valid(State())
    {
      pending := Some(u);
    }

    method TimerFired()
      requires Valid(State())
      modifies this
      ensures State() == Fire(old(State()))
      ensures Valid(State())
    {
      if pending.Some? {
        var merged := MergeUpdate(plan, pending.value);
        pending := None;
        if merged != plan {
          plan := merged;
          commits := commits + 1;
        }
      }
    }

    method Generate(p: GenerationParams)
      requires Valid(State())
      modifies this
      ensures State() == Submit(old(State()), p)
      ensures Valid(State())
    {
      if !isLoading {
        isLoading := true;
        error := None;
        inFlight := Some(p);
      }
    }

    method Completed(reply: Reply, parse: string -> Option<GeneratedPlan>)
      requires Valid(State())
      modifies this
      ensures State() == Finish(old(State()), reply, parse)
      ensures Valid(State())
    {
      if inFlight.Some? {
        var outcome := GenerateLessonPlan(inFlight.value, reply, parse);
        if outcome.Success? {
          plan := outcome.value;
          commits := commits + 1;
        } else {
          error := Some(GenerationFailedMessage);
        }
        isLoading := false;
        inFlight := None;
      }
    }
  }
}
