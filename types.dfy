/** The record shapes of the lesson-plan editor: the typed records the program
    declares, and the partial shape (`Partial<LessonPlan>`) in which the
    coordinator, the preview and the generation result actually hold a plan. */
module Types {
  import opened Wrappers

  /** The two designations the teacher selector offers. */
  predicate IsDesignation(s: string) {
    s == "Assistant Teacher" || s == "Head Teacher"
  }

  /** The declared type `'Assistant Teacher' | 'Head Teacher'`. */
  type Designation = s: string | IsDesignation(s) witness "Assistant Teacher"

  /** The ten prose slots of the teaching-learning activities. */
  datatype Slot =
    | Introduction | ReviewPriorKnowledge | ReviewPreviousSession | Presentation
    | Practice | Assessment | Homework | Feedback | Summary | Concluding

  /** The slots in declaration order, which is also the key order of every
      activities object the program builds. */
  const SlotOrder: seq<Slot> := [
    Introduction, ReviewPriorKnowledge, ReviewPreviousSession, Presentation,
    Practice, Assessment, Homework, Feedback, Summary, Concluding
  ]

  /** A list of slots naming no slot twice. */
  predicate DistinctSlots(order: seq<Slot>) {
    forall i, j :: 0 <= i < j < |order| ==> order[i] != order[j]
  }

  /** Entries naming no key twice. */
  predicate DistinctKeys<K(==), V>(es: seq<(K, V)>) {
    forall i, j :: 0 <= i < j < |es| ==> es[i].0 != es[j].0
  }

  /** The property name of each slot. */
  function SlotKey(s: Slot): string {
    match s
    case Introduction => "introduction"
    case ReviewPriorKnowledge => "reviewPriorKnowledge"
    case ReviewPreviousSession => "reviewPreviousSession"
    case Presentation => "presentation"
    case Practice => "practice"
    case Assessment => "assessment"
    case Homework => "homework"
    case Feedback => "feedback"
    case Summary => "summary"
    case Concluding => "concluding"
  }

  /** The slots declared with `?:`. */
  predicate IsOptionalSlot(s: Slot) {
    s == ReviewPriorKnowledge || s == ReviewPreviousSession || s == Homework
  }

  /** `LessonActivities`: seven required slots and three optional ones. */
  datatype LessonActivities = LessonActivities(
    introduction: string,
    reviewPriorKnowledge: Option<string>,
    reviewPreviousSession: Option<string>,
    presentation: string,
    practice: string,
    assessment: string,
    homework: Option<string>,
    feedback: string,
    summary: string,
    concluding: string)

  /** Reads one slot of a typed activities record. */
  function ActivityValue(a: LessonActivities, s: Slot): Option<string> {
    match s
    case Introduction => Some(a.introduction)
    case ReviewPriorKnowledge => a.reviewPriorKnowledge
    case ReviewPreviousSession => a.reviewPreviousSession
    case Presentation => Some(a.presentation)
    case Practice => Some(a.practice)
    case Assessment => Some(a.assessment)
    case Homework => a.homework
    case Feedback => Some(a.feedback)
    case Summary => Some(a.summary)
    case Concluding => Some(a.concluding)
  }

  /** `LessonPlan`: eleven scalar fields, two prose fields and the activities;
      it has no image or textbook fields. */
  datatype LessonPlan = LessonPlan(
    schoolName: string,
    schoolAddress: string,
    teacherName: string,
    teacherDesignation: Designation,
    topic: string,
    gradeLevel: string,
    unit: string,
    lessonNo: string,
    sessionNo: string,
    pageNo: string,
    duration: string,
    learningOutcomes: string,
    teachingAids: string,
    activities: LessonActivities)

  /** `GenerationParams`: the same eleven scalar fields, three optional
      generation inputs and the activities, but no prose fields. */
  datatype GenerationParams = GenerationParams(
    schoolName: string,
    schoolAddress: string,
    teacherName: string,
    teacherDesignation: Designation,
    topic: string,
    gradeLevel: string,
    unit: string,
    lessonNo: string,
    sessionNo: string,
    pageNo: string,
    duration: string,
    imageBase64: Option<string>,
    imageMimeType: Option<string>,
    textbookText: Option<string>,
    activities: LessonActivities)

  /** An activities object as it is held at run time: any slot may be
      missing. A plan with no activities object has every slot missing. */
  datatype ActivitySlots = ActivitySlots(
    introduction: Option<string>,
    reviewPriorKnowledge: Option<string>,
    reviewPreviousSession: Option<string>,
    presentation: Option<string>,
    practice: Option<string>,
    assessment: Option<string>,
    homework: Option<string>,
    feedback: Option<string>,
    summary: Option<string>,
    concluding: Option<string>)

  const NoSlots: ActivitySlots :=
    ActivitySlots(None, None, None, None, None, None, None, None, None, None)

  /** Reads one slot of a run-time activities object. */
  function SlotValue(a: ActivitySlots, s: Slot): Option<string> {
    match s
    case Introduction => a.introduction
    case ReviewPriorKnowledge => a.reviewPriorKnowledge
    case ReviewPreviousSession => a.reviewPreviousSession
    case Presentation => a.presentation
    case Practice => a.practice
    case Assessment => a.assessment
    case Homework => a.homework
    case Feedback => a.feedback
    case Summary => a.summary
    case Concluding => a.concluding
  }

  /** A typed activities record viewed as a run-time object. */
  function SlotsOf(a: LessonActivities): (r: ActivitySlots)
    ensures forall s :: SlotValue(r, s) == ActivityValue(a, s)
  {
    ActivitySlots(Some(a.introduction), a.reviewPriorKnowledge, a.reviewPreviousSession,
                  Some(a.presentation), Some(a.practice), Some(a.assessment), a.homework,
                  Some(a.feedback), Some(a.summary), Some(a.concluding))
  }

  /** Keys a plan object can carry that `LessonPlan` does not declare: the
      form's textbook text and image fields, which the page's live-update
      spread copies into its plan. Nothing renders them, but they take part
      in the plan's `JSON.stringify` comparison. */
  datatype ExtraKeys = ExtraKeys(
    textbookText: Option<string>,
    imageBase64: Option<string>,
    imageMimeType: Option<string>)

  const NoExtraKeys: ExtraKeys := ExtraKeys(None, None, None)

  /** `Partial<LessonPlan>`: every top-level key may be missing, and the
      object may carry the undeclared keys in `extra`. */
  datatype PartialPlan = PartialPlan(
    schoolName: Option<string>,
    schoolAddress: Option<string>,
    teacherName: Option<string>,
    teacherDesignation: Option<Designation>,
    topic: Option<string>,
    gradeLevel: Option<string>,
    unit: Option<string>,
    lessonNo: Option<string>,
    sessionNo: Option<string>,
    pageNo: Option<string>,
    duration: Option<string>,
    learningOutcomes: Option<string>,
    teachingAids: Option<string>,
    activities: ActivitySlots,
    extra: ExtraKeys)

  /** The thirteen top-level string fields of a plan. */
  datatype PlanField =
    | SchoolName | SchoolAddress | TeacherName | TeacherDesignation | Topic
    | GradeLevel | Unit | LessonNo | SessionNo | PageNo | Duration
    | LearningOutcomes | TeachingAids

  /** The fields in declaration order, which is also the key order of the
      response the model is asked for. */
  const FieldOrder: seq<PlanField> := [
    SchoolName, SchoolAddress, TeacherName, TeacherDesignation, Topic,
    GradeLevel, Unit, LessonNo, SessionNo, PageNo, Duration,
    LearningOutcomes, TeachingAids
  ]

  /** The property name of each field. */
  function FieldKey(f: PlanField): string {
    match f
    case SchoolName => "schoolName"
    case SchoolAddress => "schoolAddress"
    case TeacherName => "teacherName"
    case TeacherDesignation => "teacherDesignation"
    case Topic => "topic"
    case GradeLevel => "gradeLevel"
    case Unit => "unit"
    case LessonNo => "lessonNo"
    case SessionNo => "sessionNo"
    case PageNo => "pageNo"
    case Duration => "duration"
    case LearningOutcomes => "learningOutcomes"
    case TeachingAids => "teachingAids"
  }

  /** The position of a field in `FieldOrder`. */
  function FieldIndex(f: PlanField): (i: nat)
    ensures i < |FieldOrder| && FieldOrder[i] == f
  {
    match f
    case SchoolName => 0
    case SchoolAddress => 1
    case TeacherName => 2
    case TeacherDesignation => 3
    case Topic => 4
    case GradeLevel => 5
    case Unit => 6
    case LessonNo => 7
    case SessionNo => 8
    case PageNo => 9
    case Duration => 10
    case LearningOutcomes => 11
    case TeachingAids => 12
  }

  lemma FieldIndexOfOrder(i: nat)
    requires i < |FieldOrder|
    ensures FieldIndex(FieldOrder[i]) == i
  {
  }

  /** Reads one top-level string field of a partial plan. */
  function FieldValue(p: PartialPlan, f: PlanField): Option<string> {
    match f
    case SchoolName => p.schoolName
    case SchoolAddress => p.schoolAddress
    case TeacherName => p.teacherName
    case TeacherDesignation => p.teacherDesignation
    case Topic => p.topic
    case GradeLevel => p.gradeLevel
    case Unit => p.unit
    case LessonNo => p.lessonNo
    case SessionNo => p.sessionNo
    case PageNo => p.pageNo
    case Duration => p.duration
    case LearningOutcomes => p.learningOutcomes
    case TeachingAids => p.teachingAids
  }

  /** A full `LessonPlan` is a partial plan with every key present. */
  function PartialOf(lp: LessonPlan): (r: PartialPlan)
    ensures forall f :: FieldValue(r, f).Some?
    ensures forall s :: SlotValue(r.activities, s) == ActivityValue(lp.activities, s)
    ensures r.extra == NoExtraKeys
  {
    PartialPlan(Some(lp.schoolName), Some(lp.schoolAddress), Some(lp.teacherName),
                Some(lp.teacherDesignation), Some(lp.topic), Some(lp.gradeLevel),
                Some(lp.unit), Some(lp.lessonNo), Some(lp.sessionNo), Some(lp.pageNo),
                Some(lp.duration), Some(lp.learningOutcomes), Some(lp.teachingAids),
                SlotsOf(lp.activities), NoExtraKeys)
  }

  /** Every top-level key and every required slot is present, and no
      undeclared key. */
  predicate IsComplete(p: PartialPlan) {
    && p.extra == NoExtraKeys
    && (forall f :: FieldValue(p, f).Some?)
    && (forall s :: !IsOptionalSlot(s) ==> SlotValue(p.activities, s).Some?)
  }

  /** A complete partial plan read back as a full `LessonPlan`. */
  function PlanOf(p: PartialPlan): (lp: LessonPlan)
    requires IsComplete(p)
    ensures PartialOf(lp) == p
  {
    assert p.schoolName.Some? by { assert FieldValue(p, SchoolName).Some?; }
    assert p.schoolAddress.Some? by { assert FieldValue(p, SchoolAddress).Some?; }
    assert p.teacherName.Some? by { assert FieldValue(p, TeacherName).Some?; }
    assert p.teacherDesignation.Some? by { assert FieldValue(p, TeacherDesignation).Some?; }
    assert p.topic.Some? by { assert FieldValue(p, Topic).Some?; }
    assert p.gradeLevel.Some? by { assert FieldValue(p, GradeLevel).Some?; }
    assert p.unit.Some? by { assert FieldValue(p, Unit).Some?; }
    assert p.lessonNo.Some? by { assert FieldValue(p, LessonNo).Some?; }
    assert p.sessionNo.Some? by { assert FieldValue(p, SessionNo).Some?; }
    assert p.pageNo.Some? by { assert FieldValue(p, PageNo).Some?; }
    assert p.duration.Some? by { assert FieldValue(p, Duration).Some?; }
    assert p.learningOutcomes.Some? by { assert FieldValue(p, LearningOutcomes).Some?; }
    assert p.teachingAids.Some? by { assert FieldValue(p, TeachingAids).Some?; }
    var a := p.activities;
    assert a.introduction.Some? by { assert SlotValue(a, Introduction).Some?; }
    assert a.presentation.Some? by { assert SlotValue(a, Presentation).Some?; }
    assert a.practice.Some? by { assert SlotValue(a, Practice).Some?; }
    assert a.assessment.Some? by { assert SlotValue(a, Assessment).Some?; }
    assert a.feedback.Some? by { assert SlotValue(a, Feedback).Some?; }
    assert a.summary.Some? by { assert SlotValue(a, Summary).Some?; }
    assert a.concluding.Some? by { assert SlotValue(a, Concluding).Some?; }
    LessonPlan(
      p.schoolName.value, p.schoolAddress.value, p.teacherName.value,
      p.teacherDesignation.value, p.topic.value, p.gradeLevel.value, p.unit.value,
      p.lessonNo.value, p.sessionNo.value, p.pageNo.value, p.duration.value,
      p.learningOutcomes.value, p.teachingAids.value,
      LessonActivities(
        a.introduction.value, a.reviewPriorKnowledge, a.reviewPreviousSession,
        a.presentation.value, a.practice.value, a.assessment.value, a.homework,
        a.feedback.value, a.summary.value, a.concluding.value))
  }

  /** The view of a full lesson plan is complete. */
  lemma PartialOfIsComplete(lp: LessonPlan)
    ensures IsComplete(PartialOf(lp))
  {
    var p := PartialOf(lp);
    forall s | !IsOptionalSlot(s) ensures SlotValue(p.activities, s).Some? {
      assert SlotValue(p.activities, s) == ActivityValue(lp.activities, s);
    }
  }

  /** The complete partial plans are exactly the views of full lesson plans:
      the only keys a `LessonPlan` may lack are the three optional slots,
      and it has no undeclared keys. */
  lemma CompleteIffLessonPlan(p: PartialPlan)
    ensures IsComplete(p) <==> exists lp :: PartialOf(lp) == p
  {
    if IsComplete(p) {
      assert PartialOf(PlanOf(p)) == p;
    }
    if exists lp :: PartialOf(lp) == p {
      var lp :| PartialOf(lp) == p;
      PartialOfIsComplete(lp);
    }
  }

  /** Exactly the three optional slots can be missing from a typed
      activities record. */
  lemma OnlyOptionalSlotsMayBeMissing(s: Slot)
    ensures IsOptionalSlot(s) <==> exists a :: ActivityValue(a, s).None?
  {
    if IsOptionalSlot(s) {
      var a := LessonActivities("", None, None, "", "", "", None, "", "", "");
      assert ActivityValue(a, s).None?;
    }
  }

  /** Two typed activities records agreeing on every slot are the same
      record. */
  lemma ActivitiesExtensionality(a: LessonActivities, b: LessonActivities)
    requires forall s :: ActivityValue(a, s) == ActivityValue(b, s)
    ensures a == b
  {
    assert a.introduction == b.introduction by { assert ActivityValue(a, Introduction) == ActivityValue(b, Introduction); }
    assert a.reviewPriorKnowledge == b.reviewPriorKnowledge by { assert ActivityValue(a, ReviewPriorKnowledge) == ActivityValue(b, ReviewPriorKnowledge); }
    assert a.reviewPreviousSession == b.reviewPreviousSession by { assert ActivityValue(a, ReviewPreviousSession) == ActivityValue(b, ReviewPreviousSession); }
    assert a.presentation == b.presentation by { assert ActivityValue(a, Presentation) == ActivityValue(b, Presentation); }
    assert a.practice == b.practice by { assert ActivityValue(a, Practice) == ActivityValue(b, Practice); }
    assert a.assessment == b.assessment by { assert ActivityValue(a, Assessment) == ActivityValue(b, Assessment); }
    assert a.homework == b.homework by { assert ActivityValue(a, Homework) == ActivityValue(b, Homework); }
    assert a.feedback == b.feedback by { assert ActivityValue(a, Feedback) == ActivityValue(b, Feedback); }
    assert a.summary == b.summary by { assert ActivityValue(a, Summary) == ActivityValue(b, Summary); }
    assert a.concluding == b.concluding by { assert ActivityValue(a, Concluding) == ActivityValue(b, Concluding); }
  }

  /** Two activities objects agreeing on every slot are the same object. */
  lemma SlotsExtensionality(a: ActivitySlots, b: ActivitySlots)
    requires forall s :: SlotValue(a, s) == SlotValue(b, s)
    ensures a == b
  {
    assert a.introduction == b.introduction by { assert SlotValue(a, Introduction) == SlotValue(b, Introduction); }
    assert a.reviewPriorKnowledge == b.reviewPriorKnowledge by { assert SlotValue(a, ReviewPriorKnowledge) == SlotValue(b, ReviewPriorKnowledge); }
    assert a.reviewPreviousSession == b.reviewPreviousSession by { assert SlotValue(a, ReviewPreviousSession) == SlotValue(b, ReviewPreviousSession); }
    assert a.presentation == b.presentation by { assert SlotValue(a, Presentation) == SlotValue(b, Presentation); }
    assert a.practice == b.practice by { assert SlotValue(a, Practice) == SlotValue(b, Practice); }
    assert a.assessment == b.assessment by { assert SlotValue(a, Assessment) == SlotValue(b, Assessment); }
    assert a.homework == b.homework by { assert SlotValue(a, Homework) == SlotValue(b, Homework); }
    assert a.feedback == b.feedback by { assert SlotValue(a, Feedback) == SlotValue(b, Feedback); }
    assert a.summary == b.summary by { assert SlotValue(a, Summary) == SlotValue(b, Summary); }
    assert a.concluding == b.concluding by { assert SlotValue(a, Concluding) == SlotValue(b, Concluding); }
  }
}
