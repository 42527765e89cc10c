/** The generation client: builds the request for the external generator
    from the form's parameters and turns its reply into a plan, letting the
    user's identity and lesson-detail fields take precedence. The generator
    itself, the network and the prompt's wording are outside the model. */
module GeminiService {
  import opened Wrappers
  import opened Strings
  import opened Types

  // ---------------------------------------------------------------------
  // Activity notes

  /** JavaScript truthiness of an optional string: present and non-empty. */
  predicate Truthy(v: Option<string>) {
    v.Some? && v.value != ""
  }

  /** The filter `value && value.trim() !== ''`. */
  predicate HasText(v: Option<string>) {
    v.Some? && Trim(v.value) != ""
  }

  /** The position of each slot in declaration order. */
  function SlotIndex(s: Slot): (i: nat)
    ensures i < |SlotOrder| && SlotOrder[i] == s
  {
    match s
    case Introduction => 0
    case ReviewPriorKnowledge => 1
    case ReviewPreviousSession => 2
    case Presentation => 3
    case Practice => 4
    case Assessment => 5
    case Homework => 6
    case Feedback => 7
    case Summary => 8
    case Concluding => 9
  }

  /** The declaration order lists each slot at its own index. */
  lemma SlotIndexOfOrder(i: nat)
    requires i < |SlotOrder|
    ensures SlotIndex(SlotOrder[i]) == i
  {
  }

  /** `Object.entries(activities)` over the slots of `order`: the slots whose
      key is present, in that order, so at most one entry per listed slot. */
  function EntriesOver(a: LessonActivities, order: seq<Slot>): (r: seq<(Slot, string)>)
    ensures |r| <= |order|
    ensures forall e :: e in r ==> e.0 in order && ActivityValue(a, e.0) == Some(e.1)
    ensures DistinctSlots(order) ==> DistinctKeys(r)
  {
    if order == [] then []
    else
      var s := order[0];
      (if ActivityValue(a, s).Some? then [(s, ActivityValue(a, s).value)] else [])
      + EntriesOver(a, order[1..])
  }

  /** The entries in declaration order, which is the key order of every
      activities object the form builds. */
  function Entries(a: LessonActivities): seq<(Slot, string)> {
    EntriesOver(a, SlotOrder)
  }

  /** `.filter(([_, value]) => value && value.trim() !== '')`. */
  function FilterBlank<K>(es: seq<(K, string)>): (r: seq<(K, string)>)
    ensures |r| <= |es|
    ensures forall e :: e in r ==> e in es && Trim(e.1) != ""
  {
    if es == [] then []
    else (if Trim(es[0].1) != "" then [es[0]] else []) + FilterBlank(es[1..])
  }

  /** `` `- ${key}: ${value}` ``. */
  function NoteLine(e: (Slot, string)): string {
    "- " + (SlotKey(e.0) + ": " + e.1)
  }

  function NoteLines(es: seq<(Slot, string)>): (r: seq<string>)
    ensures |r| == |es|
    ensures forall i :: 0 <= i < |es| ==> r[i] == NoteLine(es[i])
  {
    if es == [] then [] else [NoteLine(es[0])] + NoteLines(es[1..])
  }

  /** The slots that contribute a note, with their values. */
  function NotedEntries(a: LessonActivities): seq<(Slot, string)> {
    FilterBlank(Entries(a))
  }

  /** `activityContext`: the note lines joined by newlines. It is empty
      exactly when no entry is noted, and otherwise begins with the first
      note line. */
  function ActivityContext(a: LessonActivities): (r: string)
    ensures r == "" <==> NotedEntries(a) == []
    ensures NotedEntries(a) != [] ==> NoteLine(NotedEntries(a)[0]) <= r
  {
    var lines := NoteLines(NotedEntries(a));
    assert lines != [] ==> lines[0] <= Join(lines, "\n") && Join(lines, "\n") != "" by {
      if lines != [] {
        JoinStartsWithFirst(lines, "\n");
      }
    }
    Join(lines, "\n")
  }

  /** Filtering keeps exactly the entries whose value has text. */
  lemma {:induction false} FilterBlankKeeps<K>(es: seq<(K, string)>, e: (K, string))
    ensures e in FilterBlank(es) <==> e in es && Trim(e.1) != ""
  {
    if es != [] {
      FilterBlankKeeps(es[1..], e);
      assert es == [es[0]] + es[1..];
    }
  }

  /** Entries whose keys strictly increase in `rank`. */
  predicate Ascending<K, V>(es: seq<(K, V)>, rank: K -> nat) {
    forall i, j :: 0 <= i < j < |es| ==> rank(es[i].0) < rank(es[j].0)
  }

  /** Dropping the first entry keeps the rest ascending. */
  lemma AscendingTail<K, V>(es: seq<(K, V)>, rank: K -> nat)
    requires es != [] && Ascending(es, rank)
    ensures Ascending(es[1..], rank)
  {
    var tail := es[1..];
    forall i, j | 0 <= i < j < |tail| ensures rank(tail[i].0) < rank(tail[j].0) {
      assert tail[i] == es[i + 1] && tail[j] == es[j + 1];
    }
  }

  /** An entry ranked below every entry of an ascending list can go in
      front of it. */
  lemma AscendingCons<K, V>(e: (K, V), rest: seq<(K, V)>, rank: K -> nat)
    requires Ascending(rest, rank)
    requires forall k :: 0 <= k < |rest| ==> rank(e.0) < rank(rest[k].0)
    ensures Ascending([e] + rest, rank)
  {
    var fs := [e] + rest;
    forall i, j | 0 <= i < j < |fs| ensures rank(fs[i].0) < rank(fs[j].0) {
      assert fs[j] == rest[j - 1];
      if i > 0 { assert fs[i] == rest[i - 1]; }
    }
  }

  /** Filtering keeps the order of the entries it keeps. */
  lemma {:induction false} FilterBlankAscending<K>(es: seq<(K, string)>, rank: K -> nat)
    requires Ascending(es, rank)
    ensures Ascending(FilterBlank(es), rank)
  {
    if es != [] {
      var tail := es[1..];
      AscendingTail(es, rank);
      FilterBlankAscending(tail, rank);
      var rest := FilterBlank(tail);
      if Trim(es[0].1) != "" {
        forall k | 0 <= k < |rest| ensures rank(es[0].0) < rank(rest[k].0) {
          FilterBlankKeeps(tail, rest[k]);
          var j :| 0 <= j < |tail| && tail[j] == rest[k];
          assert es[j + 1] == rest[k];
        }
        AscendingCons(es[0], rest, rank);
        assert FilterBlank(es) == [es[0]] + rest;
      } else {
        assert FilterBlank(es) == rest;
      }
    }
  }

  /** The entries over `order` are its present slots, each with its value. */
  lemma {:induction false} EntriesOverMembers(a: LessonActivities, order: seq<Slot>, e: (Slot, string))
    ensures e in EntriesOver(a, order) <==> e.0 in order && ActivityValue(a, e.0) == Some(e.1)
  {
    if order != [] {
      EntriesOverMembers(a, order[1..], e);
      assert order == [order[0]] + order[1..];
    }
  }

  /** Slots whose rank strictly increases along the sequence. */
  predicate AscendingSlots(order: seq<Slot>, rank: Slot -> nat) {
    forall i, j :: 0 <= i < j < |order| ==> rank(order[i]) < rank(order[j])
  }

  lemma AscendingSlotsTail(order: seq<Slot>, rank: Slot -> nat)
    requires order != [] && AscendingSlots(order, rank)
    ensures AscendingSlots(order[1..], rank)
  {
    var tail := order[1..];
    forall i, j | 0 <= i < j < |tail| ensures rank(tail[i]) < rank(tail[j]) {
      assert tail[i] == order[i + 1] && tail[j] == order[j + 1];
    }
  }

  /** The entries follow the order of the slots they are taken from. */
  lemma {:induction false} EntriesOverAscending(a: LessonActivities, order: seq<Slot>, rank: Slot -> nat)
    requires AscendingSlots(order, rank)
    ensures Ascending(EntriesOver(a, order), rank)
  {
    if order != [] {
      var tail := order[1..];
      AscendingSlotsTail(order, rank);
      EntriesOverAscending(a, tail, rank);
      var rest := EntriesOver(a, tail);
      var s := order[0];
      if ActivityValue(a, s).Some? {
        forall k | 0 <= k < |rest| ensures rank(s) < rank(rest[k].0) {
          EntriesOverMembers(a, tail, rest[k]);
          var j :| 0 <= j < |tail| && tail[j] == rest[k].0;
          assert order[j + 1] == rest[k].0;
        }
        AscendingCons((s, ActivityValue(a, s).value), rest, rank);
        assert EntriesOver(a, order) == [(s, ActivityValue(a, s).value)] + rest;
      } else {
        assert EntriesOver(a, order) == rest;
      }
    }
  }

  /** The notes list exactly the slots whose value is non-empty after
      trimming, each with its own value, in declaration order. */
  lemma NotesListFilledSlots(a: LessonActivities)
    ensures var es := NotedEntries(a);
      && (forall e :: e in es <==> ActivityValue(a, e.0) == Some(e.1) && Trim(e.1) != "")
      && Ascending(es, SlotIndex)
  {
    forall e ensures e in NotedEntries(a) <==> ActivityValue(a, e.0) == Some(e.1) && Trim(e.1) != "" {
      FilterBlankKeeps(Entries(a), e);
      EntriesOverMembers(a, SlotOrder, e);
      assert SlotOrder[SlotIndex(e.0)] == e.0;
    }
    assert AscendingSlots(SlotOrder, SlotIndex) by {
      forall i, j | 0 <= i < j < |SlotOrder| ensures SlotIndex(SlotOrder[i]) < SlotIndex(SlotOrder[j]) {
        SlotIndexOfOrder(i);
        SlotIndexOfOrder(j);
      }
    }
    EntriesOverAscending(a, SlotOrder, SlotIndex);
    FilterBlankAscending(Entries(a), SlotIndex);
  }

  /** A list holding exactly the slots with text is empty exactly when no
      slot has text. */
  lemma FilledEntriesEmptyIff(a: LessonActivities, es: seq<(Slot, string)>)
    requires forall e :: e in es <==> ActivityValue(a, e.0) == Some(e.1) && Trim(e.1) != ""
    ensures es == [] <==> forall s :: !HasText(ActivityValue(a, s))
  {
    if es != [] {
      assert es[0] in es;
      assert HasText(ActivityValue(a, es[0].0));
    } else {
      forall s ensures !HasText(ActivityValue(a, s)) {
        var v := ActivityValue(a, s);
        if v.Some? {
          assert (s, v.value) in es <==> Trim(v.value) != "";
        }
      }
    }
  }

  /** The notes are empty exactly when no slot has text. */
  lemma ActivityContextEmptyIff(a: LessonActivities)
    ensures ActivityContext(a) == "" <==> forall s :: !HasText(ActivityValue(a, s))
  {
    NotesListFilledSlots(a);
    FilledEntriesEmptyIff(a, NotedEntries(a));
  }

  // ---------------------------------------------------------------------
  // The prompt's conditional structure

  /** The sections of the instruction text, without their wording. */
  datatype PromptSection =
    | LessonContext(topic: string, grade: string, unit: string, lesson: string,
                    session: string, duration: string)
    | TextbookSection(text: string)
    | ActivityNotesSection(notes: string)
    | ImageSection
    | FormattingSection
    | StructureSection(slots: seq<Slot>)

  /** The place of each section in the instruction text. */
  function SectionRank(s: PromptSection): nat {
    match s
    case LessonContext(_, _, _, _, _, _) => 0
    case TextbookSection(_) => 1
    case ActivityNotesSection(_) => 2
    case ImageSection => 3
    case FormattingSection => 4
    case StructureSection(_) => 5
  }

  /** Sections in their fixed order, so none appears twice. */
  predicate SectionsInOrder(ss: seq<PromptSection>) {
    forall i, j :: 0 <= i < j < |ss| ==> SectionRank(ss[i]) < SectionRank(ss[j])
  }

  /** Two runs of sections in order, the first ending below where the second
      starts, stay in order when joined. */
  lemma ConcatInOrder(xs: seq<PromptSection>, ys: seq<PromptSection>)
    requires SectionsInOrder(xs) && SectionsInOrder(ys)
    requires xs == [] || ys == [] || SectionRank(xs[|xs| - 1]) < SectionRank(ys[0])
    ensures SectionsInOrder(xs + ys)
  {
    var r := xs + ys;
    forall i, j | 0 <= i < j < |r| ensures SectionRank(r[i]) < SectionRank(r[j]) {
      if i < |xs| <= j {
        assert SectionRank(r[i]) <= SectionRank(xs[|xs| - 1]);
        assert SectionRank(ys[0]) <= SectionRank(r[j]);
      }
    }
  }

  /** The instruction text around the activity notes `notes`: the lesson
      context, then the three conditional sections, then the formatting rule
      and the required structure. */
  function Template(p: GenerationParams, notes: string): (r: seq<PromptSection>)
    ensures 3 <= |r| <= 6 && r[|r| - 1] == StructureSection(SlotOrder) && r[|r| - 2] == FormattingSection
    ensures r[0] == LessonContext(p.topic, p.gradeLevel, p.unit, p.lessonNo, p.sessionNo, p.duration)
    ensures forall t :: TextbookSection(t) in r <==> p.textbookText == Some(t) && t != ""
    ensures forall n :: ActivityNotesSection(n) in r <==> n == notes && n != ""
    ensures ImageSection in r <==> Truthy(p.imageBase64)
  {
    [LessonContext(p.topic, p.gradeLevel, p.unit, p.lessonNo, p.sessionNo, p.duration)]
    + (if Truthy(p.textbookText) then [TextbookSection(p.textbookText.value)] else [])
    + (if notes != "" then [ActivityNotesSection(notes)] else [])
    + (if Truthy(p.imageBase64) then [ImageSection] else [])
    + [FormattingSection, StructureSection(SlotOrder)]
  }

  /** The sections of the instruction text come in their fixed order, so no
      section appears twice. */
  lemma TemplateInOrder(p: GenerationParams, notes: string)
    ensures SectionsInOrder(Template(p, notes))
  {
    RunsInOrder(LessonContext(p.topic, p.gradeLevel, p.unit, p.lessonNo, p.sessionNo, p.duration),
      if Truthy(p.textbookText) then [TextbookSection(p.textbookText.value)] else [],
      if notes != "" then [ActivityNotesSection(notes)] else [],
      if Truthy(p.imageBase64) then [ImageSection] else []);
  }

  /** The context, then at most one section of each of the ranks one to
      three, then the formatting rule and the structure, are in order. */
  lemma RunsInOrder(context: PromptSection, text: seq<PromptSection>, noted: seq<PromptSection>,
                    image: seq<PromptSection>)
    requires SectionRank(context) == 0
    requires |text| <= 1 && forall x :: x in text ==> SectionRank(x) == 1
    requires |noted| <= 1 && forall x :: x in noted ==> SectionRank(x) == 2
    requires |image| <= 1 && forall x :: x in image ==> SectionRank(x) == 3
    ensures SectionsInOrder([context] + text + noted + image + [FormattingSection, StructureSection(SlotOrder)])
  {
    var tail := [FormattingSection, StructureSection(SlotOrder)];
    if text != [] { assert text[0] in text; }
    if noted != [] { assert noted[0] in noted; }
    if image != [] { assert image[0] in image; }
    ConcatInOrder([context], text);
    ConcatInOrder([context] + text, noted);
    ConcatInOrder([context] + text + noted, image);
    ConcatInOrder([context] + text + noted + image, tail);
  }


  /** `textPrompt`, with the notes built from the parameters' activities:
      the only notes section it can hold is the joined notes, and it holds
      it exactly when some entry is noted. */
  function PromptSections(p: GenerationParams): (r: seq<PromptSection>)
    ensures forall n :: ActivityNotesSection(n) in r ==> n == ActivityContext(p.activities)
    ensures ActivityNotesSection(ActivityContext(p.activities)) in r <==> NotedEntries(p.activities) != []
  {
    Template(p, ActivityContext(p.activities))
  }

  /** The notes section appears exactly when some slot has text. */
  lemma NotesSectionIffSomeSlotHasText(p: GenerationParams)
    ensures (exists n :: ActivityNotesSection(n) in PromptSections(p))
        <==> exists s :: HasText(ActivityValue(p.activities, s))
  {
    ActivityContextEmptyIff(p.activities);
    var n := ActivityContext(p.activities);
    if n != "" { assert ActivityNotesSection(n) in PromptSections(p); }
  }

  // ---------------------------------------------------------------------
  // Request parts

  datatype Part = TextPart(text: string) | InlineData(data: Option<string>, mimeType: string)

  /** `imageBase64.split(',')[1]`: the text between the first and the second
      comma, `undefined` when there is no comma. */
  function ImageData(dataUrl: string): (r: Option<string>)
    ensures r.None? <==> ',' !in dataUrl
  {
    SplitManyIffSep(dataUrl, ',');
    var pieces := Split(dataUrl, ',');
    if |pieces| > 1 then Some(pieces[1]) else None
  }

  /** For a data URL `header,payload` the image data is the payload up to any
      further comma, and all of it when it has no comma. */
  lemma ImageDataAfterFirstComma(header: string, payload: string)
    requires ',' !in header
    ensures var d := ImageData(header + "," + payload);
      && d.Some? && d.value <= payload && ',' !in d.value
      && (',' !in payload ==> d.value == payload)
  {
    SplitAtFirst(header, ',', payload);
    SplitFirstIsPrefix(payload, ',');
    SplitPiecesLackSep(payload, ',', 0);
    if ',' !in payload { SplitWithoutSep(payload, ','); }
  }

  /** The `parts` array: the instruction text, then the image when both its
      data and its MIME type are given. */
  method BuildParts(p: GenerationParams, prompt: string) returns (parts: seq<Part>)
    ensures |parts| >= 1 && parts[0] == TextPart(prompt)
    ensures |parts| == 2 <==> Truthy(p.imageBase64) && Truthy(p.imageMimeType)
    ensures |parts| <= 2
    ensures |parts| == 2 ==>
      parts[1] == InlineData(ImageData(p.imageBase64.value), p.imageMimeType.value)
  {
    parts := [TextPart(prompt)];
    if Truthy(p.imageBase64) && Truthy(p.imageMimeType) {
      parts := parts + [InlineData(ImageData(p.imageBase64.value), p.imageMimeType.value)];
    }
  }

  // ---------------------------------------------------------------------
  // The declared response shape

  datatype Schema = StringSchema | ObjectSchema(properties: seq<(string, Schema)>, required: seq<string>)

  /** The activities object of the response: the ten slots as strings, in
      declaration order, and a list of required keys. */
  function ActivitiesSchema(): (r: Schema)
    ensures r.ObjectSchema? && |r.properties| == |SlotOrder|
    ensures forall i :: 0 <= i < |SlotOrder| ==> r.properties[i] == (SlotKey(SlotOrder[i]), StringSchema)
    ensures |r.required| == 7
  {
    var r := ObjectSchema(
      [("introduction", StringSchema), ("reviewPriorKnowledge", StringSchema),
       ("reviewPreviousSession", StringSchema), ("presentation", StringSchema),
       ("practice", StringSchema), ("assessment", StringSchema),
       ("homework", StringSchema), ("feedback", StringSchema),
       ("summary", StringSchema), ("concluding", StringSchema)],
      RequiredKeys);
    assert forall i :: 0 <= i < |SlotOrder| ==> r.properties[i].0 == SlotKey(SlotOrder[i]) by {
      forall i | 0 <= i < |SlotOrder| ensures r.properties[i].0 == SlotKey(SlotOrder[i]) {
        SlotIndexOfOrder(i);
      }
    }
    r
  }

  /** Distinct slots have distinct keys. */
  lemma SlotKeyInjective(s: Slot, t: Slot)
    ensures SlotKey(s) == SlotKey(t) ==> s == t
  {
    if SlotKey(s) == SlotKey(t) {
      assert |SlotKey(s)| == |SlotKey(t)|;
      assert SlotKey(s)[0] == SlotKey(t)[0];
      assert |SlotKey(s)| > 7 ==> SlotKey(s)[7] == SlotKey(t)[7];
    }
  }

  /** The keys the activities schema marks required. */
  const RequiredKeys: seq<string> :=
    ["introduction", "presentation", "practice", "assessment", "feedback", "summary", "concluding"]

  /** The required slots in the order the schema lists them. */
  const RequiredSlotList: seq<Slot> :=
    [Introduction, Presentation, Practice, Assessment, Feedback, Summary, Concluding]

  lemma RequiredKeysMatchSlots()
    ensures |RequiredKeys| == |RequiredSlotList|
    ensures forall i :: 0 <= i < |RequiredSlotList| ==> RequiredKeys[i] == SlotKey(RequiredSlotList[i])
  {
  }

  lemma RequiredSlotListIff(s: Slot)
    ensures s in RequiredSlotList <==> !IsOptionalSlot(s)
  {
  }

  /** The schema requires exactly the slots the record type declares
      required. */
  lemma RequiredKeysAreRequiredSlots(s: Slot)
    ensures SlotKey(s) in ActivitiesSchema().required <==> !IsOptionalSlot(s)
  {
    var req, slots := RequiredKeys, RequiredSlotList;
    assert ActivitiesSchema().required == req;
    RequiredKeysMatchSlots();
    RequiredSlotListIff(s);
    if SlotKey(s) in req {
      var i :| 0 <= i < |req| && req[i] == SlotKey(s);
      SlotKeyInjective(s, slots[i]);
    }
    if s in slots {
      var i :| 0 <= i < |slots| && slots[i] == s;
      assert req[i] == SlotKey(s);
    }
  }

  /** Every required key names a slot. */
  lemma RequiredKeysNameSlots()
    ensures forall k :: k in ActivitiesSchema().required ==> exists t :: SlotKey(t) == k
  {
    RequiredKeysMatchSlots();
    forall k | k in RequiredKeys ensures exists t :: SlotKey(t) == k {
      var i :| 0 <= i < |RequiredKeys| && RequiredKeys[i] == k;
      assert SlotKey(RequiredSlotList[i]) == k;
    }
  }

  /** The whole response: the thirteen top-level fields as strings under
      their own names, in declaration order, then the activities object, and
      nothing required. */
  function ResponseSchema(): (r: Schema)
    ensures r.ObjectSchema? && r.required == [] && |r.properties| == |FieldOrder| + 1
    ensures forall i :: 0 <= i < |FieldOrder| ==> r.properties[i] == (FieldKey(FieldOrder[i]), StringSchema)
    ensures r.properties[|FieldOrder|] == ("activities", ActivitiesSchema())
  {
    var r := ObjectSchema(
      [("schoolName", StringSchema), ("schoolAddress", StringSchema),
       ("teacherName", StringSchema), ("teacherDesignation", StringSchema),
       ("topic", StringSchema), ("gradeLevel", StringSchema), ("unit", StringSchema),
       ("lessonNo", StringSchema), ("sessionNo", StringSchema), ("pageNo", StringSchema),
       ("duration", StringSchema), ("learningOutcomes", StringSchema),
       ("teachingAids", StringSchema), ("activities", ActivitiesSchema())],
      []);
    assert forall i :: 0 <= i < |FieldOrder| ==> r.properties[i].0 == FieldKey(FieldOrder[i]) by {
      forall i | 0 <= i < |FieldOrder| ensures r.properties[i].0 == FieldKey(FieldOrder[i]) {
        FieldIndexOfOrder(i);
      }
    }
    r
  }

  // ---------------------------------------------------------------------
  // The reply and the precedence rule

  /** The decoded reply. Nothing checks it against the declared schema, so
      every top-level key and every slot may be missing, and the designation
      is an arbitrary string. */
  datatype GeneratedPlan = GeneratedPlan(
    schoolName: Option<string>,
    schoolAddress: Option<string>,
    teacherName: Option<string>,
    teacherDesignation: Option<string>,
    topic: Option<string>,
    gradeLevel: Option<string>,
    unit: Option<string>,
    lessonNo: Option<string>,
    sessionNo: Option<string>,
    pageNo: Option<string>,
    duration: Option<string>,
    learningOutcomes: Option<string>,
    teachingAids: Option<string>,
    activities: Option<ActivitySlots>)

  function GeneratedValue(g: GeneratedPlan, f: PlanField): Option<string> {
    match f
    case SchoolName => g.schoolName
    case SchoolAddress => g.schoolAddress
    case TeacherName => g.teacherName
    case TeacherDesignation => g.teacherDesignation
    case Topic => g.topic
    case GradeLevel => g.gradeLevel
    case Unit => g.unit
    case LessonNo => g.lessonNo
    case SessionNo => g.sessionNo
    case PageNo => g.pageNo
    case Duration => g.duration
    case LearningOutcomes => g.learningOutcomes
    case TeachingAids => g.teachingAids
  }

  /** The five identity fields, where a non-empty user value wins. */
  predicate IsIdentityField(f: PlanField) {
    f == SchoolName || f == SchoolAddress || f == TeacherName || f == TeacherDesignation || f == Topic
  }

  /** The six lesson-detail fields, which are always the user's. */
  predicate IsDetailField(f: PlanField) {
    f == GradeLevel || f == Unit || f == LessonNo || f == SessionNo || f == PageNo || f == Duration
  }

  /** The user's value of a scalar field. */
  function UserValue(p: GenerationParams, f: PlanField): string
    requires IsIdentityField(f) || IsDetailField(f)
  {
    match f
    case SchoolName => p.schoolName
    case SchoolAddress => p.schoolAddress
    case TeacherName => p.teacherName
    case TeacherDesignation => p.teacherDesignation
    case Topic => p.topic
    case GradeLevel => p.gradeLevel
    case Unit => p.unit
    case LessonNo => p.lessonNo
    case SessionNo => p.sessionNo
    case PageNo => p.pageNo
    case Duration => p.duration
  }

  /** `user || generated`. */
  function Or(user: string, generated: Option<string>): Option<string> {
    if user != "" then Some(user) else generated
  }

  /** `params.teacherDesignation || generated.teacherDesignation`: a
      designation is never empty, so the generated one never takes effect. */
  function PickDesignation(user: Designation, generated: Option<string>): (r: Designation)
    ensures r == user
  {
    var v := Or(user, generated);
    v.value
  }

  /** The returned object: the generated record, overridden by the user's
      identity fields when non-empty and by the user's lesson details always. */
  function Precedence(p: GenerationParams, g: GeneratedPlan): (r: PartialPlan)
    ensures forall f :: IsIdentityField(f) ==>
      FieldValue(r, f) == if UserValue(p, f) != "" then Some(UserValue(p, f)) else GeneratedValue(g, f)
    ensures forall f :: IsDetailField(f) ==> FieldValue(r, f) == Some(UserValue(p, f))
    ensures FieldValue(r, LearningOutcomes) == g.learningOutcomes
    ensures FieldValue(r, TeachingAids) == g.teachingAids
    ensures forall s :: SlotValue(r.activities, s) ==
                        if g.activities.Some? then SlotValue(g.activities.value, s) else None
    ensures r.teacherDesignation == Some(p.teacherDesignation)
    ensures r.extra == NoExtraKeys
  {
    PartialPlan(
      Or(p.schoolName, g.schoolName),
      Or(p.schoolAddress, g.schoolAddress),
      Or(p.teacherName, g.teacherName),
      Some(PickDesignation(p.teacherDesignation, g.teacherDesignation)),
      Or(p.topic, g.topic),
      Some(p.gradeLevel), Some(p.unit), Some(p.lessonNo), Some(p.sessionNo),
      Some(p.pageNo), Some(p.duration),
      g.learningOutcomes, g.teachingAids,
      if g.activities.Some? then g.activities.value else NoSlots,
      NoExtraKeys)
  }

  /** What comes back from the generator: a transport failure, or a reply
      whose text may be missing. */
  datatype Reply = TransportFailure | Replied(text: Option<string>)

  datatype GenerationError = TransportError | EmptyResponse | MalformedResponse

  /** `generateLessonPlan` after the request is sent. `parse` is `JSON.parse`
      read in the declared shape; `None` stands for a parse that throws. */
  function GenerateLessonPlan(p: GenerationParams, reply: Reply, parse: string -> Option<GeneratedPlan>)
    : (r: Result<PartialPlan, GenerationError>)
    ensures reply.TransportFailure? ==> r == Failure(TransportError)
    ensures reply.Replied? && !Truthy(reply.text) ==> r == Failure(EmptyResponse)
    ensures r.Success? <==> reply.Replied? && Truthy(reply.text) && parse(Trim(reply.text.value)).Some?
    ensures r.Success? ==> r.value == Precedence(p, parse(Trim(reply.text.value)).value)
  {
    match reply
    case TransportFailure => Failure(TransportError)
    case Replied(text) =>
      if !Truthy(text) then Failure(EmptyResponse)
      else
        match parse(Trim(text.value))
        case None => Failure(MalformedResponse)
        case Some(g) => Success(Precedence(p, g))
  }

  /** A reply of whitespace alone passes the emptiness test but trims to an
      empty text, which `JSON.parse` rejects, so it fails as malformed. */
  lemma BlankReplyIsMalformed(p: GenerationParams, t: string, parse: string -> Option<GeneratedPlan>)
    requires parse("").None?
    requires t != "" && AllWhitespace(t)
    ensures GenerateLessonPlan(p, Replied(Some(t)), parse) == Failure(MalformedResponse)
  {
    TrimEmptyIff(t);
  }

  /** The worked example of the precedence rule: a non-empty user topic wins,
      an empty one yields the generated topic, and an empty user duration
      still wins over a generated one. */
  lemma PrecedenceExamples(p: GenerationParams, g: GeneratedPlan)
    requires g.topic == Some("Vegetables") && g.duration == Some("45 minutes")
    ensures p.topic == "Fruits" ==> Precedence(p, g).topic == Some("Fruits")
    ensures p.topic == "" ==> Precedence(p, g).topic == Some("Vegetables")
    ensures p.duration == "" ==> Precedence(p, g).duration == Some("")
  {
    assert FieldValue(Precedence(p, g), Topic) == Precedence(p, g).topic;
    assert FieldValue(Precedence(p, g), Duration) == Precedence(p, g).duration;
  }
}
