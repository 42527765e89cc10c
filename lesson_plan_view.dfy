/** The printable preview: a pure function from the current plan to the
    document shown, as title lines and a table of sections and rows. Markup
    inside a cell is carried as it is; only the decisions about which rows
    appear and what they show are modelled. */
module LessonPlanView {
  import opened Wrappers
  import opened Strings
  import opened Types
  import opened Dom
  import opened GeminiService

  // ---------------------------------------------------------------------
  // Emptiness and single rows

  /** `isEmptyHtml`: missing or empty, or no text once the markup is parsed
      and the text content trimmed. So a value is empty exactly when it is
      missing or its text content is whitespace only. */
  function IsEmptyHtml(html: Option<string>): (r: bool)
    ensures r <==> html.None? || AllWhitespace(TextContent(html.value))
  {
    assert html.Some? ==> (Trim(TextContent(html.value)) == "" <==> AllWhitespace(TextContent(html.value))) by {
      if html.Some? {
        TrimEmptyIff(TextContent(html.value));
      }
    }
    !Truthy(html) || Trim(TextContent(html.value)) == ""
  }

  /** Markup without text, such as the `<br>` an editor leaves behind, is
      empty; plain text with a visible character is not. */
  lemma IsEmptyHtmlCases(html: string)
    ensures IsMarkupOnly(html) ==> IsEmptyHtml(Some(html))
    ensures '<' !in html && '&' !in html && !AllWhitespace(html) ==> !IsEmptyHtml(Some(html))
  {
    if IsMarkupOnly(html) {
      MarkupOnlyHasNoText(html);
    }
    if '<' !in html && '&' !in html {
      PlainTextIsItsOwnContent(html);
      TrimEmptyIff(html);
    }
  }

  /** What the value cell of a row shows. */
  datatype Cell = Shown(html: string) | EmptyMarker

  datatype Row =
    | FieldRow(name: string, cell: Cell)
    | DetailsRow(details: seq<(string, string)>)

  /** `renderRow`: an optional empty row is left out, a required empty row
      shows the `[Empty]` marker, and any other row shows its value. */
  function RenderRow(name: string, value: Option<string>, optional: bool): (r: Option<Row>)
    ensures r.None? <==> optional && IsEmptyHtml(value)
    ensures r.Some? ==> r.value.FieldRow? && r.value.name == name
    ensures r.Some? ==> (r.value.cell == EmptyMarker <==> IsEmptyHtml(value))
    ensures !IsEmptyHtml(value) ==> r == Some(FieldRow(name, Shown(value.value)))
  {
    if optional && IsEmptyHtml(value) then None
    else if IsEmptyHtml(value) then Some(FieldRow(name, EmptyMarker))
    else Some(FieldRow(name, Shown(value.value)))
  }

  /** A rendered row, or nothing, as a list of table rows. */
  function RowList(r: Option<Row>): (rows: seq<Row>)
    ensures |rows| <= 1 && (|rows| == 1 <==> r.Some?)
    ensures r.Some? ==> rows == [r.value]
  {
    if r.Some? then [r.value] else []
  }

  /** A lesson-detail value: the value when it is non-empty, `N/A` otherwise,
      so a detail is never blank. */
  function DetailText(v: Option<string>): (r: string)
    ensures r != ""
    ensures Truthy(v) ==> r == v.value
    ensures !Truthy(v) ==> r == "N/A"
  {
    if Truthy(v) then v.value else "N/A"
  }

  /** A header line with its fallback text. */
  function Heading(v: Option<string>, fallback: string): (r: string)
    requires fallback != ""
    ensures r != ""
    ensures Truthy(v) ==> r == v.value
    ensures !Truthy(v) ==> r == fallback
  {
    if Truthy(v) then v.value else fallback
  }

  // ---------------------------------------------------------------------
  // The activity rows

  /** The row label of each activity slot. */
  function ActivityLabel(s: Slot): string {
    match s
    case Introduction => "Introduction"
    case ReviewPriorKnowledge => "Prior Knowledge"
    case ReviewPreviousSession => "Previous Session"
    case Presentation => "Presentation"
    case Practice => "Practice Activities"
    case Assessment => "Assessment"
    case Homework => "Homework"
    case Feedback => "Feedback"
    case Summary => "Summary"
    case Concluding => "Concluding"
  }

  /** Distinct slots have distinct row labels. */
  lemma ActivityLabelInjective(s: Slot, t: Slot)
    ensures ActivityLabel(s) == ActivityLabel(t) ==> s == t
  {
    if ActivityLabel(s) == ActivityLabel(t) {
      assert |ActivityLabel(s)| == |ActivityLabel(t)|;
      assert ActivityLabel(s)[0] == ActivityLabel(t)[0];
      assert |ActivityLabel(s)| > 2 ==> ActivityLabel(s)[2] == ActivityLabel(t)[2];
    }
  }

  /** The rows of the activity section over the slots of `order`, each with
      the slot it shows; a list naming no slot twice gives at most one row
      per slot. */
  function ActivityCells(a: ActivitySlots, order: seq<Slot>): (r: seq<(Slot, Cell)>)
    ensures |r| <= |order|
    ensures forall e :: e in r ==> e.0 in order
    ensures DistinctSlots(order) ==> DistinctKeys(r)
  {
    if order == [] then []
    else
      var s := order[0];
      var row := RenderRow(ActivityLabel(s), SlotValue(a, s), IsOptionalSlot(s));
      (if row.Some? then [(s, row.value.cell)] else []) + ActivityCells(a, order[1..])
  }

  /** A slot has a row exactly when it is required or has text, and its cell
      follows the three-way rule. */
  lemma {:induction false} ActivityCellsMembers(a: ActivitySlots, order: seq<Slot>, e: (Slot, Cell))
    ensures e in ActivityCells(a, order) <==>
      && e.0 in order
      && !(IsOptionalSlot(e.0) && IsEmptyHtml(SlotValue(a, e.0)))
      && e.1 == (if IsEmptyHtml(SlotValue(a, e.0)) then EmptyMarker else Shown(SlotValue(a, e.0).value))
  {
    if order != [] {
      ActivityCellsMembers(a, order[1..], e);
      assert order == [order[0]] + order[1..];
    }
  }

  /** The activity rows follow the order of the slots they are taken from. */
  lemma {:induction false} ActivityCellsAscending(a: ActivitySlots, order: seq<Slot>, rank: Slot -> nat)
    requires AscendingSlots(order, rank)
    ensures Ascending(ActivityCells(a, order), rank)
  {
    if order != [] {
      var tail := order[1..];
      AscendingSlotsTail(order, rank);
      ActivityCellsAscending(a, tail, rank);
      var rest := ActivityCells(a, tail);
      var s := order[0];
      var row := RenderRow(ActivityLabel(s), SlotValue(a, s), IsOptionalSlot(s));
      if row.Some? {
        forall k | 0 <= k < |rest| ensures rank(s) < rank(rest[k].0) {
          ActivityCellsMembers(a, tail, rest[k]);
          var j :| 0 <= j < |tail| && tail[j] == rest[k].0;
          assert order[j + 1] == rest[k].0;
        }
        AscendingCons((s, row.value.cell), rest, rank);
        assert ActivityCells(a, order) == [(s, row.value.cell)] + rest;
      } else {
        assert ActivityCells(a, order) == rest;
      }
    }
  }

  /** The activity section lists, in declaration order, every required slot
      and every optional slot with text, each once, under its own label. */
  lemma ActivityRowsInOrder(a: ActivitySlots)
    ensures var cs := ActivityCells(a, SlotOrder);
      && (forall s, c :: (s, c) in cs <==>
            && !(IsOptionalSlot(s) && IsEmptyHtml(SlotValue(a, s)))
            && c == (if IsEmptyHtml(SlotValue(a, s)) then EmptyMarker else Shown(SlotValue(a, s).value)))
      && Ascending(cs, SlotIndex)
  {
    forall s, c ensures (s, c) in ActivityCells(a, SlotOrder) <==>
            && !(IsOptionalSlot(s) && IsEmptyHtml(SlotValue(a, s)))
            && c == (if IsEmptyHtml(SlotValue(a, s)) then EmptyMarker else Shown(SlotValue(a, s).value)) {
      ActivityCellsMembers(a, SlotOrder, (s, c));
      assert SlotOrder[SlotIndex(s)] == s;
    }
    assert AscendingSlots(SlotOrder, SlotIndex) by {
      forall i, j | 0 <= i < j < |SlotOrder| ensures SlotIndex(SlotOrder[i]) < SlotIndex(SlotOrder[j]) {
        SlotIndexOfOrder(i);
        SlotIndexOfOrder(j);
      }
    }
    ActivityCellsAscending(a, SlotOrder, SlotIndex);
  }

  /** The required slots always have a row, showing their value or the
      `[Empty]` marker, so at most the optional slots are left out. */
  lemma {:induction false} RequiredSlotsAlwaysShown(a: ActivitySlots, order: seq<Slot>)
    ensures forall s :: s in order && !IsOptionalSlot(s) ==>
      (s, RequiredCell(SlotValue(a, s))) in ActivityCells(a, order)
    ensures |ActivityCells(a, order)| >= |order| - OptionalCount(order)
    ensures |ActivityCells(a, order)| <= |order|
  {
    forall s | s in order && !IsOptionalSlot(s)
      ensures (s, RequiredCell(SlotValue(a, s))) in ActivityCells(a, order)
    {
      ActivityCellsMembers(a, order, (s, RequiredCell(SlotValue(a, s))));
    }
    if order != [] {
      RequiredSlotsAlwaysShown(a, order[1..]);
    }
  }

  /** The number of optional slots in `order`. */
  function OptionalCount(order: seq<Slot>): nat {
    if order == [] then 0 else (if IsOptionalSlot(order[0]) then 1 else 0) + OptionalCount(order[1..])
  }

  // ---------------------------------------------------------------------
  // The document

  datatype Section = Section(title: string, rows: seq<Row>)

  /** The document: the school's name and address lines, then the table as
      its four titled sections. */
  datatype Document = Document(schoolLine: string, addressLine: string, sections: seq<Section>)

  /** The fields of the lesson-detail grid, column by column. */
  const DetailOrder: seq<PlanField> := [GradeLevel, SessionNo, Duration, Unit, LessonNo, PageNo]

  /** The column labels of the lesson-detail grid. */
  const DetailLabels: seq<string> := ["Class", "Session", "Session Duration", "Unit", "Lesson", "Page"]

  /** The lesson-detail grid, column by column: six labelled values, none
      blank. */
  function LessonDetails(p: PartialPlan): (r: seq<(string, string)>)
    ensures |r| == |DetailLabels|
    ensures forall i :: 0 <= i < |r| ==> r[i].0 == DetailLabels[i] && r[i].1 != ""
  {
    [("Class", DetailText(p.gradeLevel)), ("Session", DetailText(p.sessionNo)),
     ("Session Duration", DetailText(p.duration)), ("Unit", DetailText(p.unit)),
     ("Lesson", DetailText(p.lessonNo)), ("Page", DetailText(p.pageNo))]
  }

  /** The teacher rows: name, then designation. Both are required, so
      neither is left out, and each shows its value or `[Empty]`. */
  function TeacherRows(p: PartialPlan): (r: seq<Row>)
    ensures r == [FieldRow("Teacher\U{2019}s Name", RequiredCell(p.teacherName)),
                  FieldRow("Designation", RequiredCell(p.teacherDesignation))]
  {
    RowList(RenderRow("Teacher\U{2019}s Name", p.teacherName, false))
    + RowList(RenderRow("Designation", p.teacherDesignation, false))
  }

  /** The instructional-design rows: outcomes, then teaching aids, both
      required and never left out. */
  function DesignRows(p: PartialPlan): (r: seq<Row>)
    ensures r == [FieldRow("Learning Outcomes", RequiredCell(p.learningOutcomes)),
                  FieldRow("Teaching Aids", RequiredCell(p.teachingAids))]
  {
    RowList(RenderRow("Learning Outcomes", p.learningOutcomes, false))
    + RowList(RenderRow("Teaching Aids", p.teachingAids, false))
  }

  /** One labelled row per activity cell: between seven and ten rows, since
      only the three optional slots can be left out. */
  function ActivityRows(a: ActivitySlots): (r: seq<Row>)
    ensures 7 <= |r| <= 10
    ensures forall i :: 0 <= i < |r| ==> r[i].FieldRow?
  {
    ActivityCellCount(a);
    var cs := ActivityCells(a, SlotOrder);
    seq(|cs|, i requires 0 <= i < |cs| => FieldRow(ActivityLabel(cs[i].0), cs[i].1))
  }

  /** `DocumentContent`. */
  function Render(p: PartialPlan): (d: Document)
    ensures d.schoolLine == Heading(p.schoolName, "Name of School")
    ensures d.addressLine == Heading(p.schoolAddress, "School Address")
    ensures |d.sections| == 4
    ensures d.sections[0].title == "Teacher Introduction"
    ensures d.sections[1].title == "Lesson Introduction"
    ensures d.sections[2].title == "Instructional Design"
    ensures d.sections[3].title == "Teaching Learning Activity"
  {
    Document(
      Heading(p.schoolName, "Name of School"),
      Heading(p.schoolAddress, "School Address"),
      [Section("Teacher Introduction", TeacherRows(p)),
       Section("Lesson Introduction", [DetailsRow(LessonDetails(p))]),
       Section("Instructional Design", DesignRows(p)),
       Section("Teaching Learning Activity", ActivityRows(p.activities))])
  }

  /** The cell a required row shows for `value`. */
  function RequiredCell(value: Option<string>): Cell {
    if IsEmptyHtml(value) then EmptyMarker else Shown(value.value)
  }

  /** The first three sections never omit a row: two rows, the details grid,
      two rows, each required row marked `[Empty]` exactly when its value is
      empty. */
  lemma FixedSections(p: PartialPlan)
    ensures var d := Render(p);
      && d.sections[0].rows == [FieldRow("Teacher\U{2019}s Name", RequiredCell(p.teacherName)),
                               FieldRow("Designation", RequiredCell(p.teacherDesignation))]
      && d.sections[1].rows == [DetailsRow(LessonDetails(p))]
      && d.sections[2].rows == [FieldRow("Learning Outcomes", RequiredCell(p.learningOutcomes)),
                               FieldRow("Teaching Aids", RequiredCell(p.teachingAids))]
  {
  }

  /** The grid shows exactly the six lesson-detail fields, each under its
      label with its value or `N/A`, never a blank. */
  lemma DetailsNeverBlank(p: PartialPlan)
    ensures forall f :: f in DetailOrder <==> IsDetailField(f)
    ensures |LessonDetails(p)| == |DetailOrder| == |DetailLabels|
    ensures forall i :: 0 <= i < |DetailOrder| ==>
      var v := FieldValue(p, DetailOrder[i]);
      LessonDetails(p)[i] == (DetailLabels[i], if Truthy(v) then v.value else "N/A")
    ensures forall i :: 0 <= i < |DetailOrder| ==> LessonDetails(p)[i].1 != ""
  {
    forall i | 0 <= i < |DetailOrder|
      ensures LessonDetails(p)[i].1 == DetailText(FieldValue(p, DetailOrder[i]))
    {
      if i == 0 {} else if i == 1 {} else if i == 2 {} else if i == 3 {} else if i == 4 {} else {}
    }
  }

  /** The activity section shows exactly the activity rows, in order. */
  lemma ActivitySectionRows(p: PartialPlan)
    ensures var cs := ActivityCells(p.activities, SlotOrder);
      var rows := Render(p).sections[3].rows;
      && |rows| == |cs|
      && forall i :: 0 <= i < |cs| ==> rows[i] == FieldRow(ActivityLabel(cs[i].0), cs[i].1)
  {
  }

  /** The whole table, header rows included, has between sixteen and
      nineteen rows: only the three optional slots can be left out. */
  lemma TableSize(p: PartialPlan)
    ensures var d := Render(p);
      var n := 4 + |d.sections[0].rows| + |d.sections[1].rows| + |d.sections[2].rows| + |d.sections[3].rows|;
      16 <= n <= 19
  {
  }

  /** Between seven and ten of the ten slots have a cell. */
  lemma ActivityCellCount(a: ActivitySlots)
    ensures 7 <= |ActivityCells(a, SlotOrder)| <= 10
  {
    RequiredSlotsAlwaysShown(a, SlotOrder);
    OptionalSlotCount();
  }

  /** Three of the ten slots are optional. */
  lemma OptionalSlotCount()
    ensures OptionalCount(SlotOrder) == 3
  {
    var o := SlotOrder;
    assert OptionalCount(o[10..]) == 0;
    assert OptionalCount(o[9..]) == 0;
    assert OptionalCount(o[8..]) == 0;
    assert OptionalCount(o[7..]) == 0;
    assert OptionalCount(o[6..]) == 1;
    assert OptionalCount(o[5..]) == 1;
    assert OptionalCount(o[4..]) == 1;
    assert OptionalCount(o[3..]) == 1;
    assert OptionalCount(o[2..]) == 2;
    assert OptionalCount(o[1..]) == 3;
  }

  // ---------------------------------------------------------------------
  // Export

  const PdfPrefix: string := "Lesson_Plan_"
  const PdfSuffix: string := ".pdf"

  /** `` `Lesson_Plan_${plan.topic || 'Export'}.pdf` ``. */
  function PdfFileName(topic: Option<string>): (r: string)
    ensures PdfPrefix <= r && |r| >= |PdfPrefix| + |PdfSuffix|
    ensures r[|r| - |PdfSuffix|..] == PdfSuffix
  {
    PdfPrefix + (if Truthy(topic) then topic.value else "Export") + PdfSuffix
  }

  /** The name part of an exported file name. */
  function FileTopic(name: string): string
    requires |name| >= |PdfPrefix| + |PdfSuffix|
  {
    name[|PdfPrefix|..|name| - |PdfSuffix|]
  }

  /** The file name can be read back: its name part is the topic, or
      `Export` when there is none. */
  lemma PdfFileNameReadsBack(topic: Option<string>)
    ensures FileTopic(PdfFileName(topic)) == if Truthy(topic) then topic.value else "Export"
  {
    var t := if Truthy(topic) then topic.value else "Export";
    assert PdfFileName(topic) == PdfPrefix + t + PdfSuffix;
  }
}
