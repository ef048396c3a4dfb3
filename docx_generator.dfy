/**
 * The document generator (services/docxGenerator.ts): turns the ordered
 * diary entries into the paragraphs of the Word document and names the file.
 *
 * Paragraphs are abstract: their text and role, not their fonts, sizes,
 * spacing or borders.
 */
module DocxGenerator {
  import opened Strings
  import opened Helpers
  import opened Types

  /** The title of an entry block. */
  datatype Title = DoctorExam | HeadOfDeptExam

  /** The bold caption in front of one of the four text fields of an entry. */
  datatype Caption = Complaints | Objective | LocalStatus | Recommendations

  /** Who signs a signature line. */
  datatype Role = AttendingDoctor | HeadOfDept

  /**
   * A paragraph of the document, by its role; `Text` gives the words it shows.
   * Fonts, sizes, spacing, tab stops and borders are not modelled.
   */
  datatype Paragraph =
    | DocumentTitle                          // the centred title of the document
    | PatientLine(fullName: string)          // "Пациент: ..."
    | DiagnosisLine(diagnosis: string)       // "Диагноз: ..."
    | EntryHeading(title: Title)             // the heading of an entry block
    | DateTime(date: Day, time: string)      // "Дата: ...  Время: ..."
    | Field(caption: Caption, text: string)  // a bold caption followed by its text
    | Signature(role: Role, name: string)    // "role: name" and a line to sign on
    | Separator                              // the ruled line closing an entry
    | WeekendNote(days: seq<Day>)            // the summary line of a run of weekend days

  datatype Document = Document(paragraphs: seq<Paragraph>, fileName: string)

  function TitleText(t: Title): string {
    match t
    case DoctorExam => "Осмотр лечащего врача"
    case HeadOfDeptExam => "Осмотр лечащего врача с заведующим отделением"
  }

  function CaptionText(c: Caption): string {
    match c
    case Complaints => "Жалобы: "
    case Objective => "Объективно: "
    case LocalStatus => "St. localis: "
    case Recommendations => "Назначения: "
  }

  function RoleText(r: Role): string {
    match r
    case AttendingDoctor => "Лечащий врач"
    case HeadOfDept => "Зав. отделением"
  }

  const WeekendText := " – Выходные дни. Пациент под наблюдением дежурного персонала. Состояние стабильное. Жалоб нет. Гемодинамика стабильная."

  /** The words a paragraph shows, its text runs joined in order. */
  function Text(p: Paragraph): string {
    match p
    case DocumentTitle => "ДНЕВНИКИ НАБЛЮДЕНИЯ"
    case PatientLine(name) => "Пациент: " + name
    case DiagnosisLine(diagnosis) => "Диагноз: " + diagnosis
    case EntryHeading(t) => TitleText(t)
    case DateTime(date, time) => "Дата: " + FormatDate(date) + "\tВремя: " + time
    case Field(c, text) => CaptionText(c) + text
    case Signature(r, name) => RoleText(r) + ": " + name + "\t\t___________________"
    case Separator => " "
    case WeekendNote(days) => (if days == [] then "" else RunDateText(days)) + WeekendText
  }

  /** The dates of some entries, in order. */
  function Dates(es: seq<DiaryEntry>): (ds: seq<Day>)
    ensures |ds| == |es| && forall i :: 0 <= i < |es| ==> ds[i] == es[i].date
  {
    if es == [] then [] else [es[0].date] + Dates(es[1..])
  }

  /** The three paragraphs that open the document: its title, the patient and the diagnosis. */
  function Header(data: PatientData): seq<Paragraph> {
    [DocumentTitle, PatientLine(data.fullName), DiagnosisLine(data.diagnosis)]
  }

  // ---------------------------------------------------------------------
  // createEntryBlock

  /** How JavaScript prints a temperature held in tenths: `36.5`, or `37` when the tenths are zero. */
  function TemperatureText(tenths: int): string {
    var a := if tenths < 0 then -tenths else tenths;
    var digits := NatToString(a / 10) + (if a % 10 == 0 then "" else "." + [DigitChar(a % 10)]);
    if tenths < 0 then "-" + digits else digits
  }

  /** A generated temperature, 36.2 to 36.8 degrees, prints as `36.` and its tenth. */
  lemma TemperatureTextGenerated(tenths: int)
    requires 362 <= tenths <= 368
    ensures TemperatureText(tenths) == "36." + [DigitChar(tenths - 360)]
  {
    assert NatToString(36) == "36";
  }

  /** The vital signs sentence appended to the objective status. */
  function VitalsText(e: DiaryEntry): string {
    "ЧД: " + IntToString(e.respiratoryRate) + "/мин. Пульс: " + IntToString(e.heartRate)
    + "/мин. АД: " + e.bloodPressure + " мм.рт.ст. t: " + TemperatureText(e.temperature) + "°C."
  }

  /** The objective status as rendered: the entry's own text, a space, and the vital signs sentence. */
  function ObjectiveText(e: DiaryEntry): string {
    e.objectiveStatus + " " + VitalsText(e)
  }

  /** The title of an entry's block: with the head of department on an inspection day. */
  function TitleOf(e: DiaryEntry): Title {
    if e.isHeadOfDeptInspection then HeadOfDeptExam else DoctorExam
  }

  /**
   * `createEntryBlock`: the heading, the date and time, the complaints, the
   * objective status with the vital signs, the local status, the
   * recommendations, the doctor's signature line, the head of department's
   * on an inspection day, and a separator.
   */
  function EntryBlock(e: DiaryEntry, doctorName: string, headOfDeptName: string): seq<Paragraph> {
    EntryFields(e) + SignatureLines(e.isHeadOfDeptInspection, doctorName, headOfDeptName) + [Separator]
  }

  /**
   * An entry block has eight paragraphs, nine on an inspection day: the
   * title, the objective status with the vital signs, the doctor's signature
   * line, the head of department's on an inspection day, and the separator
   * last.
   */
  lemma EntryBlockShape(e: DiaryEntry, doctorName: string, headOfDeptName: string)
    ensures var ps := EntryBlock(e, doctorName, headOfDeptName);
            && |ps| == (if e.isHeadOfDeptInspection then 9 else 8)
            && ps[0] == EntryHeading(TitleOf(e)) && ps[3] == Field(Objective, ObjectiveText(e))
            && ps[6] == Signature(AttendingDoctor, doctorName)
            && (e.isHeadOfDeptInspection ==> ps[7] == Signature(HeadOfDept, headOfDeptName))
            && SignatureCount(ps) == (if e.isHeadOfDeptInspection then 2 else 1)
            && ps[|ps| - 1] == Separator
  {
    var fields := EntryFields(e);
    var signatures := SignatureLines(e.isHeadOfDeptInspection, doctorName, headOfDeptName);
    NoSignatures(fields);
    NoSignatures([Separator]);
    SignatureCountAppend(fields, signatures);
    SignatureCountAppend(fields + signatures, [Separator]);
  }

  /** The heading, the date and time, and the four text fields of an entry. */
  function EntryFields(e: DiaryEntry): (fs: seq<Paragraph>)
    ensures |fs| == 6 && forall i :: 0 <= i < |fs| ==> !fs[i].Signature?
  {
    [EntryHeading(TitleOf(e)),
     DateTime(e.date, e.time),
     Field(Complaints, e.complaints),
     Field(Objective, ObjectiveText(e)),
     Field(LocalStatus, e.localStatus),
     Field(Recommendations, e.recommendations)]
  }

  /** The doctor's signature line, and the head of department's on an inspection day. */
  function SignatureLines(inspection: bool, doctorName: string, headOfDeptName: string): (ss: seq<Paragraph>)
    ensures |ss| == SignatureCount(ss) == if inspection then 2 else 1
    ensures ss[0] == Signature(AttendingDoctor, doctorName)
    ensures inspection ==> ss[1] == Signature(HeadOfDept, headOfDeptName)
  {
    var doctor := [Signature(AttendingDoctor, doctorName)];
    assert SignatureCount(doctor) == 1 by { assert doctor[1..] == []; }
    if inspection then
      var head := [Signature(HeadOfDept, headOfDeptName)];
      assert SignatureCount(head) == 1 by { assert head[1..] == []; }
      SignatureCountAppend(doctor, head);
      doctor + head
    else doctor
  }

  /** The number of signature lines among some paragraphs. */
  function SignatureCount(ps: seq<Paragraph>): nat {
    if ps == [] then 0 else (if ps[0].Signature? then 1 else 0) + SignatureCount(ps[1..])
  }

  lemma {:induction false} SignatureCountAppend(a: seq<Paragraph>, b: seq<Paragraph>)
    ensures SignatureCount(a + b) == SignatureCount(a) + SignatureCount(b)
  {
    if a == [] {
      assert a + b == b;
    } else {
      assert (a + b)[1..] == a[1..] + b;
      SignatureCountAppend(a[1..], b);
    }
  }

  lemma {:induction false} NoSignatures(ps: seq<Paragraph>)
    requires forall i :: 0 <= i < |ps| ==> !ps[i].Signature?
    ensures SignatureCount(ps) == 0
  {
    if ps != [] {
      NoSignatures(ps[1..]);
    }
  }

  // ---------------------------------------------------------------------
  // Weekend runs

  /** A group of consecutive entries that the document shows as one unit. */
  datatype Group =
    | WeekendRun(run: seq<DiaryEntry>)   // a maximal run of weekend entries: one summary line
    | Single(entry: DiaryEntry)          // a clinical entry: one entry block
  {
    /** The entries the group holds. */
    function Entries(): seq<DiaryEntry> {
      match this
      case WeekendRun(run) => run
      case Single(e) => [e]
    }
  }

  predicate AllWeekend(es: seq<DiaryEntry>) {
    forall i :: 0 <= i < |es| ==> es[i].isWeekend
  }

  /** The length of the run of weekend entries that `es` begins with. */
  function WeekendPrefix(es: seq<DiaryEntry>): (n: nat)
    ensures n <= |es| && AllWeekend(es[..n])
    ensures n < |es| ==> !es[n].isWeekend
    ensures es != [] && es[0].isWeekend ==> n >= 1
  {
    if es == [] || !es[0].isWeekend then 0 else 1 + WeekendPrefix(es[1..])
  }

  /**
   * The entries split into groups: each maximal run of weekend entries is one
   * group, every other entry a group of its own.
   */
  function Groups(es: seq<DiaryEntry>): seq<Group>
    decreases |es|
  {
    if es == [] then []
    else if !es[0].isWeekend then [Single(es[0])] + Groups(es[1..])
    else
      var n := WeekendPrefix(es);
      [WeekendRun(es[..n])] + Groups(es[n..])
  }

  /** A group as `Groups` forms it: a non-empty run of weekend entries, or one clinical entry. */
  predicate GroupOk(g: Group) {
    match g
    case WeekendRun(run) => run != [] && AllWeekend(run)
    case Single(e) => !e.isWeekend
  }

  /**
   * The groups are well formed, the first is a single exactly when the
   * first entry is clinical, and no two weekend runs are adjacent: every
   * run is maximal.
   */
  lemma {:induction false} GroupsShape(es: seq<DiaryEntry>)
    ensures var gs := Groups(es);
            && (forall g :: g in gs ==> GroupOk(g))
            && (es != [] ==> gs != [] && (gs[0].Single? <==> !es[0].isWeekend))
            && (forall i :: 0 <= i < |gs| - 1 ==> !(gs[i].WeekendRun? && gs[i + 1].WeekendRun?))
    decreases |es|
  {
    if es != [] {
      var gs := Groups(es);
      if !es[0].isWeekend {
        GroupsShape(es[1..]);
        assert gs == [Single(es[0])] + Groups(es[1..]);
      } else {
        var n := WeekendPrefix(es);
        GroupsShape(es[n..]);
        assert gs == [WeekendRun(es[..n])] + Groups(es[n..]);
        assert es[n..] != [] ==> es[n..][0] == es[n];
      }
    }
  }

  /** The entries of the groups, in order. */
  function Flatten(gs: seq<Group>): seq<DiaryEntry> {
    if gs == [] then []
    else gs[0].Entries() + Flatten(gs[1..])
  }

  lemma {:induction false} FlattenCons(g: Group, gs: seq<Group>)
    ensures Flatten([g] + gs) == g.Entries() + Flatten(gs)
  {
    assert ([g] + gs)[1..] == gs;
  }

  /** Grouping loses, adds and reorders nothing: the groups hold the entries in their order. */
  lemma {:induction false} FlattenGroups(es: seq<DiaryEntry>)
    ensures Flatten(Groups(es)) == es
    decreases |es|
  {
    if es != [] {
      var n := if es[0].isWeekend then WeekendPrefix(es) else 1;
      var head := if es[0].isWeekend then WeekendRun(es[..n]) else Single(es[0]);
      assert Groups(es) == [head] + Groups(es[n..]);
      assert head.Entries() == es[..n];
      FlattenGroups(es[n..]);
      FlattenCons(head, Groups(es[n..]));
      assert es[..n] + es[n..] == es;
    }
  }

  /** The number of clinical entries, which the document shows one block each. */
  function CountClinical(es: seq<DiaryEntry>): nat {
    if es == [] then 0 else (if es[0].isWeekend then 0 else 1) + CountClinical(es[1..])
  }

  function CountSingles(gs: seq<Group>): nat {
    if gs == [] then 0 else (if gs[0].Single? then 1 else 0) + CountSingles(gs[1..])
  }

  lemma {:induction false} CountClinicalWeekendRun(es: seq<DiaryEntry>, n: nat)
    requires n <= |es| && AllWeekend(es[..n])
    ensures CountClinical(es) == CountClinical(es[n..])
  {
    if n > 0 {
      assert es[1..][..n - 1] == es[1..n];
      CountClinicalWeekendRun(es[1..], n - 1);
      assert es[1..][n - 1..] == es[n..];
    }
  }

  /** Every clinical entry gets exactly one entry block. */
  lemma {:induction false} SinglesAreClinical(es: seq<DiaryEntry>)
    ensures CountSingles(Groups(es)) == CountClinical(es)
    decreases |es|
  {
    if es != [] {
      var gs := Groups(es);
      if !es[0].isWeekend {
        assert gs[1..] == Groups(es[1..]);
        SinglesAreClinical(es[1..]);
      } else {
        var n := WeekendPrefix(es);
        assert gs[1..] == Groups(es[n..]);
        SinglesAreClinical(es[n..]);
        CountClinicalWeekendRun(es, n);
      }
    }
  }

  /** No three entries in a row are weekend entries. */
  predicate NoThreeWeekendsInARow(es: seq<DiaryEntry>) {
    forall i :: 0 <= i && i + 2 < |es| ==> !(es[i].isWeekend && es[i + 1].isWeekend && es[i + 2].isWeekend)
  }

  /** When no three weekend entries are adjacent, the leading weekend run has at most two entries. */
  lemma WeekendPrefixShort(es: seq<DiaryEntry>)
    requires NoThreeWeekendsInARow(es)
    ensures WeekendPrefix(es) <= 2
  {
    if |es| > 1 && es[0].isWeekend && es[1].isWeekend {
      assert es[1..][0] == es[1];
      if |es| > 2 {
        assert !es[2].isWeekend;
        assert es[1..][1..] == es[2..] && es[2..][0] == es[2];
      } else {
        assert es[1..][1..] == [];
      }
    } else if |es| > 1 && es[0].isWeekend {
      assert es[1..][0] == es[1];
    }
  }

  /** When no three weekend entries are adjacent, every weekend summary covers one or two entries. */
  lemma {:induction false} WeekendRunsShort(es: seq<DiaryEntry>)
    requires NoThreeWeekendsInARow(es)
    ensures forall g :: g in Groups(es) && g.WeekendRun? ==> |g.run| <= 2
    decreases |es|
  {
    if es != [] {
      var gs := Groups(es);
      if !es[0].isWeekend {
        assert gs[1..] == Groups(es[1..]);
        WeekendRunsShort(es[1..]);
        assert forall g :: g in gs ==> g == gs[0] || g in gs[1..];
      } else {
        var n := WeekendPrefix(es);
        WeekendPrefixShort(es);
        assert gs[1..] == Groups(es[n..]);
        WeekendRunsShort(es[n..]);
        assert forall g :: g in gs ==> g == gs[0] || g in gs[1..];
      }
    }
  }

  lemma GroupsOfWeekendRun(run: seq<DiaryEntry>)
    requires run != [] && AllWeekend(run)
    ensures Groups(run) == [WeekendRun(run)]
  {
    WeekendPrefixAll(run);
    assert run[..|run|] == run;
    assert run[|run|..] == [];
  }

  lemma {:induction false} WeekendPrefixAll(run: seq<DiaryEntry>)
    requires AllWeekend(run)
    ensures WeekendPrefix(run) == |run|
  {
    if run != [] {
      WeekendPrefixAll(run[1..]);
    }
  }

  // ---------------------------------------------------------------------
  // The date text of a weekend summary

  /**
   * The date text of a weekend run AS WRITTEN: one date as `DD.MM.YYYY`; two or
   * more as `firstDay-lastDay.MM.YYYY`, the month and year taken from the
   * first date only.
   */
  function RunDateTextAsWritten(days: seq<Day>): string
    requires days != []
  {
    if |days| == 1 then FormatDate(days[0])
    else RangeTextAsWritten(CivilFromDays(days[0]), CivilFromDays(days[|days| - 1]))
  }

  /**
   * `firstDay-lastDay.MM.YYYY`: the first day, a dash, and then the last day
   * written under the first date's month and year.
   */
  function RangeTextAsWritten(first: Civil, last: Civil): string {
    PadStart2(IntToString(first.day)) + "-" + FormatCivil(Civil(first.year, first.month, last.day))
  }

  /**
   * The date text of a weekend run, corrected: a single day as `DD.MM.YYYY`;
   * a run within one month as written, `firstDay-DD.MM.YYYY`; a run that
   * crosses into another month or year as both full dates.
   */
  function RunDateText(days: seq<Day>): (s: string)
    requires days != []
    ensures |days| == 1 ==> s == FormatDate(days[0])
    ensures var t := FormatDate(days[|days| - 1]); |t| <= |s| && s[|s| - |t|..] == t
    ensures var f := FormatDate(days[0]); |f| >= 2 && |s| >= 2 && s[..2] == f[..2]
  {
    var first, last := CivilFromDays(days[0]), CivilFromDays(days[|days| - 1]);
    FormatCivilFields(first);
    if |days| == 1 then FormatDate(days[0])
    else
      RangeTextFacts(first, last);
      RangeText(first, last)
  }

  function RangeText(first: Civil, last: Civil): string {
    if first.month == last.month && first.year == last.year then
      PadStart2(IntToString(first.day)) + "-" + FormatCivil(last)
    else
      FormatCivil(first) + "-" + FormatCivil(last)
  }

  /**
   * The words of a weekend summary: the run's date text, ending with the
   * last date in full and beginning with the first day's digits, then the
   * weekend sentence; a single day is its date in full.
   */
  lemma WeekendNoteText(days: seq<Day>)
    requires days != []
    ensures var t, l, f := Text(WeekendNote(days)), FormatDate(days[|days| - 1]), FormatDate(days[0]);
            && |t| >= |l| + |WeekendText| && t[|t| - |WeekendText|..] == WeekendText
            && t[|t| - |WeekendText| - |l|..|t| - |WeekendText|] == l
            && |f| >= 2 && t[..2] == f[..2]
            && (|days| == 1 ==> t == f + WeekendText)
  {
    var d := RunDateText(days);
    var t := Text(WeekendNote(days));
    assert t == d + WeekendText;
    assert t[..|d|] == d;
  }

  /**
   * The corrected range text shows the last date in full and begins with the
   * first date's day; across a month boundary it also shows the first date in full.
   */
  lemma RangeTextFacts(first: Civil, last: Civil)
    requires 1 <= first.month <= 12 && 1 <= first.day <= 31
    requires 1 <= last.month <= 12 && 1 <= last.day <= 31
    ensures var s, t, f := RangeText(first, last), FormatCivil(last), FormatCivil(first);
            |t| <= |s| && s[|s| - |t|..] == t && |f| >= 2 && |s| >= 2 && s[..2] == f[..2]
            && (first.month != last.month || first.year != last.year ==> s[..|f|] == f)
  {
    FormatCivilFields(first);
    FormatCivilFields(last);
    TwoDigits(first.day);
  }


  /** Within one month the text as written and the corrected text agree. */
  lemma RangeTextWithinMonth(first: Civil, last: Civil)
    requires first.month == last.month && first.year == last.year
    ensures RangeTextAsWritten(first, last) == RangeText(first, last)
  {
  }

  /** Day 19966 is Saturday 2024-08-31. */
  lemma Saturday20240831()
    ensures IsWeekend(19966) && CivilFromDays(19966) == Civil(2024, 8, 31)
  {
    assert (19966 + 719468) / 146097 == 5 && (19966 + 719468) % 146097 == 8949;
    assert 8949 / 1461 == 6;
    assert (5 * 183 + 2) / 153 == 5 && (153 * 5 + 2) / 5 == 153;
  }

  /** Day 19967 is Sunday 2024-09-01. */
  lemma Sunday20240901()
    ensures IsWeekend(19967) && CivilFromDays(19967) == Civil(2024, 9, 1)
  {
    assert (19967 + 719468) / 146097 == 5 && (19967 + 719468) % 146097 == 8950;
    assert 8950 / 1461 == 6;
    assert (5 * 184 + 2) / 153 == 6 && (153 * 6 + 2) / 5 == 184;
  }

  lemma Year2024Text()
    ensures IntToString(2024) == "2024"
  {
    assert NatToString(2) == "2";
    assert NatToString(20) == "20";
    assert NatToString(202) == "202";
  }

  lemma August31Text()
    ensures FormatCivil(Civil(2024, 8, 31)) == "31.08.2024"
  {
    Year2024Text();
    assert NatToString(31) == "31" && NatToString(8) == "8";
  }

  lemma September1Text()
    ensures FormatCivil(Civil(2024, 9, 1)) == "01.09.2024"
  {
    Year2024Text();
    assert NatToString(1) == "1" && NatToString(9) == "9";
  }

  /**
   * As written, a run whose first and last days lie in different months of
   * the same year never ends with the last date: its month field is the
   * first date's month.
   */
  lemma RangeTextAsWrittenMisdatesLast(first: Civil, last: Civil)
    requires 1 <= first.month <= 12 && 1 <= first.day <= 31
    requires 1 <= last.month <= 12 && 1 <= last.day <= 31
    requires first.year == last.year && first.month != last.month
    ensures var s, t := RangeTextAsWritten(first, last), FormatCivil(last);
            |t| <= |s| && s[|s| - |t|..] != t
  {
    var m := Civil(first.year, first.month, last.day);
    var dd := PadStart2(IntToString(first.day));
    var s, t := RangeTextAsWritten(first, last), FormatCivil(last);
    FormatCivilFields(m);
    FormatCivilFields(last);
    assert s[|s| - |t|..] == FormatCivil(m);
    assert FormatCivil(m)[3..5] != t[3..5];
  }

  lemma DayText31()
    ensures PadStart2(IntToString(31)) == "31"
  {
    assert NatToString(3) == "3";
  }

  lemma August1Text()
    ensures FormatCivil(Civil(2024, 8, 1)) == "01.08.2024"
  {
    Year2024Text();
    assert NatToString(1) == "1" && NatToString(8) == "8";
  }

  lemma AugustRangeTextAsWritten()
    ensures RangeTextAsWritten(Civil(2024, 8, 31), Civil(2024, 9, 1)) == "31-01.08.2024"
  {
    DayText31();
    August1Text();
  }

  lemma AugustRangeText()
    ensures RangeText(Civil(2024, 8, 31), Civil(2024, 9, 1)) == "31.08.2024-01.09.2024"
  {
    August31Text();
    September1Text();
  }

  /**
   * The Saturday-Sunday run 31.08.2024-01.09.2024: as written its text is
   * `31-01.08.2024`, which dates the Sunday in August; the corrected text
   * names both dates.
   */
  lemma RunDateTextAsWrittenMisdatesSunday()
    ensures FormatDate(19966) == "31.08.2024" && FormatDate(19967) == "01.09.2024"
    ensures RunDateTextAsWritten([19966, 19967]) == "31-01.08.2024"
    ensures RunDateText([19966, 19967]) == "31.08.2024-01.09.2024"
  {
    Saturday20240831();
    Sunday20240901();
    August31Text();
    September1Text();
    AugustRangeTextAsWritten();
    AugustRangeText();
  }

  // ---------------------------------------------------------------------
  // generateDocx

  /** The paragraphs of one group: one summary line for a weekend run, an entry block for a clinical entry. */
  function RenderGroup(g: Group, data: PatientData): seq<Paragraph> {
    match g
    case WeekendRun(run) => [WeekendNote(Dates(run))]
    case Single(e) => EntryBlock(e, data.doctorName, data.headOfDeptName)
  }

  function RenderGroups(gs: seq<Group>, data: PatientData): seq<Paragraph> {
    if gs == [] then [] else RenderGroup(gs[0], data) + RenderGroups(gs[1..], data)
  }

  lemma {:induction false} RenderGroupsAppend(a: seq<Group>, b: seq<Group>, data: PatientData)
    ensures RenderGroups(a + b, data) == RenderGroups(a, data) + RenderGroups(b, data)
  {
    if a == [] {
      assert a + b == b;
    } else {
      assert (a + b)[1..] == a[1..] + b;
      RenderGroupsAppend(a[1..], b, data);
    }
  }

  /** The entries from a clinical entry on: that entry's own group, then the groups of the rest. */
  lemma GroupsFromClinical(entries: seq<DiaryEntry>, i: nat)
    requires i < |entries| && !entries[i].isWeekend
    ensures Groups(entries[i..]) == [Single(entries[i])] + Groups(entries[i + 1..])
  {
    assert entries[i..][1..] == entries[i + 1..];
  }

  /** The entries from a maximal run of weekend entries on: the run's group, then the groups of the rest. */
  lemma GroupsFromWeekendRun(entries: seq<DiaryEntry>, start: nat, i: nat)
    requires start <= i < |entries| && AllWeekend(entries[start..i + 1])
    requires i + 1 == |entries| || !entries[i + 1].isWeekend
    ensures Groups(entries[start..]) == [WeekendRun(entries[start..i + 1])] + Groups(entries[i + 1..])
  {
    var es := entries[start..];
    var n := i + 1 - start;
    assert es[..n] == entries[start..i + 1];
    assert es[n..] == entries[i + 1..];
    WeekendPrefixExact(es, n);
  }

  /** The weekend run that `es` begins with is exactly the first `n` entries when the `n`-th is not a weekend entry. */
  lemma {:induction false} WeekendPrefixExact(es: seq<DiaryEntry>, n: nat)
    requires n <= |es| && AllWeekend(es[..n]) && (n == |es| || !es[n].isWeekend)
    ensures WeekendPrefix(es) == n
  {
    if n > 0 {
      assert es[..n][0] == es[0];
      assert es[1..][..n - 1] == es[1..n];
      WeekendPrefixExact(es[1..], n - 1);
    }
  }

  /** Rendering a group followed by more groups. */
  lemma RenderGroupsCons(g: Group, gs: seq<Group>, data: PatientData)
    ensures RenderGroups([g] + gs, data) == RenderGroup(g, data) + RenderGroups(gs, data)
  {
    assert ([g] + gs)[1..] == gs;
  }

  /** The downloaded file's name: `Дневник_`, the full name with each whitespace run made `_`, `.docx`. */
  function FileName(fullName: string): (name: string)
    ensures |name| == 13 + |ReplaceSpaceRuns(fullName)|
    ensures name[..8] == "Дневник_" && name[|name| - 5..] == ".docx"
    ensures NoSpace(name)
  {
    "Дневник_" + ReplaceSpaceRuns(fullName) + ".docx"
  }

  /** The whole document for the entries. */
  function DocumentOf(data: PatientData, entries: seq<DiaryEntry>): Document {
    Document(Header(data) + RenderGroups(Groups(entries), data), FileName(data.fullName))
  }

  /** The paragraphs written so far, followed by those of the entries from `done` on, make the whole document body. */
  ghost predicate Rendered(docChildren: seq<Paragraph>, entries: seq<DiaryEntry>, done: nat, data: PatientData)
    requires done <= |entries|
  {
    docChildren + RenderGroups(Groups(entries[done..]), data) == Header(data) + RenderGroups(Groups(entries), data)
  }

  /** `run` holds the entries from `start` up to `i`, all of them weekend entries. */
  ghost predicate BufferOf(run: seq<DiaryEntry>, entries: seq<DiaryEntry>, start: nat, i: nat) {
    start + |run| == i <= |entries| &&
    forall k :: 0 <= k < |run| ==> run[k] == entries[start + k] && run[k].isWeekend
  }

  lemma RenderedStart(entries: seq<DiaryEntry>, data: PatientData)
    ensures Rendered(Header(data), entries, 0, data)
  {
    assert entries[0..] == entries;
  }

  lemma RenderedAll(docChildren: seq<Paragraph>, entries: seq<DiaryEntry>, data: PatientData)
    requires Rendered(docChildren, entries, |entries|, data)
    ensures docChildren == Header(data) + RenderGroups(Groups(entries), data)
  {
    assert entries[|entries|..] == [];
  }

  lemma BufferExtend(run: seq<DiaryEntry>, entries: seq<DiaryEntry>, start: nat, i: nat)
    requires BufferOf(run, entries, start, i) && i < |entries| && entries[i].isWeekend
    ensures BufferOf(run + [entries[i]], entries, start, i + 1)
  {
  }

  lemma ClinicalStep(docChildren: seq<Paragraph>, entries: seq<DiaryEntry>, i: nat, data: PatientData)
    requires i < |entries| && !entries[i].isWeekend && Rendered(docChildren, entries, i, data)
    ensures Rendered(docChildren + EntryBlock(entries[i], data.doctorName, data.headOfDeptName), entries, i + 1, data)
  {
    GroupsFromClinical(entries, i);
    var block := EntryBlock(entries[i], data.doctorName, data.headOfDeptName);
    RenderGroupsCons(Single(entries[i]), Groups(entries[i + 1..]), data);
    ConcatAssoc(docChildren, block, RenderGroups(Groups(entries[i + 1..]), data));
  }

  lemma WeekendStep(docChildren: seq<Paragraph>, entries: seq<DiaryEntry>, start: nat, i: nat, run: seq<DiaryEntry>, data: PatientData)
    requires BufferOf(run, entries, start, i + 1) && run != [] && i < |entries|
    requires i + 1 == |entries| || !entries[i + 1].isWeekend
    requires Rendered(docChildren, entries, start, data)
    ensures Rendered(docChildren + [WeekendNote(Dates(run))], entries, i + 1, data)
  {
    assert run == entries[start..i + 1];
    GroupsFromWeekendRun(entries, start, i);
    var note := [WeekendNote(Dates(run))];
    RenderGroupsCons(WeekendRun(run), Groups(entries[i + 1..]), data);
    ConcatAssoc(docChildren, note, RenderGroups(Groups(entries[i + 1..]), data));
  }

  /**
   * `generateDocx`: the title paragraphs, then one pass over the entries that
   * buffers weekend entries and writes one summary when the run ends, and
   * writes an entry block for every other entry.
   */
  method GenerateDocx(data: PatientData, entries: seq<DiaryEntry>) returns (doc: Document)
    ensures doc == DocumentOf(data, entries)
  {
    var docChildren := Header(data);
    var weekendBuffer: seq<DiaryEntry> := [];
    ghost var done := 0;   // the entries before the buffer are rendered
    RenderedStart(entries, data);
    for i := 0 to |entries|
      invariant BufferOf(weekendBuffer, entries, done, i)
      invariant weekendBuffer != [] ==> i < |entries| && entries[i].isWeekend
      invariant Rendered(docChildren, entries, done, data)
    {
      var entry := entries[i];
      if entry.isWeekend {
        BufferExtend(weekendBuffer, entries, done, i);
        weekendBuffer := weekendBuffer + [entry];
        if i + 1 == |entries| || !entries[i + 1].isWeekend {
          WeekendStep(docChildren, entries, done, i, weekendBuffer, data);
          docChildren := docChildren + [WeekendNote(Dates(weekendBuffer))];
          weekendBuffer := [];
          done := i + 1;
        }
      } else {
        ClinicalStep(docChildren, entries, i, data);
        docChildren := docChildren + EntryBlock(entry, data.doctorName, data.headOfDeptName);
        done := i + 1;
      }
    }
    RenderedAll(docChildren, entries, data);
    doc := Document(docChildren, FileName(data.fullName));
  }
}
