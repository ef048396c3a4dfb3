/**
 * The diary generation of the application (App.tsx, `handleGenerate`): the
 * validation of the form, the choice of template per day, and the pass over
 * the stay that writes one entry per day (two on a weekday surgery date).
 *
 * The three templates come from the narrative provider and are inputs here;
 * `Math.random()` is the oracle `rng`, read from the cursor `k` on.
 */
module App {
  import opened Wrappers
  import opened Strings
  import opened Helpers
  import opened Types
  import opened DocxGenerator

  // ---------------------------------------------------------------------
  // Validation

  /**
   * The reasons `handleGenerate` stops with an alert: a failed check of the
   * form, or an error caught while generating, with its message.
   */
  datatype Alert = MissingFields | StartAfterEnd | SurgeryOutOfRange | SurgeryDateMissing | GenerationFailed(message: string)

  /** The message of the error thrown when the provider returns nothing. */
  const NullReplyMessage := "AI не вернул данные."

  /** The text of the alert shown. */
  function AlertText(a: Alert): string {
    match a
    case MissingFields => "Пожалуйста, заполните основные поля (ФИО, Даты, Диагноз)."
    case StartAfterEnd => "Ошибка: Дата поступления не может быть позже даты выписки."
    case SurgeryOutOfRange => "Ошибка: Дата операции должна находиться в интервале между поступлением и выпиской."
    case SurgeryDateMissing => "Пожалуйста, укажите дату операции."
    case GenerationFailed(message) => "Ошибка: " + message
  }

  /** The admission, discharge and surgery dates of a stay that passed validation. */
  datatype Stay = Stay(start: Day, end: Day, surgery: Day) {
    predicate Valid() {
      start <= surgery <= end
    }
  }

  /** The required fields: full name, both dates of the stay, and the diagnosis. */
  predicate FieldsFilled(data: PatientData) {
    data.fullName != "" && data.startDate.Some? && data.endDate.Some? && data.diagnosis != ""
  }

  /**
   * The checks of `handleGenerate`, in their order: the required fields, then
   * admission not after discharge, then the surgery date inside the stay,
   * then the surgery date present at all.
   */
  function Validate(data: PatientData): (r: Result<Stay, Alert>)
    ensures r == Failure(MissingFields) <==> !FieldsFilled(data)
    ensures r == Failure(StartAfterEnd) <==> FieldsFilled(data) && data.startDate.value > data.endDate.value
    ensures r == Failure(SurgeryOutOfRange) <==>
              FieldsFilled(data) && data.startDate.value <= data.endDate.value && data.surgeryDate.Some?
              && !(data.startDate.value <= data.surgeryDate.value <= data.endDate.value)
    ensures r == Failure(SurgeryDateMissing) <==>
              FieldsFilled(data) && data.startDate.value <= data.endDate.value && data.surgeryDate.None?
    ensures r.Failure? ==> !r.error.GenerationFailed?
    ensures r.Success? ==>
              && r.value.Valid() && FieldsFilled(data) && data.surgeryDate.Some?
              && r.value == Stay(data.startDate.value, data.endDate.value, data.surgeryDate.value)
  {
    if !FieldsFilled(data) then Failure(MissingFields)
    else
      var start, end := data.startDate.value, data.endDate.value;
      if start > end then Failure(StartAfterEnd)
      else match data.surgeryDate
        case Some(surgery) =>
          if surgery < start || surgery > end then Failure(SurgeryOutOfRange)
          else Success(Stay(start, end, surgery))
        case None => Failure(SurgeryDateMissing)
  }

  // ---------------------------------------------------------------------
  // Templates

  /** The four narrative fields of one template. */
  datatype Template = Template(complaints: string, objectiveStatus: string, localStatus: string, recommendations: string)

  /** The three templates the provider returns. */
  datatype Templates = Templates(preOp: Template, postOpStandard: Template, postOpFinal: Template)

  datatype Phase = PreOp | PostOpStandard | PostOpFinal

  /** The day before discharge, from which on the final template applies. */
  function PreDischarge(s: Stay): Day {
    s.end - 1
  }

  /**
   * The template of a weekday: before the surgery the pre-operative one;
   * from the day before discharge on the final one, so that the day before
   * discharge and the discharge day share it; the standard one between.
   */
  function SelectPhase(d: Day, s: Stay): (p: Phase)
    ensures p == PreOp <==> d < s.surgery
    ensures p == PostOpFinal <==> s.surgery <= d && PreDischarge(s) <= d
    ensures p == PostOpStandard <==> s.surgery <= d < PreDischarge(s)
  {
    if d < s.surgery then PreOp
    else if d >= PreDischarge(s) then PostOpFinal
    else PostOpStandard
  }

  function TemplateOf(p: Phase, t: Templates): Template {
    match p
    case PreOp => t.preOp
    case PostOpStandard => t.postOpStandard
    case PostOpFinal => t.postOpFinal
  }

  const DefaultObjectiveStatus := "Общее состояние удовлетворительное. Сознание ясное."
  const PreparationNote := "Подготовка к операции. Премедикация по назначению анестезиолога."
  const PostOpComplaints := "На боли в области послеоперационной раны, слабость."
  const DressingNote := "Повязка сухая, чистая. Отек умеренный. Кровотечения нет."

  /** `template.objectiveStatus || default`: an empty status is replaced by the default text. */
  function ObjectiveOrDefault(status: string): (r: string)
    ensures r != ""
    ensures status != "" ==> r == status
    ensures status == "" ==> r == DefaultObjectiveStatus
  {
    if status == "" then DefaultObjectiveStatus else status
  }

  // ---------------------------------------------------------------------
  // The entries of one day

  /** The placeholder of a weekend day: no time, no vitals, no text, no flags. */
  function WeekendEntry(d: Day): DiaryEntry {
    DiaryEntry(d, true, false, Weekend, "", 0, 0, "", 0, "", "", "", "", false, false)
  }

  /**
   * `baseEntry`: the flags of the weekday `d`, the vitals `v`, and the text of
   * the template its phase selects; the time and day type are set by the caller.
   */
  function BaseEntry(d: Day, s: Stay, t: Templates, v: Vitals): DiaryEntry {
    var tpl := TemplateOf(SelectPhase(d, s), t);
    DiaryEntry(d, false, d == s.surgery, Regular, "",
               v.respiratoryRate, v.heartRate, v.BloodPressure(), v.temperature,
               tpl.complaints, ObjectiveOrDefault(tpl.objectiveStatus), tpl.localStatus, tpl.recommendations,
               IsMondayOrFriday(d), d == s.end)
  }

  /** The regular entry: the base entry at nine o'clock and some minutes. */
  function RegularEntry(base: DiaryEntry, u: Unit): DiaryEntry {
    base.(time := FormatTime(9, DefaultMinuteVariation, u), dayType := Regular)
  }

  /** The morning entry of the surgery day: eight o'clock, the pre-operative text, the preparation note. */
  function MorningEntry(base: DiaryEntry, t: Templates, u: Unit): DiaryEntry {
    base.(time := FormatTime(8, DefaultMinuteVariation, u), dayType := SurgeryMorning,
          complaints := t.preOp.complaints, objectiveStatus := t.preOp.objectiveStatus,
          localStatus := t.preOp.localStatus, recommendations := PreparationNote)
  }

  /** The evening entry of the surgery day: 18:00, fresh vitals, fixed post-operative text, no inspection. */
  function EveningEntry(base: DiaryEntry, t: Templates, v: Vitals): DiaryEntry {
    base.(time := "18:00", dayType := SurgeryEvening,
          respiratoryRate := v.respiratoryRate, heartRate := v.heartRate,
          bloodPressure := v.BloodPressure(), temperature := v.temperature,
          complaints := PostOpComplaints, objectiveStatus := t.postOpStandard.objectiveStatus,
          localStatus := DressingNote, recommendations := t.postOpStandard.recommendations,
          isHeadOfDeptInspection := false)
  }

  /** The number of random draws per vitals reading and per time of day. */
  const VitalsDraws := 5
  const TimeDraws := 1

  /** The draws a day consumes: none on a weekend, vitals and a time on a weekday, and a second vitals reading on surgery day. */
  function DayDraws(d: Day, s: Stay): nat {
    if IsWeekend(d) then 0
    else if d == s.surgery then 2 * VitalsDraws + TimeDraws
    else VitalsDraws + TimeDraws
  }

  /** The entries written for the day `d`, with the draws from `rng(k)` on. */
  function DayEntries(d: Day, s: Stay, t: Templates, rng: Rng, k: nat): seq<DiaryEntry> {
    if IsWeekend(d) then [WeekendEntry(d)]
    else
      var base := BaseEntry(d, s, t, GenerateVitals(rng, k));
      if d == s.surgery then
        [MorningEntry(base, t, rng(k + VitalsDraws)), EveningEntry(base, t, GenerateVitals(rng, k + VitalsDraws + TimeDraws))]
      else
        [RegularEntry(base, rng(k + VitalsDraws))]
  }

  // ---------------------------------------------------------------------
  // What an entry must look like

  /** A `HH:MM` time whose hour is `hour` and whose minute is at most the default variation. */
  predicate TimeOfDay(time: string, hour: int) {
    |time| == 5 && time[2] == ':' && AllDigits(time[..2]) && AllDigits(time[3..])
    && ParseNat(time[..2]) == hour && ParseNat(time[3..]) <= DefaultMinuteVariation
  }

  /** The blood pressure strings a reading can show: a systolic value of 120, 125 or 130 over a diastolic one of 80, 85 or 90. */
  const BloodPressures: set<string> :=
    {"120/80", "120/85", "120/90", "125/80", "125/85", "125/90", "130/80", "130/85", "130/90"}

  predicate PlausibleVitals(e: DiaryEntry) {
    && 16 <= e.respiratoryRate <= 18
    && 60 <= e.heartRate <= 78
    && 362 <= e.temperature <= 368
    && e.bloodPressure in BloodPressures
  }

  predicate IsPlaceholder(e: DiaryEntry) {
    && e.dayType == Weekend && e.time == ""
    && !e.isSurgeryDay && !e.isHeadOfDeptInspection && !e.isDischarge
    && e.respiratoryRate == 0 && e.heartRate == 0 && e.bloodPressure == "" && e.temperature == 0
    && e.complaints == "" && e.objectiveStatus == "" && e.localStatus == "" && e.recommendations == ""
  }

  /** The time and the text of a weekday entry, by its day type. */
  predicate ClinicalText(e: DiaryEntry, s: Stay, t: Templates) {
    match e.dayType
    case Regular =>
      var tpl := TemplateOf(SelectPhase(e.date, s), t);
      && TimeOfDay(e.time, 9)
      && e.complaints == tpl.complaints && e.objectiveStatus == ObjectiveOrDefault(tpl.objectiveStatus)
      && e.localStatus == tpl.localStatus && e.recommendations == tpl.recommendations
    case SurgeryMorning =>
      && TimeOfDay(e.time, 8)
      && e.complaints == t.preOp.complaints && e.objectiveStatus == t.preOp.objectiveStatus
      && e.localStatus == t.preOp.localStatus && e.recommendations == PreparationNote
    case SurgeryEvening =>
      && e.time == "18:00"
      && e.complaints == PostOpComplaints && e.objectiveStatus == t.postOpStandard.objectiveStatus
      && e.localStatus == DressingNote && e.recommendations == t.postOpStandard.recommendations
    case Weekend => false
  }

  /**
   * A well-formed entry of the stay: a weekend day is a bare placeholder; on
   * a weekday the flags follow the calendar and the stay, the vitals lie in
   * their ranges and the text is the one its day type calls for.
   */
  predicate EntryOk(e: DiaryEntry, s: Stay, t: Templates) {
    && e.isWeekend == IsWeekend(e.date)
    && (if e.isWeekend then IsPlaceholder(e)
        else
          && e.isSurgeryDay == (e.date == s.surgery)
          && e.isDischarge == (e.date == s.end)
          && (e.dayType == Regular <==> e.date != s.surgery)
          && e.isHeadOfDeptInspection == (IsMondayOrFriday(e.date) && e.dayType != SurgeryEvening)
          && PlausibleVitals(e)
          && ClinicalText(e, s, t))
  }

  /** A generated reading shows one of the nine blood pressures. */
  lemma {:induction false} BloodPressureShown(v: Vitals)
    requires Plausible(v)
    ensures v.BloodPressure() in BloodPressures
  {
    var sys := IntToString(v.systolic);
    var dia := IntToString(v.diastolic);
    if v.systolic == 120 {
      assert sys == "120" by { assert NatToString(12) == "12"; }
    } else if v.systolic == 125 {
      assert sys == "125" by { assert NatToString(12) == "12"; }
    } else {
      assert sys == "130" by { assert NatToString(13) == "13"; }
    }
    if v.diastolic == 80 {
      assert dia == "80" by { assert NatToString(8) == "8"; }
    } else if v.diastolic == 85 {
      assert dia == "85" by { assert NatToString(8) == "8"; }
    } else {
      assert dia == "90" by { assert NatToString(9) == "9"; }
    }
    assert v.BloodPressure() == sys + "/" + dia;
    ReadingShown(sys, dia);
  }

  /** Each of the nine pairs of printed values joins into one of the listed readings. */
  lemma {:induction false} ReadingShown(sys: string, dia: string)
    requires sys in {"120", "125", "130"} && dia in {"80", "85", "90"}
    ensures sys + "/" + dia in BloodPressures
  {
    if sys == "120" {
      assert "120" + "/" + "80" == "120/80" && "120" + "/" + "85" == "120/85" && "120" + "/" + "90" == "120/90";
    } else if sys == "125" {
      assert "125" + "/" + "80" == "125/80" && "125" + "/" + "85" == "125/85" && "125" + "/" + "90" == "125/90";
    } else {
      assert "130" + "/" + "80" == "130/80" && "130" + "/" + "85" == "130/85" && "130" + "/" + "90" == "130/90";
    }
  }

  lemma {:induction false} WeekendEntryOk(d: Day, s: Stay, t: Templates)
    requires IsWeekend(d)
    ensures EntryOk(WeekendEntry(d), s, t) && IsPlaceholder(WeekendEntry(d))
  {
  }

  lemma {:induction false} RegularEntryOk(d: Day, s: Stay, t: Templates, v: Vitals, u: Unit)
    requires !IsWeekend(d) && d != s.surgery && Plausible(v)
    ensures var e := RegularEntry(BaseEntry(d, s, t, v), u);
            e.date == d && e.dayType == Regular && EntryOk(e, s, t)
  {
    BloodPressureShown(v);
    FormatTimeShape(9, DefaultMinuteVariation, u);
  }

  lemma {:induction false} MorningEntryOk(d: Day, s: Stay, t: Templates, v: Vitals, u: Unit)
    requires !IsWeekend(d) && d == s.surgery && Plausible(v)
    ensures var e := MorningEntry(BaseEntry(d, s, t, v), t, u);
            e.date == d && e.dayType == SurgeryMorning && EntryOk(e, s, t)
  {
    BloodPressureShown(v);
    FormatTimeShape(8, DefaultMinuteVariation, u);
  }

  lemma {:induction false} EveningEntryOk(d: Day, s: Stay, t: Templates, v: Vitals, w: Vitals)
    requires !IsWeekend(d) && d == s.surgery && Plausible(w)
    ensures var e := EveningEntry(BaseEntry(d, s, t, v), t, w);
            e.date == d && e.dayType == SurgeryEvening && EntryOk(e, s, t)
  {
    BloodPressureShown(w);
  }

  /**
   * The shape of the entries of the day `d`: two on a weekday surgery date,
   * the morning entry first, and one otherwise, all dated `d`.
   */
  predicate BlockShape(es: seq<DiaryEntry>, d: Day, s: Stay) {
    && |es| == (if !IsWeekend(d) && d == s.surgery then 2 else 1)
    && (forall i :: 0 <= i < |es| ==> es[i].date == d)
    && (|es| == 2 ==> es[0].dayType == SurgeryMorning && es[1].dayType == SurgeryEvening)
  }

  /** What `DayEntriesOk` states of a day's entries. */
  predicate DayEntriesShape(es: seq<DiaryEntry>, d: Day, s: Stay, t: Templates) {
    && BlockShape(es, d, s)
    && (forall i :: 0 <= i < |es| ==> EntryOk(es[i], s, t))
    && (IsWeekend(d) ==> IsPlaceholder(es[0]))
  }

  /**
   * A weekend day gives one placeholder, even on the surgery or discharge
   * date; a weekday surgery date gives a morning entry and then an evening
   * entry; any other weekday gives one regular entry.
   */
  lemma {:induction false} DayEntriesOk(d: Day, s: Stay, t: Templates, rng: Rng, k: nat)
    ensures DayEntriesShape(DayEntries(d, s, t, rng, k), d, s, t)
  {
    if IsWeekend(d) {
      WeekendEntriesOk(d, s, t, rng, k);
    } else if d == s.surgery {
      SurgeryEntriesOk(d, s, t, rng, k);
    } else {
      RegularEntriesOk(d, s, t, rng, k);
    }
  }

  lemma {:induction false} WeekendEntriesOk(d: Day, s: Stay, t: Templates, rng: Rng, k: nat)
    requires IsWeekend(d)
    ensures DayEntriesShape(DayEntries(d, s, t, rng, k), d, s, t)
  {
    WeekendEntryOk(d, s, t);
    SingleShape([WeekendEntry(d)], d, s, t);
    assert DayEntries(d, s, t, rng, k) == [WeekendEntry(d)];
  }

  lemma {:induction false} SurgeryEntriesOk(d: Day, s: Stay, t: Templates, rng: Rng, k: nat)
    requires !IsWeekend(d) && d == s.surgery
    ensures DayEntriesShape(DayEntries(d, s, t, rng, k), d, s, t)
  {
    var v, u := GenerateVitals(rng, k), rng(k + VitalsDraws);
    var w := GenerateVitals(rng, k + VitalsDraws + TimeDraws);
    var base := BaseEntry(d, s, t, v);
    var morning, evening := MorningEntry(base, t, u), EveningEntry(base, t, w);
    MorningEntryOk(d, s, t, v, u);
    EveningEntryOk(d, s, t, v, w);
    PairShape([morning, evening], d, s, t);
    assert DayEntries(d, s, t, rng, k) == [morning, evening];
  }

  lemma {:induction false} RegularEntriesOk(d: Day, s: Stay, t: Templates, rng: Rng, k: nat)
    requires !IsWeekend(d) && d != s.surgery
    ensures DayEntriesShape(DayEntries(d, s, t, rng, k), d, s, t)
  {
    var v, u := GenerateVitals(rng, k), rng(k + VitalsDraws);
    var regular := RegularEntry(BaseEntry(d, s, t, v), u);
    RegularEntryOk(d, s, t, v, u);
    SingleShape([regular], d, s, t);
    assert DayEntries(d, s, t, rng, k) == [regular];
  }

  lemma {:induction false} SingleShape(es: seq<DiaryEntry>, d: Day, s: Stay, t: Templates)
    requires IsWeekend(d) || d != s.surgery
    requires |es| == 1 && es[0].date == d && EntryOk(es[0], s, t)
    requires IsWeekend(d) ==> IsPlaceholder(es[0])
    ensures DayEntriesShape(es, d, s, t)
  {
  }

  lemma {:induction false} PairShape(es: seq<DiaryEntry>, d: Day, s: Stay, t: Templates)
    requires !IsWeekend(d) && d == s.surgery && |es| == 2
    requires es[0].date == d && EntryOk(es[0], s, t) && es[0].dayType == SurgeryMorning
    requires es[1].date == d && EntryOk(es[1], s, t) && es[1].dayType == SurgeryEvening
    ensures DayEntriesShape(es, d, s, t)
  {
  }

  // ---------------------------------------------------------------------
  // The entries of the stay

  /** The draws consumed by the days `days`. */
  function Draws(days: seq<Day>, s: Stay): nat
    decreases |days|
  {
    if days == [] then 0 else Draws(days[..|days| - 1], s) + DayDraws(days[|days| - 1], s)
  }

  /** How the entries of a day are written, given the day and its first draw. */
  type DayWriter = (Day, nat) -> seq<DiaryEntry>

  /** The writer of the stay: `DayEntries` with its templates and draws. */
  function Writer(s: Stay, t: Templates, rng: Rng): DayWriter {
    (d: Day, j: nat) => DayEntries(d, s, t, rng, j)
  }

  /** The entries of each day of `days`, the draws of each day following those of the days before it. */
  function Blocks(days: seq<Day>, write: DayWriter, s: Stay, k: nat): (bs: seq<seq<DiaryEntry>>)
    ensures |bs| == |days|
    decreases |days|
  {
    if days == [] then []
    else
      var n := |days| - 1;
      Blocks(days[..n], write, s, k) + [write(days[n], k + Draws(days[..n], s))]
  }

  /** The blocks one after the other. */
  function Flat(bs: seq<seq<DiaryEntry>>): seq<DiaryEntry>
    decreases |bs|
  {
    if bs == [] then [] else Flat(bs[..|bs| - 1]) + bs[|bs| - 1]
  }

  /** The entries of the days `days`, in order, with the draws from `rng(k)` on. */
  function Schedule(days: seq<Day>, s: Stay, t: Templates, rng: Rng, k: nat): seq<DiaryEntry> {
    Flat(Blocks(days, Writer(s, t, rng), s, k))
  }

  lemma {:induction false} FlatSnoc(bs: seq<seq<DiaryEntry>>, b: seq<DiaryEntry>)
    ensures Flat(bs + [b]) == Flat(bs) + b
  {
    assert (bs + [b])[..|bs|] == bs;
  }

  /** The entries of some days are those of all but the last, then those of the last day. */
  lemma {:induction false} FlatBlocksSnoc(days: seq<Day>, write: DayWriter, s: Stay, k: nat)
    requires days != []
    ensures var n := |days| - 1;
            Flat(Blocks(days, write, s, k)) == Flat(Blocks(days[..n], write, s, k)) + write(days[n], k + Draws(days[..n], s))
  {
    var n := |days| - 1;
    FlatSnoc(Blocks(days[..n], write, s, k), write(days[n], k + Draws(days[..n], s)));
  }

  /** Writing the first `i + 1` of the days `ds` appends the entries of day `i`, drawn after those of the days before. */
  lemma {:induction false} BlocksStep(ds: seq<Day>, i: nat, write: DayWriter, s: Stay, k: nat)
    requires i < |ds|
    ensures Flat(Blocks(ds[..i + 1], write, s, k)) == Flat(Blocks(ds[..i], write, s, k)) + write(ds[i], k + Draws(ds[..i], s))
    ensures Draws(ds[..i + 1], s) == Draws(ds[..i], s) + DayDraws(ds[i], s)
  {
    var days := ds[..i + 1];
    assert days[..i] == ds[..i] && days[i] == ds[i];
    FlatBlocksSnoc(days, write, s, k);
  }

  /** The loop step of `BuildEntries`: the entries so far followed by those of day `i` are the entries of the first `i + 1` days. */
  lemma {:induction false} StepAppend(ds: seq<Day>, i: nat, write: DayWriter, s: Stay, k: nat, es: seq<DiaryEntry>, block: seq<DiaryEntry>)
    requires i < |ds|
    requires es == Flat(Blocks(ds[..i], write, s, k))
    requires block == write(ds[i], k + Draws(ds[..i], s))
    ensures es + block == Flat(Blocks(ds[..i + 1], write, s, k))
    ensures k + Draws(ds[..i], s) + DayDraws(ds[i], s) == k + Draws(ds[..i + 1], s)
  {
    BlocksStep(ds, i, write, s, k);
  }

  lemma {:induction false} WriterWrites(s: Stay, t: Templates, rng: Rng, d: Day, j: nat)
    ensures Writer(s, t, rng)(d, j) == DayEntries(d, s, t, rng, j)
  {
  }

  /** Every day the writer writes has the shape of `BlockShape`. */
  ghost predicate Shaped(write: DayWriter, s: Stay) {
    forall d, j :: BlockShape(write(d, j), d, s)
  }

  predicate Ascending(days: seq<Day>) {
    forall i, j :: 0 <= i < j < |days| ==> days[i] < days[j]
  }

  /** The surgery date adds an entry when it is a weekday of the stay. */
  function SurgeryExtra(days: seq<Day>, s: Stay): nat {
    if s.surgery in days && !IsWeekend(s.surgery) then 1 else 0
  }

  lemma {:induction false} FlatLength(days: seq<Day>, write: DayWriter, s: Stay, k: nat)
    requires Shaped(write, s) && Ascending(days)
    ensures |Flat(Blocks(days, write, s, k))| == |days| + SurgeryExtra(days, s)
    decreases |days|
  {
    if days != [] {
      var n := |days| - 1;
      var init := days[..n];
      FlatBlocksSnoc(days, write, s, k);
      FlatLength(init, write, s, k);
      assert BlockShape(write(days[n], k + Draws(init, s)), days[n], s);
      assert days == init + [days[n]];
      assert s.surgery in days <==> s.surgery in init || s.surgery == days[n];
      assert days[n] !in init;
    }
  }

  /** Every entry written satisfies `ok` when every entry the writer can write does. */
  lemma {:induction false} FlatAll(days: seq<Day>, write: DayWriter, s: Stay, k: nat, ok: DiaryEntry -> bool)
    requires Shaped(write, s)
    requires forall d, j, i :: 0 <= i < |write(d, j)| ==> ok(write(d, j)[i])
    ensures var es := Flat(Blocks(days, write, s, k));
            forall i :: 0 <= i < |es| ==> ok(es[i]) && es[i].date in days
    decreases |days|
  {
    if days != [] {
      var n := |days| - 1;
      var es, head, tail := Flat(Blocks(days, write, s, k)), Flat(Blocks(days[..n], write, s, k)), write(days[n], k + Draws(days[..n], s));
      FlatBlocksSnoc(days, write, s, k);
      FlatAll(days[..n], write, s, k, ok);
      assert BlockShape(tail, days[n], s);
      forall i | 0 <= i < |es| ensures ok(es[i]) && es[i].date in days {
        if i < |head| {
          assert es[i] == head[i] && head[i].date in days[..n];
        } else {
          assert es[i] == tail[i - |head|];
        }
      }
    }
  }

  lemma {:induction false} FlatCovers(days: seq<Day>, write: DayWriter, s: Stay, k: nat)
    requires Shaped(write, s)
    ensures var es := Flat(Blocks(days, write, s, k));
            forall d :: d in days ==> exists i :: 0 <= i < |es| && es[i].date == d
    decreases |days|
  {
    if days != [] {
      var n := |days| - 1;
      var es, head, tail := Flat(Blocks(days, write, s, k)), Flat(Blocks(days[..n], write, s, k)), write(days[n], k + Draws(days[..n], s));
      FlatBlocksSnoc(days, write, s, k);
      FlatCovers(days[..n], write, s, k);
      assert BlockShape(tail, days[n], s);
      forall d | d in days ensures exists i :: 0 <= i < |es| && es[i].date == d {
        if d in days[..n] {
          var i :| 0 <= i < |head| && head[i].date == d;
          assert es[i] == head[i];
        } else {
          assert d == days[n];
          assert es[|head|] == tail[0];
        }
      }
    }
  }

  /** The order of the entries of the stay, as `ScheduleOk` states it. */
  predicate InDateOrder(es: seq<DiaryEntry>) {
    forall i, j :: 0 <= i < j < |es| ==>
      && es[i].date <= es[j].date
      && (es[i].date == es[j].date ==> j == i + 1 && es[i].dayType == SurgeryMorning && es[j].dayType == SurgeryEvening)
  }

  lemma {:induction false} FlatOrdered(days: seq<Day>, write: DayWriter, s: Stay, k: nat)
    requires Shaped(write, s) && Ascending(days)
    ensures InDateOrder(Flat(Blocks(days, write, s, k)))
    decreases |days|
  {
    if days != [] {
      var n := |days| - 1;
      var es, head, tail := Flat(Blocks(days, write, s, k)), Flat(Blocks(days[..n], write, s, k)), write(days[n], k + Draws(days[..n], s));
      FlatBlocksSnoc(days, write, s, k);
      FlatOrdered(days[..n], write, s, k);
      FlatAll(days[..n], write, s, k, e => true);
      assert BlockShape(tail, days[n], s);
      forall i, j | 0 <= i < j < |es|
        ensures es[i].date <= es[j].date
        ensures es[i].date == es[j].date ==> j == i + 1 && es[i].dayType == SurgeryMorning && es[j].dayType == SurgeryEvening
      {
        if j < |head| {
          assert es[i] == head[i] && es[j] == head[j];
        } else if i < |head| {
          assert es[i] == head[i] && head[i].date in days[..n];
          assert es[j] == tail[j - |head|];
        } else {
          assert es[i] == tail[i - |head|] && es[j] == tail[j - |head|];
        }
      }
    }
  }

  /** The writer of the stay writes well-formed entries of the right shape for every day. */
  lemma {:induction false} WriterOk(s: Stay, t: Templates, rng: Rng)
    ensures Shaped(Writer(s, t, rng), s)
    ensures forall d, j, i :: 0 <= i < |Writer(s, t, rng)(d, j)| ==> EntryOk(Writer(s, t, rng)(d, j)[i], s, t)
  {
    var write := Writer(s, t, rng);
    forall d, j ensures DayEntriesShape(write(d, j), d, s, t) {
      DayEntriesOk(d, s, t, rng, j);
    }
  }

  /**
   * Over ascending days: one entry per day and one more for a weekday
   * surgery date; every entry well formed and dated on one of the days;
   * every day present; the entries in date order.
   */
  lemma {:induction false} ScheduleOk(days: seq<Day>, s: Stay, t: Templates, rng: Rng, k: nat)
    requires Ascending(days)
    ensures var es := Schedule(days, s, t, rng, k);
            && |es| == |days| + SurgeryExtra(days, s)
            && (forall i :: 0 <= i < |es| ==> EntryOk(es[i], s, t) && es[i].date in days)
            && (forall d :: d in days ==> exists i :: 0 <= i < |es| && es[i].date == d)
            && InDateOrder(es)
  {
    var write := Writer(s, t, rng);
    WriterOk(s, t, rng);
    FlatLength(days, write, s, k);
    FlatAll(days, write, s, k, e => EntryOk(e, s, t));
    FlatCovers(days, write, s, k);
    FlatOrdered(days, write, s, k);
  }

  /**
   * The entries of a stay: one per day from admission to discharge and one
   * more when the surgery falls on a weekday, every one well formed, every
   * day present, all in date order.
   */
  lemma {:induction false} StayScheduleOk(s: Stay, t: Templates, rng: Rng, k: nat)
    requires s.Valid()
    ensures var es := Schedule(DatesInRange(s.start, s.end), s, t, rng, k);
            && |es| == s.end - s.start + 1 + (if IsWeekend(s.surgery) then 0 else 1)
            && (forall i :: 0 <= i < |es| ==> EntryOk(es[i], s, t) && s.start <= es[i].date <= s.end)
            && (forall d :: d in DatesInRange(s.start, s.end) ==> exists i :: 0 <= i < |es| && es[i].date == d)
            && InDateOrder(es)
  {
    var days := DatesInRange(s.start, s.end);
    var es := Schedule(days, s, t, rng, k);
    ScheduleOk(days, s, t, rng, k);
    assert days[s.surgery - s.start] == s.surgery;
    forall i | 0 <= i < |es| ensures s.start <= es[i].date <= s.end {
      var m :| 0 <= m < |days| && days[m] == es[i].date;
    }
  }

  /**
   * Entries dated within the stay that cover every day of it and come in
   * date order: the entry after a weekend placeholder is dated the next day.
   */
  lemma {:induction false} NextEntryDate(es: seq<DiaryEntry>, s: Stay, i: nat)
    requires forall i :: 0 <= i < |es| ==> s.start <= es[i].date <= s.end
    requires forall d :: d in DatesInRange(s.start, s.end) ==> exists i :: 0 <= i < |es| && es[i].date == d
    requires InDateOrder(es)
    requires i + 1 < |es| && es[i].dayType == Weekend
    ensures es[i + 1].date == es[i].date + 1
  {
    var d := es[i].date;
    assert d < es[i + 1].date <= s.end;
    var days := DatesInRange(s.start, s.end);
    assert days[d + 1 - s.start] == d + 1;
    assert d + 1 in days;
    var j :| 0 <= j < |es| && es[j].date == d + 1;
    assert i < j;
    assert es[i + 1].date <= es[j].date;
  }

  /**
   * Such entries never hold three weekend placeholders in a row: two weekend
   * days in a row are a Saturday and a Sunday.
   */
  lemma {:induction false} NoThreeWeekends(es: seq<DiaryEntry>, s: Stay, t: Templates)
    requires forall i :: 0 <= i < |es| ==> EntryOk(es[i], s, t) && s.start <= es[i].date <= s.end
    requires forall d :: d in DatesInRange(s.start, s.end) ==> exists i :: 0 <= i < |es| && es[i].date == d
    requires InDateOrder(es)
    ensures NoThreeWeekendsInARow(es)
  {
    forall i | 0 <= i && i + 2 < |es|
      ensures !(es[i].isWeekend && es[i + 1].isWeekend && es[i + 2].isWeekend)
    {
      if es[i].isWeekend && es[i + 1].isWeekend {
        assert EntryOk(es[i], s, t) && EntryOk(es[i + 1], s, t) && EntryOk(es[i + 2], s, t);
        NextEntryDate(es, s, i);
        NextEntryDate(es, s, i + 1);
        WeekFacts(es[i].date);
      }
    }
  }

  /**
   * In the document of a stay every weekend summary covers one or two
   * days, and every clinical entry has its own block.
   */
  lemma {:induction false} StayWeekendSummaries(s: Stay, t: Templates, rng: Rng, k: nat)
    requires s.Valid()
    ensures var es := Schedule(DatesInRange(s.start, s.end), s, t, rng, k);
            && (forall g :: g in Groups(es) && g.WeekendRun? ==> 1 <= |g.run| <= 2)
            && CountSingles(Groups(es)) == CountClinical(es)
  {
    var es := Schedule(DatesInRange(s.start, s.end), s, t, rng, k);
    StayScheduleOk(s, t, rng, k);
    NoThreeWeekends(es, s, t);
    WeekendRunsShort(es);
    GroupsShape(es);
    SinglesAreClinical(es);
  }

  /** Monday 3 June 2024 is day 19877: admission then, surgery on Wednesday the 5th, discharge on Monday the 10th. */
  const JuneStay := Stay(19877, 19884, 19879)

  /**
   * The stay of 3 to 10 June 2024 with surgery on the 5th: eight days and
   * nine entries; the Friday before the weekend takes the standard template,
   * the discharge day the final one, the days before surgery the
   * pre-operative one; Saturday the 8th and Sunday the 9th are weekend days.
   */
  lemma JuneStayEntries(t: Templates, rng: Rng, k: nat)
    ensures |Schedule(DatesInRange(JuneStay.start, JuneStay.end), JuneStay, t, rng, k)| == 9
    ensures SelectPhase(19878, JuneStay) == PreOp
    ensures SelectPhase(19881, JuneStay) == PostOpStandard
    ensures SelectPhase(19884, JuneStay) == PostOpFinal
    ensures IsWeekend(19882) && IsWeekend(19883) && !IsWeekend(19879) && !IsWeekend(19884)
  {
    StayScheduleOk(JuneStay, t, rng, k);
  }

  lemma JuneStayDates()
    ensures CivilFromDays(JuneStay.start) == Civil(2024, 6, 3) && DayOfWeek(JuneStay.start) == 1
    ensures CivilFromDays(JuneStay.end) == Civil(2024, 6, 10) && DayOfWeek(JuneStay.end) == 1
  {
    assert (19877 + 719468) / 146097 == 5 && (19877 + 719468) % 146097 == 8860;
    assert (19884 + 719468) / 146097 == 5 && (19884 + 719468) % 146097 == 8867;
    assert 8860 / 1461 == 6 && 8867 / 1461 == 6;
    assert (5 * 94 + 2) / 153 == 3 && (5 * 101 + 2) / 153 == 3 && (153 * 3 + 2) / 5 == 92;
  }

  // ---------------------------------------------------------------------
  // handleGenerate

  /**
   * The `forEach` over the dates of the stay: pushes the entries of each
   * day onto `diaryEntries`, drawing from `rng(k)` on; `next` is the first
   * draw left unused.
   */
  method BuildEntries(s: Stay, t: Templates, rng: Rng, k: nat) returns (diaryEntries: seq<DiaryEntry>, next: nat)
    ensures diaryEntries == Schedule(DatesInRange(s.start, s.end), s, t, rng, k)
    ensures next == k + Draws(DatesInRange(s.start, s.end), s)
  {
    var dateRange := GetDatesInRange(s.start, s.end);
    diaryEntries := [];
    next := k;
    for i := 0 to |dateRange|
      invariant diaryEntries == Schedule(dateRange[..i], s, t, rng, k)
      invariant next == k + Draws(dateRange[..i], s)
    {
      var date := dateRange[i];
      var dayEntries, after := WriteDay(date, s, t, rng, next);
      WriterWrites(s, t, rng, date, next);
      StepAppend(dateRange, i, Writer(s, t, rng), s, k, diaryEntries, dayEntries);
      diaryEntries, next := diaryEntries + dayEntries, after;
    }
    assert dateRange[..|dateRange|] == dateRange;
  }

  /** The body of the loop over the dates: the entries of `date`, drawing from `rng(k)` on. */
  method WriteDay(date: Day, s: Stay, t: Templates, rng: Rng, k: nat) returns (dayEntries: seq<DiaryEntry>, next: nat)
    ensures dayEntries == DayEntries(date, s, t, rng, k)
    ensures next == k + DayDraws(date, s)
  {
    next := k;
    if IsWeekend(date) {
      dayEntries := [WeekendEntry(date)];
    } else {
      var dayVitals := GenerateVitals(rng, next);
      next := next + VitalsDraws;
      var baseEntry := BaseEntry(date, s, t, dayVitals);
      if date == s.surgery {
        dayEntries := [MorningEntry(baseEntry, t, rng(next))];
        next := next + TimeDraws;
        var eveningVitals := GenerateVitals(rng, next);
        next := next + VitalsDraws;
        dayEntries := dayEntries + [EveningEntry(baseEntry, t, eveningVitals)];
      } else {
        dayEntries := [RegularEntry(baseEntry, rng(next))];
        next := next + TimeDraws;
      }
    }
  }

  /** The diary of a successful run: the entries and the document made from them. */
  datatype Generated = Generated(entries: seq<DiaryEntry>, document: Document)

  /**
   * `handleGenerate`: validate the form, take the provider's reply (an error
   * message when it threw, `None` when it returned nothing), build the
   * entries with the draws from `rng(0)` on, and make the document. A failure
   * is the text of the alert shown.
   */
  method HandleGenerate(data: PatientData, reply: Result<Option<Templates>, string>, rng: Rng) returns (r: Result<Generated, string>)
    ensures Validate(data).Failure? ==> r == Failure(AlertText(Validate(data).error))
    ensures Validate(data).Success? && reply.Failure? ==> r == Failure(AlertText(GenerationFailed(reply.error)))
    ensures Validate(data).Success? && reply == Success(None) ==> r == Failure(AlertText(GenerationFailed(NullReplyMessage)))
    ensures Validate(data).Success? && reply.Success? && reply.value.Some? ==>
              && r.Success?
              && r.value.entries == Schedule(DatesInRange(Validate(data).value.start, Validate(data).value.end),
                                             Validate(data).value, reply.value.value, rng, 0)
              && r.value.document == DocumentOf(data, r.value.entries)
  {
    var checked := Validate(data);
    if checked.Failure? {
      return Failure(AlertText(checked.error));
    }
    if reply.Failure? {
      return Failure(AlertText(GenerationFailed(reply.error)));
    }
    if reply.value.None? {
      return Failure(AlertText(GenerationFailed(NullReplyMessage)));
    }
    var diaryEntries, _ := BuildEntries(checked.value, reply.value.value, rng, 0);
    var document := GenerateDocx(data, diaryEntries);
    r := Success(Generated(diaryEntries, document));
  }

}
