/** The records exchanged between the form, the scheduler and the document generator (types.ts). */
module Types {
  import opened Wrappers
  import opened Helpers

  /** The kind of a diary entry. */
  datatype DayType = Regular | SurgeryMorning | SurgeryEvening | Weekend

  /**
   * One diary entry (`DiaryEntry`). The temperature is in tenths of a degree
   * (0 on a weekend placeholder); `time` is `HH:MM` or empty.
   */
  datatype DiaryEntry = DiaryEntry(
    date: Day,
    isWeekend: bool,
    isSurgeryDay: bool,
    dayType: DayType,
    time: string,
    respiratoryRate: int,
    heartRate: int,
    bloodPressure: string,
    temperature: int,
    complaints: string,
    objectiveStatus: string,
    localStatus: string,
    recommendations: string,
    isHeadOfDeptInspection: bool,
    isDischarge: bool)

  datatype Gender = Male | Female

  /**
   * The form (`PatientData`). A date field left empty in the form is `None`;
   * a filled one holds its day number.
   */
  datatype PatientData = PatientData(
    fullName: string,
    startDate: Option<Day>,
    endDate: Option<Day>,
    surgeryDate: Option<Day>,
    diagnosis: string,
    doctorName: string,
    headOfDeptName: string,
    gender: Gender)
}
