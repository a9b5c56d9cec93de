/**
 The closed list of carbon-project fields an extraction may report, in the alphabetical order of
 their names, and the contract each field has.
 */
module Fields {
  import opened Wrappers

  datatype Field =
    | AdditionalityToolUsed | ArchivingPeriodYears | BarrierAnalysisResult | BaselineAssumptionsTable
    | BaselineFormulaPresent | BaselineScenarioText | BeValueTco2e | CommonPracticeResult | Country
    | CreditingPeriodEnd | CreditingPeriodStart | CreditingPeriodYears | DataFrequency
    | DataGapProcedureText | EfSourceReference | EfUnit | EfValue | EfVintageYear
    | ElectricityExportedMwh | ElectricityGeneratedMwh | ErRecalcErrorPct | ErRecalculatedTco2e
    | ErReportedTco2e | GridConnectionStatus | InstalledCapacityMw | InvestmentAnalysisResult
    | IssuanceCycleCount | LeApplicableFlag | LeJustificationText | LeValueTco2e | ListedDate
    | MeterCalibrationStatus | MethodologyName | MethodologyVersion | MonitoringParametersListed
    | PeApplicableFlag | PeMethodText | PeValueTco2e | ProjectBoundaryText | ProjectDeveloper | ProjectId
    | ProjectName | ProjectOperator | ProjectOwner | ProjectParticipant | QaQcProcedureText
    | RegisteredDate | RenewableResourceType | TechnologyType | ValidatorName | VerificationCycleCount
    | VerificationPeriodEnd | VerificationPeriodStart | VerifierName | VersionChangeNote

  /** What kind of value a field's contract asks for; Pending means the contract is still open. */
  datatype Kind = Flag | Count | Number | Day | Words | Pending

  function KindOf(field: Field): Kind {
    if field in {
      BaselineFormulaPresent, LeApplicableFlag, PeApplicableFlag
    } then Flag
    else if field in {
      ArchivingPeriodYears, CreditingPeriodYears, EfVintageYear, IssuanceCycleCount, VerificationCycleCount
    } then Count
    else if field in {
      BeValueTco2e, EfValue, ElectricityExportedMwh, ElectricityGeneratedMwh, ErRecalcErrorPct,
      ErRecalculatedTco2e, ErReportedTco2e, InstalledCapacityMw, LeValueTco2e, PeValueTco2e
    } then Number
    else if field in {
      CreditingPeriodEnd, CreditingPeriodStart, ListedDate, RegisteredDate, VerificationPeriodEnd,
      VerificationPeriodStart
    } then Day
    else if field in {
      BaselineScenarioText, Country, DataFrequency, DataGapProcedureText, EfSourceReference, EfUnit,
      GridConnectionStatus, LeJustificationText, MethodologyName, MethodologyVersion, PeMethodText,
      ProjectBoundaryText, ProjectDeveloper, ProjectId, ProjectName, ProjectOperator, ProjectOwner,
      ProjectParticipant, QaQcProcedureText, RenewableResourceType, TechnologyType, ValidatorName,
      VerifierName, VersionChangeNote
    } then Words
    else Pending
  }

  function ExpectedUnit(field: Field): Option<string> {
    match field
    case InstalledCapacityMw => Some("MW")
    case ElectricityGeneratedMwh | ElectricityExportedMwh => Some("MWh")
    case PeValueTco2e | LeValueTco2e | BeValueTco2e | ErReportedTco2e | ErRecalculatedTco2e => Some("tCO2e")
    case _ => None
  }

  /** Position in the alphabetical list: the order of `ORDER BY field_name`. */
  function Rank(field: Field): nat {
    match field
    case AdditionalityToolUsed => 0
    case ArchivingPeriodYears => 1
    case BarrierAnalysisResult => 2
    case BaselineAssumptionsTable => 3
    case BaselineFormulaPresent => 4
    case BaselineScenarioText => 5
    case BeValueTco2e => 6
    case CommonPracticeResult => 7
    case Country => 8
    case CreditingPeriodEnd => 9
    case CreditingPeriodStart => 10
    case CreditingPeriodYears => 11
    case DataFrequency => 12
    case DataGapProcedureText => 13
    case EfSourceReference => 14
    case EfUnit => 15
    case EfValue => 16
    case EfVintageYear => 17
    case ElectricityExportedMwh => 18
    case ElectricityGeneratedMwh => 19
    case ErRecalcErrorPct => 20
    case ErRecalculatedTco2e => 21
    case ErReportedTco2e => 22
    case GridConnectionStatus => 23
    case InstalledCapacityMw => 24
    case InvestmentAnalysisResult => 25
    case IssuanceCycleCount => 26
    case LeApplicableFlag => 27
    case LeJustificationText => 28
    case LeValueTco2e => 29
    case ListedDate => 30
    case MeterCalibrationStatus => 31
    case MethodologyName => 32
    case MethodologyVersion => 33
    case MonitoringParametersListed => 34
    case PeApplicableFlag => 35
    case PeMethodText => 36
    case PeValueTco2e => 37
    case ProjectBoundaryText => 38
    case ProjectDeveloper => 39
    case ProjectId => 40
    case ProjectName => 41
    case ProjectOperator => 42
    case ProjectOwner => 43
    case ProjectParticipant => 44
    case QaQcProcedureText => 45
    case RegisteredDate => 46
    case RenewableResourceType => 47
    case TechnologyType => 48
    case ValidatorName => 49
    case VerificationCycleCount => 50
    case VerificationPeriodEnd => 51
    case VerificationPeriodStart => 52
    case VerifierName => 53
    case VersionChangeNote => 54
  }
}
