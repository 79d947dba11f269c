/**
 * The value types of the growth calculator (src/types/index.ts), plus the
 * Option/Result wrappers that stand for `undefined`/`null` and for thrown errors.
 */
module Types {

  datatype Option<+T> = None | Some(value: T)

  /** The errors the engine throws, one constructor per distinct `throw`. */
  datatype Error =
    | InvalidDate              // unparseable date string
    | MeasurementBeforeBirth   // calculateAge: measurement date before birth date
    | NegativeHeight           // convertHeight on a negative value
    | NegativeWeight           // convertWeight on a negative value
    | NegativeAge              // interpolateLMS on a negative age
    | EmptyTable               // interpolateLMS on an empty table
    | NonPositiveLmsInput      // calculateZScore: measurement, M or S not positive
    | NonPositiveBmiInput      // calculateBMI: weight or height not positive
    | InvalidChildData         // calculateGrowthResult: gender, height or unit missing
    | MissingParentData        // calculateMidParentalHeight: a parent value missing
    | LengthOutOfRange         // calculateWeightForLengthPercentile: no table row

  datatype Result<+T> = Success(value: T) | Failure(error: Error)

  datatype Gender = Male | Female
  datatype HeightUnit = Cm | Inches
  datatype WeightUnit = Kg | Lb
  datatype GrowthStandard = WHO | CDC
  datatype Measurement = HeightM | WeightM | BmiM

  /**
   * One row of an LMS reference table: `x` is ageMonths (LMSData) or the
   * length in cm (weight-for-length rows).
   */
  datatype LmsPoint = LmsPoint(x: real, L: real, M: real, S: real)

  datatype AgeCalculation = AgeCalculation(ageYears: int, ageMonths: int, ageInMonths: real, ageInDays: int)

  /** The wording of an interpretation or advice text is represented by the band it was chosen for. */
  datatype GrowthResult = GrowthResult(
    zScore: real, percentile: real, standard: GrowthStandard,
    interpretation: Text, advice: Text, isNormal: bool)

  /** Which sentence a generator produced: the metric, the kind of text and the band. */
  datatype Text = Text(metric: Metric, kind: TextKind, band: nat)
  datatype Metric = HeightFor(term: MeasurementTerm) | WeightForAge | BmiForAge | WeightForLength
  datatype MeasurementTerm = LengthTerm | HeightTerm
  datatype TextKind = Interpretation | Advice

  /** The level-2 fields exist in the type but are never computed, hence always None. */
  datatype MidParentalHeight = MidParentalHeight(
    mph: real, thrLevel1Min: real, thrLevel1Max: real,
    thrLevel2Min: Option<real>, thrLevel2Max: Option<real>,
    mphZScore: real, thrLevel1MinZScore: real, thrLevel1MaxZScore: real,
    thrLevel2MinZScore: Option<real>, thrLevel2MaxZScore: Option<real>)

  /**
   * Partial<ChildData> as the store and the form hold it: every field may be
   * undefined. Dates are day numbers; the empty date string is None.
   */
  datatype ChildDraft = ChildDraft(
    gender: Option<Gender>,
    dateOfBirth: Option<int>,
    measurementDate: Option<int>,
    height: Option<real>,
    heightUnit: Option<HeightUnit>,
    weight: Option<real>,
    weightUnit: Option<WeightUnit>,
    selectedMeasurements: Option<seq<Measurement>>,
    motherHeight: Option<real>,
    fatherHeight: Option<real>,
    motherHeightUnit: Option<HeightUnit>,
    fatherHeightUnit: Option<HeightUnit>)

  /** The seven percentile curves of one chart point. */
  datatype Curves = Curves(p3: real, p10: real, p25: real, p50: real, p75: real, p90: real, p97: real)

  /** ChartDataPoint: `age` in years; the overlay fields are undefined (None) unless set. */
  datatype ChartPoint = ChartPoint(
    age: real, curves: Curves,
    mphLine: Option<real>, thrLevel1Min: Option<real>, thrLevel1Max: Option<real>,
    thrLevel2Min: Option<real>, thrLevel2Max: Option<real>)

  datatype CalculationResults = CalculationResults(
    childData: ChildDraft, age: AgeCalculation, growthResult: GrowthResult,
    midParentalHeight: Option<MidParentalHeight>, chartData: seq<ChartPoint>)

  /** JavaScript truthiness of an optional number: undefined and 0 are falsy. */
  predicate Truthy(v: Option<real>)
  {
    v.Some? && v.value != 0.0
  }
}
