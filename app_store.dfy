/**
 * The application store (src/store/useAppStore.ts): the child being
 * entered, the last calculation results, the preferred height unit and the
 * busy flag, with the actions that replace them.
 *
 * Partial<ChildData> patches are spread over the stored child, so a key
 * that is present in a patch overwrites the stored field even when its
 * value is undefined; a `ChildPatch` field is therefore None for an absent
 * key and Some(v) for a present one, v being None for undefined.
 * Dates are day numbers, and the empty date string is None.
 */
module AppStore {
  import opened Types

  // ---------------------------------------------------------------------------
  // Patches and the spread merge (useAppStore.ts:43-46)
  // ---------------------------------------------------------------------------

  datatype ChildPatch = ChildPatch(
    gender: Option<Option<Gender>>,
    dateOfBirth: Option<Option<int>>,
    measurementDate: Option<Option<int>>,
    height: Option<Option<real>>,
    heightUnit: Option<Option<HeightUnit>>,
    weight: Option<Option<real>>,
    weightUnit: Option<Option<WeightUnit>>,
    selectedMeasurements: Option<Option<seq<Measurement>>>,
    motherHeight: Option<Option<real>>,
    fatherHeight: Option<Option<real>>,
    motherHeightUnit: Option<Option<HeightUnit>>,
    fatherHeightUnit: Option<Option<HeightUnit>>)

  /** The patch without any key. */
  const NoChange: ChildPatch := ChildPatch(None, None, None, None, None, None, None, None, None, None, None, None)

  /** The value of one key after the spread: the patch's when the key is present, the stored one otherwise. */
  function Pick<T>(p: Option<Option<T>>, v: Option<T>): Option<T>
  {
    match p
    case Some(w) => w
    case None => v
  }

  /** `{ ...childData, ...patch }`. */
  function Merge(d: ChildDraft, p: ChildPatch): ChildDraft
  {
    ChildDraft(
      Pick(p.gender, d.gender), Pick(p.dateOfBirth, d.dateOfBirth), Pick(p.measurementDate, d.measurementDate),
      Pick(p.height, d.height), Pick(p.heightUnit, d.heightUnit), Pick(p.weight, d.weight),
      Pick(p.weightUnit, d.weightUnit), Pick(p.selectedMeasurements, d.selectedMeasurements),
      Pick(p.motherHeight, d.motherHeight), Pick(p.fatherHeight, d.fatherHeight),
      Pick(p.motherHeightUnit, d.motherHeightUnit), Pick(p.fatherHeightUnit, d.fatherHeightUnit))
  }

  /** The keys of ChildData. */
  datatype Key = GenderKey | DateOfBirthKey | MeasurementDateKey | HeightKey | HeightUnitKey | WeightKey
               | WeightUnitKey | SelectedMeasurementsKey | MotherHeightKey | FatherHeightKey
               | MotherHeightUnitKey | FatherHeightUnitKey

  /** The value held under one key, whatever its type. */
  datatype FieldValue = GenderValue(g: Option<Gender>) | DateValue(day: Option<int>) | NumberValue(x: Option<real>)
                      | HeightUnitValue(hu: Option<HeightUnit>) | WeightUnitValue(wu: Option<WeightUnit>)
                      | SelectionValue(s: Option<seq<Measurement>>)

  function Get(d: ChildDraft, k: Key): FieldValue
  {
    match k
    case GenderKey => GenderValue(d.gender)
    case DateOfBirthKey => DateValue(d.dateOfBirth)
    case MeasurementDateKey => DateValue(d.measurementDate)
    case HeightKey => NumberValue(d.height)
    case HeightUnitKey => HeightUnitValue(d.heightUnit)
    case WeightKey => NumberValue(d.weight)
    case WeightUnitKey => WeightUnitValue(d.weightUnit)
    case SelectedMeasurementsKey => SelectionValue(d.selectedMeasurements)
    case MotherHeightKey => NumberValue(d.motherHeight)
    case FatherHeightKey => NumberValue(d.fatherHeight)
    case MotherHeightUnitKey => HeightUnitValue(d.motherHeightUnit)
    case FatherHeightUnitKey => HeightUnitValue(d.fatherHeightUnit)
  }

  /** The value a patch carries under one key, None when the key is absent. */
  function PatchGet(p: ChildPatch, k: Key): Option<FieldValue>
  {
    match k
    case GenderKey => if p.gender.Some? then Some(GenderValue(p.gender.value)) else None
    case DateOfBirthKey => if p.dateOfBirth.Some? then Some(DateValue(p.dateOfBirth.value)) else None
    case MeasurementDateKey => if p.measurementDate.Some? then Some(DateValue(p.measurementDate.value)) else None
    case HeightKey => if p.height.Some? then Some(NumberValue(p.height.value)) else None
    case HeightUnitKey => if p.heightUnit.Some? then Some(HeightUnitValue(p.heightUnit.value)) else None
    case WeightKey => if p.weight.Some? then Some(NumberValue(p.weight.value)) else None
    case WeightUnitKey => if p.weightUnit.Some? then Some(WeightUnitValue(p.weightUnit.value)) else None
    case SelectedMeasurementsKey =>
      if p.selectedMeasurements.Some? then Some(SelectionValue(p.selectedMeasurements.value)) else None
    case MotherHeightKey => if p.motherHeight.Some? then Some(NumberValue(p.motherHeight.value)) else None
    case FatherHeightKey => if p.fatherHeight.Some? then Some(NumberValue(p.fatherHeight.value)) else None
    case MotherHeightUnitKey => if p.motherHeightUnit.Some? then Some(HeightUnitValue(p.motherHeightUnit.value)) else None
    case FatherHeightUnitKey => if p.fatherHeightUnit.Some? then Some(HeightUnitValue(p.fatherHeightUnit.value)) else None
  }

  /** Two children that agree on every key are the same child. */
  lemma SameOnEveryKey(a: ChildDraft, b: ChildDraft)
    requires forall k :: Get(a, k) == Get(b, k)
    ensures a == b
  {
    assert Get(a, GenderKey) == Get(b, GenderKey);
    assert Get(a, DateOfBirthKey) == Get(b, DateOfBirthKey);
    assert Get(a, MeasurementDateKey) == Get(b, MeasurementDateKey);
    assert Get(a, HeightKey) == Get(b, HeightKey);
    assert Get(a, HeightUnitKey) == Get(b, HeightUnitKey);
    assert Get(a, WeightKey) == Get(b, WeightKey);
    assert Get(a, WeightUnitKey) == Get(b, WeightUnitKey);
    assert Get(a, SelectedMeasurementsKey) == Get(b, SelectedMeasurementsKey);
    assert Get(a, MotherHeightKey) == Get(b, MotherHeightKey);
    assert Get(a, FatherHeightKey) == Get(b, FatherHeightKey);
    assert Get(a, MotherHeightUnitKey) == Get(b, MotherHeightUnitKey);
    assert Get(a, FatherHeightUnitKey) == Get(b, FatherHeightUnitKey);
  }

  /** The spread overwrites exactly the keys present in the patch and keeps every other field. */
  lemma MergeOverwritesPresentKeys(d: ChildDraft, p: ChildPatch, k: Key)
    ensures PatchGet(p, k).Some? ==> Get(Merge(d, p), k) == PatchGet(p, k).value
    ensures PatchGet(p, k).None? ==> Get(Merge(d, p), k) == Get(d, k)
  {
  }

  /** A patch without keys changes nothing. */
  lemma MergeNoChange(d: ChildDraft)
    ensures Merge(d, NoChange) == d
  {
    forall k
      ensures Get(Merge(d, NoChange), k) == Get(d, k)
    {
      MergeOverwritesPresentKeys(d, NoChange, k);
    }
    SameOnEveryKey(Merge(d, NoChange), d);
  }

  /** A key of two patches applied in turn: the later one's when present. */
  function Later<T>(p: Option<T>, q: Option<T>): Option<T>
  {
    if q.Some? then q else p
  }

  /** The patch of two patches applied in turn. */
  function Then(p: ChildPatch, q: ChildPatch): ChildPatch
  {
    ChildPatch(
      Later(p.gender, q.gender),
      Later(p.dateOfBirth, q.dateOfBirth),
      Later(p.measurementDate, q.measurementDate),
      Later(p.height, q.height),
      Later(p.heightUnit, q.heightUnit),
      Later(p.weight, q.weight),
      Later(p.weightUnit, q.weightUnit),
      Later(p.selectedMeasurements, q.selectedMeasurements),
      Later(p.motherHeight, q.motherHeight),
      Later(p.fatherHeight, q.fatherHeight),
      Later(p.motherHeightUnit, q.motherHeightUnit),
      Later(p.fatherHeightUnit, q.fatherHeightUnit))
  }

  /** The combined patch carries the later patch's value on each key it has, the earlier one's otherwise. */
  lemma ThenPrefersLater(p: ChildPatch, q: ChildPatch, k: Key)
    ensures PatchGet(Then(p, q), k) == if PatchGet(q, k).Some? then PatchGet(q, k) else PatchGet(p, k)
  {
  }

  /** Two setChildData calls in a row are one call with the combined patch. */
  lemma MergeTwice(d: ChildDraft, p: ChildPatch, q: ChildPatch)
    ensures Merge(Merge(d, p), q) == Merge(d, Then(p, q))
  {
    forall k
      ensures Get(Merge(Merge(d, p), q), k) == Get(Merge(d, Then(p, q)), k)
    {
      MergeOverwritesPresentKeys(d, p, k);
      MergeOverwritesPresentKeys(Merge(d, p), q, k);
      MergeOverwritesPresentKeys(d, Then(p, q), k);
      ThenPrefersLater(p, q, k);
    }
    SameOnEveryKey(Merge(Merge(d, p), q), Merge(d, Then(p, q)));
  }

  /** Setting the same patch twice is the same as setting it once. */
  lemma MergeIdempotent(d: ChildDraft, p: ChildPatch)
    ensures Merge(Merge(d, p), p) == Merge(d, p)
  {
    MergeTwice(d, p, p);
    assert Then(p, p) == p;
  }

  // ---------------------------------------------------------------------------
  // The store (useAppStore.ts:25-81)
  // ---------------------------------------------------------------------------

  /**
   * The blank child of a day: no gender, birth date or measurements, that
   * day as the measurement date, an empty selection, cm and kg units.
   */
  function BlankChild(day: int): (d: ChildDraft)
    ensures d.measurementDate == Some(day) && d.selectedMeasurements == Some([])
    ensures d.gender.None? && d.dateOfBirth.None? && d.height.None? && d.weight.None?
    ensures d.motherHeight.None? && d.fatherHeight.None?
    ensures d.heightUnit == Some(Cm) && d.weightUnit == Some(Kg)
    ensures d.motherHeightUnit == Some(Cm) && d.fatherHeightUnit == Some(Cm)
  {
    ChildDraft(None, None, Some(day), None, Some(Cm), None, Some(Kg), Some([]), None, None, Some(Cm), Some(Cm))
  }

  class Store {
    var childData: ChildDraft
    var results: Option<CalculationResults>
    var heightUnit: HeightUnit
    var isCalculating: bool
    /** The day the module was loaded: initialChildData computes its measurement date once, then. */
    const loadDay: int

    /** The initial state: the blank child of the load day, no results, cm, not calculating. */
    constructor(loadDay: int)
      ensures this.loadDay == loadDay
      ensures childData == BlankChild(loadDay) && results.None? && heightUnit == Cm && !isCalculating
    {
      this.loadDay := loadDay;
      childData := BlankChild(loadDay);
      results := None;
      heightUnit := Cm;
      isCalculating := false;
    }

    /** setChildData: the patch is spread over the stored child; nothing else changes. */
    method SetChildData(patch: ChildPatch)
      modifies this
      ensures childData == Merge(old(childData), patch)
      ensures results == old(results) && heightUnit == old(heightUnit) && isCalculating == old(isCalculating)
    {
      childData := Merge(childData, patch);
    }

    /** clearChildData: back to initialChildData, whose measurement date is the load day, not today. */
    method ClearChildData()
      modifies this
      ensures childData == BlankChild(loadDay)
      ensures results == old(results) && heightUnit == old(heightUnit) && isCalculating == old(isCalculating)
    {
      childData := BlankChild(loadDay);
    }

    /** resetForNewCalculation: no results, and the blank child measured today. */
    method ResetForNewCalculation(today: int)
      modifies this
      ensures results.None? && childData == BlankChild(today)
      ensures heightUnit == old(heightUnit) && isCalculating == old(isCalculating)
    {
      results := None;
      childData := BlankChild(today);
    }

    /** setResults: only the results change. */
    method SetResults(r: CalculationResults)
      modifies this
      ensures results == Some(r)
      ensures childData == old(childData) && heightUnit == old(heightUnit) && isCalculating == old(isCalculating)
    {
      results := Some(r);
    }

    /** clearResults: only the results change, to null; a second call changes nothing more. */
    method ClearResults()
      modifies this
      ensures results.None?
      ensures childData == old(childData) && heightUnit == old(heightUnit) && isCalculating == old(isCalculating)
    {
      results := None;
    }

    /** setHeightUnit: only the preferred unit changes. */
    method SetHeightUnit(unit: HeightUnit)
      modifies this
      ensures heightUnit == unit
      ensures childData == old(childData) && results == old(results) && isCalculating == old(isCalculating)
    {
      heightUnit := unit;
    }

    /** setIsCalculating: only the busy flag changes. */
    method SetIsCalculating(loading: bool)
      modifies this
      ensures isCalculating == loading
      ensures childData == old(childData) && results == old(results) && heightUnit == old(heightUnit)
    {
      isCalculating := loading;
    }
  }

  /** clearChildData and resetForNewCalculation leave the same child exactly when the app was loaded today. */
  lemma ClearMatchesResetOnlyOnLoadDay(loadDay: int, today: int)
    ensures BlankChild(loadDay) == BlankChild(today) <==> loadDay == today
  {
    if BlankChild(loadDay) == BlankChild(today) {
      assert BlankChild(loadDay).measurementDate == BlankChild(today).measurementDate;
    }
  }
}
