/**
 * The input form (src/pages/InputPage.tsx): the measurement-selection
 * toggle with its "BMI needs height and weight" rule, and the checks of
 * validateForm. Dates are day numbers and `today` is a parameter.
 */
module InputPage {
  import opened Types
  import opened Conversions

  // ---------------------------------------------------------------------------
  // Measurement selection (InputPage.tsx:16-37, 330, 337)
  // ---------------------------------------------------------------------------

  /** A sequence without repeated members, as `Array.from` of a Set gives. */
  predicate NoDup(s: seq<Measurement>)
  {
    forall i, j :: 0 <= i < j < |s| ==> s[i] != s[j]
  }

  /** The members of a selection. */
  function Elems(s: seq<Measurement>): set<Measurement>
  {
    set x | x in s
  }

  lemma ConsNoDup(x: Measurement, r: seq<Measurement>)
    requires x !in r && NoDup(r)
    ensures NoDup([x] + r)
  {
    forall i, j | 0 <= i < j < |[x] + r|
      ensures ([x] + r)[i] != ([x] + r)[j]
    {
      assert ([x] + r)[j] == r[j - 1];
      if i > 0 {
        assert ([x] + r)[i] == r[i - 1];
      }
    }
  }

  /** `new Set(s)`: the first occurrence of each member, in order. */
  function Dedup(s: seq<Measurement>): (d: seq<Measurement>)
    ensures NoDup(d)
    ensures forall x :: x in d <==> x in s
    ensures |d| <= |s|
  {
    if |s| == 0 then []
    else
      var init := Dedup(s[..|s| - 1]);
      var last := s[|s| - 1];
      assert s == s[..|s| - 1] + [last];
      assert forall x :: x in s <==> x in s[..|s| - 1] || x == last;
      if last in init then init else init + [last]
  }

  /** `set.delete(k)`: the members other than k, in their order. */
  function Delete(s: seq<Measurement>, k: Measurement): (r: seq<Measurement>)
    ensures forall x :: x in r <==> x in s && x != k
    ensures NoDup(s) ==> NoDup(r)
    ensures |r| <= |s|
  {
    if |s| == 0 then []
    else
      assert s == [s[0]] + s[1..];
      assert forall x :: x in s <==> x == s[0] || x in s[1..];
      var rest := Delete(s[1..], k);
      assert NoDup(s) ==> s[0] !in s[1..];
      assert NoDup(s) ==> NoDup(s[1..]);
      if s[0] == k then rest
      else
        assert NoDup(s) ==> NoDup([s[0]] + rest) by {
          if NoDup(s) {
            ConsNoDup(s[0], rest);
          }
        }
        [s[0]] + rest
  }

  /** Deleting an absent key changes nothing. */
  lemma {:induction false} DeleteAbsent(s: seq<Measurement>, k: Measurement)
    requires k !in s
    ensures Delete(s, k) == s
  {
    if |s| > 0 {
      DeleteAbsent(s[1..], k);
      assert s == [s[0]] + s[1..];
    }
  }

  /** Deleting the member at index i leaves the others in their order. */
  lemma {:induction false} DeleteAt(s: seq<Measurement>, k: Measurement, i: nat)
    requires NoDup(s) && i < |s| && s[i] == k
    ensures Delete(s, k) == s[..i] + s[i + 1..]
  {
    var tail := s[1..];
    assert NoDup(tail) by {
      forall a, b | 0 <= a < b < |tail| ensures tail[a] != tail[b] {
        assert tail[a] == s[a + 1] && tail[b] == s[b + 1];
      }
    }
    if i == 0 {
      assert k !in tail by {
        forall j | 0 <= j < |tail| ensures tail[j] != k {
          assert tail[j] == s[j + 1];
        }
      }
      DeleteAbsent(tail, k);
    } else {
      assert s[0] != k;
      assert tail[i - 1] == k;
      DeleteAt(tail, k, i - 1);
      assert tail[..i - 1] == s[1..i] && tail[i..] == s[i + 1..];
      assert [s[0]] + s[1..i] == s[..i];
    }
  }

  /** `set.add(k)`: k is appended unless it is already a member. */
  function Add(s: seq<Measurement>, k: Measurement): (r: seq<Measurement>)
    ensures forall x :: x in r <==> x in s || x == k
    ensures NoDup(s) ==> NoDup(r)
    ensures |s| <= |r| && r[..|s|] == s
  {
    if k in s then s else s + [k]
  }

  /**
   * What toggling k does to the set of selected measurements: a member is
   * removed, and removing height or weight also removes BMI; an absent one
   * is added, and adding BMI also adds height and weight.
   */
  function Toggled(sel: set<Measurement>, k: Measurement): set<Measurement>
  {
    if k in sel then
      if k == HeightM || k == WeightM then sel - {k, BmiM} else sel - {k}
    else
      if k == BmiM then sel + {BmiM, HeightM, WeightM} else sel + {k}
  }

  /**
   * toggleMeasurement: the Set built from the current selection, one key
   * deleted or added (with BMI's dependants), read back as an array. The
   * result has no repeats and holds exactly the toggled set; when adding,
   * the old members keep their order ahead of the new ones (Delete states
   * the order of a removal).
   */
  method ToggleMeasurement(selected: Option<seq<Measurement>>, k: Measurement) returns (next: seq<Measurement>)
    ensures NoDup(next)
    ensures forall x :: x in next <==> x in Toggled(Elems(if selected.Some? then selected.value else []), k)
    ensures k in next <==> selected.None? || k !in selected.value
    ensures var prev := Dedup(if selected.Some? then selected.value else []);
            k !in prev ==> |prev| <= |next| && next[..|prev|] == prev
  {
    var current := if selected.Some? then selected.value else [];
    next := Dedup(current);
    if k in next {
      next := RemoveKey(next, k);
    } else {
      next := AddKey(next, k);
    }
  }

  /** The removing branch: delete k, and BMI with it when k is height or weight. */
  method RemoveKey(set0: seq<Measurement>, k: Measurement) returns (next: seq<Measurement>)
    requires NoDup(set0) && k in set0
    ensures NoDup(next)
    ensures forall x :: x in next <==> x in set0 && x != k && (x == BmiM ==> k != HeightM && k != WeightM)
  {
    next := Delete(set0, k);
    if (k == HeightM || k == WeightM) && BmiM in next {
      next := Delete(next, BmiM);
    }
  }

  /** The adding branch: add k, and height and weight after it when k is BMI. */
  method AddKey(set0: seq<Measurement>, k: Measurement) returns (next: seq<Measurement>)
    requires NoDup(set0) && k !in set0
    ensures NoDup(next)
    ensures forall x :: x in next <==> x in set0 || x == k || (k == BmiM && (x == HeightM || x == WeightM))
    ensures |set0| <= |next| && next[..|set0|] == set0
  {
    next := Add(set0, k);
    if k == BmiM {
      next := Add(next, HeightM);
      next := Add(next, WeightM);
    }
  }

  /** The invariant the selection UI keeps: BMI is only selected together with height and weight. */
  predicate BmiClosed(sel: set<Measurement>)
  {
    BmiM in sel ==> HeightM in sel && WeightM in sel
  }

  /** Toggling any key keeps the invariant. */
  lemma ToggleKeepsBmiClosed(sel: set<Measurement>, k: Measurement)
    requires BmiClosed(sel)
    ensures BmiClosed(Toggled(sel, k))
    ensures k in Toggled(sel, k) <==> k !in sel
  {
  }

  /** A selection that breaks the invariant: BMI without weight. */
  lemma ToggleNeedsBmiClosed()
    ensures !BmiClosed(Toggled({BmiM}, HeightM))
  {
    assert Toggled({BmiM}, HeightM) == {BmiM, HeightM};
  }

  /** "Select all" sets the three measurements and "Clear" the empty list; both keep the invariant. */
  const SelectAll: seq<Measurement> := [HeightM, WeightM, BmiM]
  const ClearAll: seq<Measurement> := []

  lemma SelectAllAndClearBmiClosed()
    ensures BmiClosed(Elems(SelectAll)) && Elems(SelectAll) == {HeightM, WeightM, BmiM}
    ensures BmiClosed(Elems(ClearAll)) && Elems(ClearAll) == {}
  {
    assert SelectAll[2] == BmiM && SelectAll[0] == HeightM && SelectAll[1] == WeightM;
  }

  /** requiresHeight: height or BMI is selected. */
  function RequiresHeight(selected: Option<seq<Measurement>>): (b: bool)
    ensures b <==> selected.Some? && (HeightM in selected.value || BmiM in selected.value)
  {
    var s := if selected.Some? then selected.value else [];
    HeightM in s || BmiM in s
  }

  /** requiresWeight: weight or BMI is selected. */
  function RequiresWeight(selected: Option<seq<Measurement>>): (b: bool)
    ensures b <==> selected.Some? && (WeightM in selected.value || BmiM in selected.value)
  {
    var s := if selected.Some? then selected.value else [];
    WeightM in s || BmiM in s
  }

  /** Under the invariant, BMI adds nothing to what has to be entered. */
  lemma RequiresUnderBmiClosed(s: seq<Measurement>)
    requires BmiClosed(Elems(s))
    ensures RequiresHeight(Some(s)) <==> HeightM in s
    ensures RequiresWeight(Some(s)) <==> WeightM in s
  {
    assert BmiM in s ==> BmiM in Elems(s);
    assert HeightM in Elems(s) ==> HeightM in s;
    assert WeightM in Elems(s) ==> WeightM in s;
  }

  // ---------------------------------------------------------------------------
  // validateForm (InputPage.tsx:149-258)
  // ---------------------------------------------------------------------------

  /** The keys of the error record. */
  datatype Field = Measurements | GenderField | DateOfBirthField | MeasurementDateField
                 | HeightField | WeightField | MotherHeightField | FatherHeightField

  /** The message of an error, by kind; a range message carries its bounds. */
  datatype FormError =
    | SelectMeasurement        // 'Please select at least one measurement type'
    | Missing                  // the field is empty, zero or not positive
    | FutureBirth              // 'Date of birth cannot be in the future'
    | TooOld                   // 'This calculator is designed for children 0-19 years old'
    | InvalidAge               // 'Please enter a valid date'
    | BeforeBirth              // 'Measurement date cannot be before birth date'
    | OutOfRange(min: real, max: real)

  const AllFields: set<Field> := {Measurements, GenderField, DateOfBirthField, MeasurementDateField,
                                  HeightField, WeightField, MotherHeightField, FatherHeightField}

  /** The child's height range: 30-220 cm, and 12-87 for any other unit. */
  function HeightRange(unit: Option<HeightUnit>): (real, real)
  {
    if unit == Some(Cm) then (30.0, 220.0) else (12.0, 87.0)
  }

  /** The weight range: 1.5-200 kg, and 3.3-440 for any other unit. */
  function WeightRange(unit: Option<WeightUnit>): (real, real)
  {
    if unit == Some(Kg) then (1.5, 200.0) else (3.3, 440.0)
  }

  /** A parent's height range: 120-220 cm, and 47-87 for any other unit. */
  function ParentRange(unit: Option<HeightUnit>): (real, real)
  {
    if unit == Some(Cm) then (120.0, 220.0) else (47.0, 87.0)
  }

  /** The check of one number: missing, zero or negative, then outside [min, max]. */
  function NumberError(v: Option<real>, range: (real, real)): (e: Option<FormError>)
    ensures e.None? <==> v.Some? && v.value > 0.0 && range.0 <= v.value <= range.1
    ensures e.Some? ==> e.value == Missing || e.value == OutOfRange(range.0, range.1)
  {
    if !Truthy(v) || v.value <= 0.0 then Some(Missing)
    else if v.value < range.0 || v.value > range.1 then Some(OutOfRange(range.0, range.1))
    else None
  }

  /** The selection is missing or empty. */
  predicate NoSelection(data: ChildDraft)
  {
    data.selectedMeasurements.None? || |data.selectedMeasurements.value| == 0
  }

  /** includes(m) on the optional selection. */
  predicate Selected(data: ChildDraft, m: Measurement)
  {
    data.selectedMeasurements.Some? && m in data.selectedMeasurements.value
  }

  /**
   * The date-of-birth check with the future-date test made first: the
   * age is computed only for a birth date not after today.
   */
  function BirthDateError(dob: Option<int>, today: int): (e: Option<FormError>)
    ensures dob.None? ==> e == Some(Missing)
    ensures dob.Some? && dob.value > today ==> e == Some(FutureBirth)
    ensures dob.Some? && dob.value <= today ==>
              (e.Some? <==> CalculateAge(dob, Some(today)).value.ageInMonths > 240.0)
    ensures e != Some(InvalidAge)
  {
    if dob.None? then Some(Missing)
    else if dob.value > today then Some(FutureBirth)
    else
      var age := CalculateAge(dob, Some(today)).value;
      if age.ageInMonths > 240.0 then Some(TooOld)
      else if age.ageInDays < 0 then Some(InvalidAge)
      else None
  }

  /** The error recorded for one field, or None. */
  function FieldError(data: ChildDraft, today: int, f: Field): Option<FormError>
  {
    if NoSelection(data) then
      if f == Measurements then Some(SelectMeasurement) else None
    else match f
      case Measurements => None
      case GenderField => if data.gender.None? then Some(Missing) else None
      case DateOfBirthField => BirthDateError(data.dateOfBirth, today)
      case MeasurementDateField =>
        if data.measurementDate.None? then Some(Missing)
        else if data.dateOfBirth.Some? && data.measurementDate.value < data.dateOfBirth.value then Some(BeforeBirth)
        else None
      case HeightField =>
        if Selected(data, HeightM) then NumberError(data.height, HeightRange(data.heightUnit)) else None
      case WeightField =>
        if Selected(data, WeightM) then NumberError(data.weight, WeightRange(data.weightUnit)) else None
      case MotherHeightField =>
        if Selected(data, HeightM) then NumberError(data.motherHeight, ParentRange(data.motherHeightUnit)) else None
      case FatherHeightField =>
        if Selected(data, HeightM) then NumberError(data.fatherHeight, ParentRange(data.fatherHeightUnit)) else None
  }

  /** The errors of the fields in `done`: one entry per such field that has an error. */
  function ErrorsOf(data: ChildDraft, today: int, done: set<Field>): map<Field, FormError>
  {
    map f | f in done && FieldError(data, today, f).Some? :: FieldError(data, today, f).value
  }

  /** The error record validateForm commits. */
  function Errors(data: ChildDraft, today: int): map<Field, FormError>
  {
    ErrorsOf(data, today, AllFields)
  }

  /** Checking field f adds its error, if it has one, to the record of the fields before it. */
  lemma RecordStep(data: ChildDraft, today: int, done: set<Field>, f: Field)
    ensures ErrorsOf(data, today, done + {f})
            == if FieldError(data, today, f).Some? then ErrorsOf(data, today, done)[f := FieldError(data, today, f).value]
               else ErrorsOf(data, today, done)
  {
  }

  /** Every field is one of the eight keys. */
  lemma AllFieldsComplete(done: set<Field>)
    requires done == {Measurements, GenderField, DateOfBirthField, MeasurementDateField, HeightField, WeightField, MotherHeightField, FatherHeightField}
    ensures done == AllFields
  {
  }

  /** A map is empty exactly when it has no keys. */
  lemma MapEmptyIffNoKeys(m: map<Field, FormError>)
    ensures |m| == 0 <==> m == map[]
  {
    if |m| == 0 {
      assert m.Keys == {};
    }
  }

  /** A missing or empty selection yields the single 'measurements' error. */
  lemma EmptySelectionRecord(data: ChildDraft, today: int)
    requires NoSelection(data)
    ensures Errors(data, today) == map[Measurements := SelectMeasurement]
  {
    var e := Errors(data, today);
    assert Measurements in AllFields && Measurements in e;
    assert forall f :: f in e ==> f == Measurements;
  }

  /**
   * validateForm with the future-date test ahead of the age computation:
   * the record is filled one check after the other, and the form is valid
   * exactly when it stays empty.
   */
  method ValidateForm(data: ChildDraft, today: int) returns (valid: bool, errors: map<Field, FormError>)
    ensures errors == Errors(data, today)
    ensures valid <==> errors == map[]
  {
    if data.selectedMeasurements.None? || |data.selectedMeasurements.value| == 0 {
      EmptySelectionRecord(data, today);
      errors := map[Measurements := SelectMeasurement];
      assert Measurements in errors;
      return false, errors;
    }
    errors := CheckGender(data, today);
    RecordStep(data, today, {Measurements, GenderField}, DateOfBirthField);
    if data.dateOfBirth.None? {
      errors := errors[DateOfBirthField := Missing];
    } else if data.dateOfBirth.value > today {
      errors := errors[DateOfBirthField := FutureBirth];
    } else {
      var age := CalculateAge(data.dateOfBirth, Some(today)).value;
      if age.ageInMonths > 240.0 {
        errors := errors[DateOfBirthField := TooOld];
      } else if age.ageInDays < 0 {
        errors := errors[DateOfBirthField := InvalidAge];
      }
    }
    errors := CheckRest(data, today, errors);
    valid := |errors| == 0;
    MapEmptyIffNoKeys(errors);
  }

  /** The first check of a non-empty selection: the gender. */
  method CheckGender(data: ChildDraft, today: int) returns (errors: map<Field, FormError>)
    requires !NoSelection(data)
    ensures errors == ErrorsOf(data, today, {Measurements, GenderField})
  {
    errors := map[];
    assert errors == ErrorsOf(data, today, {});
    RecordStep(data, today, {}, Measurements);
    RecordStep(data, today, {Measurements}, GenderField);
    if data.gender.None? {
      errors := errors[GenderField := Missing];
    }
  }

  /**
   * The checks after the date of birth, on a record that holds exactly the
   * errors of the fields before them: the measurement date, then the
   * selected measurements and the parents' heights.
   */
  method CheckRest(data: ChildDraft, today: int, before: map<Field, FormError>) returns (errors: map<Field, FormError>)
    requires !NoSelection(data)
    requires before == ErrorsOf(data, today, {Measurements, GenderField, DateOfBirthField})
    ensures errors == Errors(data, today)
  {
    errors := before;
    var done := {Measurements, GenderField, DateOfBirthField};
    RecordStep(data, today, done, MeasurementDateField);
    if data.measurementDate.None? {
      errors := errors[MeasurementDateField := Missing];
    } else if data.dateOfBirth.Some? && data.measurementDate.value < data.dateOfBirth.value {
      errors := errors[MeasurementDateField := BeforeBirth];
    }
    done := done + {MeasurementDateField};
    errors := CheckNumber(data, today, errors, done, HeightField, HeightM, data.height, HeightRange(data.heightUnit));
    done := done + {HeightField};
    errors := CheckNumber(data, today, errors, done, WeightField, WeightM, data.weight, WeightRange(data.weightUnit));
    done := done + {WeightField};
    errors := CheckNumber(data, today, errors, done, MotherHeightField, HeightM, data.motherHeight, ParentRange(data.motherHeightUnit));
    done := done + {MotherHeightField};
    errors := CheckNumber(data, today, errors, done, FatherHeightField, HeightM, data.fatherHeight, ParentRange(data.fatherHeightUnit));
    done := done + {FatherHeightField};
    AllFieldsComplete(done);
  }

  /** One number check: when measurement `m` is selected, record the error of value `v` in `range`, if any. */
  method CheckNumber(data: ChildDraft, today: int, before: map<Field, FormError>, done: set<Field>,
                     f: Field, m: Measurement, v: Option<real>, range: (real, real))
    returns (errors: map<Field, FormError>)
    requires !NoSelection(data)
    requires before == ErrorsOf(data, today, done)
    requires FieldError(data, today, f) == if Selected(data, m) then NumberError(v, range) else None
    ensures errors == ErrorsOf(data, today, done + {f})
  {
    errors := before;
    RecordStep(data, today, done, f);
    if m in data.selectedMeasurements.value {
      var e := NumberError(v, range);
      if e.Some? {
        errors := errors[f := e.value];
      }
    }
  }

  /**
   * validateForm as written: calculateAge(dateOfBirth, today) runs before
   * the future-date test and throws on a birth date after today, so the
   * call fails instead of recording 'Date of birth cannot be in the future';
   * every other input gets the corrected result.
   */
  method ValidateFormAsWritten(data: ChildDraft, today: int) returns (r: Result<(bool, map<Field, FormError>)>)
    ensures r.Failure? <==> !NoSelection(data) && data.dateOfBirth.Some? && data.dateOfBirth.value > today
    ensures r.Failure? ==> r.error == MeasurementBeforeBirth
    ensures r.Success? ==> r.value.1 == Errors(data, today) && (r.value.0 <==> r.value.1 == map[])
  {
    if data.selectedMeasurements.None? || |data.selectedMeasurements.value| == 0 {
      EmptySelectionRecord(data, today);
      var errors := map[Measurements := SelectMeasurement];
      assert Measurements in errors;
      return Success((false, errors));
    }
    var errors := CheckGender(data, today);
    RecordStep(data, today, {Measurements, GenderField}, DateOfBirthField);
    if data.dateOfBirth.None? {
      errors := errors[DateOfBirthField := Missing];
    } else {
      var age := CalculateAge(data.dateOfBirth, Some(today));
      if age.Failure? {
        return Failure(age.error);
      }
      if data.dateOfBirth.value > today {
        errors := errors[DateOfBirthField := FutureBirth];
      } else if age.value.ageInMonths > 240.0 {
        errors := errors[DateOfBirthField := TooOld];
      } else if age.value.ageInDays < 0 {
        errors := errors[DateOfBirthField := InvalidAge];
      }
    }
    errors := CheckRest(data, today, errors);
    MapEmptyIffNoKeys(errors);
    return Success((|errors| == 0, errors));
  }

  /**
   * With a selection, the child's height has no error exactly when height
   * is not selected or the height is positive and within the unit's range;
   * the same holds for the weight.
   */
  lemma MeasurementRules(data: ChildDraft, today: int)
    requires !NoSelection(data)
    ensures HeightField !in Errors(data, today) <==>
              !Selected(data, HeightM)
              || (data.height.Some? && data.height.value > 0.0
                  && HeightRange(data.heightUnit).0 <= data.height.value <= HeightRange(data.heightUnit).1)
    ensures WeightField !in Errors(data, today) <==>
              !Selected(data, WeightM)
              || (data.weight.Some? && data.weight.value > 0.0
                  && WeightRange(data.weightUnit).0 <= data.weight.value <= WeightRange(data.weightUnit).1)
  {
    assert HeightField in AllFields && WeightField in AllFields;
  }

  /** The parents' heights are checked only when height is selected, against 120-220 cm or 47-87. */
  lemma ParentRules(data: ChildDraft, today: int)
    requires !NoSelection(data)
    ensures !Selected(data, HeightM) ==> MotherHeightField !in Errors(data, today) && FatherHeightField !in Errors(data, today)
    ensures Selected(data, HeightM) ==>
              (MotherHeightField !in Errors(data, today) <==>
                 data.motherHeight.Some? && data.motherHeight.value > 0.0
                 && ParentRange(data.motherHeightUnit).0 <= data.motherHeight.value <= ParentRange(data.motherHeightUnit).1)
    ensures Selected(data, HeightM) ==>
              (FatherHeightField !in Errors(data, today) <==>
                 data.fatherHeight.Some? && data.fatherHeight.value > 0.0
                 && ParentRange(data.fatherHeightUnit).0 <= data.fatherHeight.value <= ParentRange(data.fatherHeightUnit).1)
  {
    assert MotherHeightField in AllFields && FatherHeightField in AllFields;
  }

  /** With the future-date test first, a birth date after today is reported, and 'Please enter a valid date' never is. */
  lemma BirthDateRules(data: ChildDraft, today: int)
    requires !NoSelection(data)
    ensures data.dateOfBirth.Some? && data.dateOfBirth.value > today ==>
              DateOfBirthField in Errors(data, today) && Errors(data, today)[DateOfBirthField] == FutureBirth
    ensures DateOfBirthField in Errors(data, today) ==> Errors(data, today)[DateOfBirthField] != InvalidAge
  {
    assert DateOfBirthField in AllFields;
  }

  /** The concrete case: born tomorrow. */
  lemma BornTomorrow(data: ChildDraft)
    requires data.selectedMeasurements == Some([HeightM]) && data.dateOfBirth == Some(101)
    ensures CalculateAge(data.dateOfBirth, Some(100)) == Failure(MeasurementBeforeBirth)
    ensures Errors(data, 100)[DateOfBirthField] == FutureBirth
  {
    BirthDateRules(data, 100);
  }
}
