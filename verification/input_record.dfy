/** The record the predictor builds from the form before calling the
    fitted pipeline (app.py lines 145-164): six named columns whose names
    are the training script's feature list and whose screen-time value goes
    through the same normaliser the training data went through. */
module InputRecord {
  import opened Wrappers
  import opened ScreenTime
  import Schema
  import Conclusion

  /** A cell of the one-row frame handed to the pipeline. */
  datatype FieldValue = IntValue(i: int) | RealValue(r: real) | NaN | TextValue(s: string)

  /** The form: the age field and the five select boxes, as chosen. */
  datatype Form = Form(
    age: int,
    sex: string,
    illness: string,
    screenTime: string,
    exercise: string,
    smokeDrink: string)

  /** The options the form's select boxes offer. */
  const SexOptions: seq<string> := ["Laki-laki", "Perempuan"]
  const YesNoOptions: seq<string> := ["Ya", "Tidak"]
  const ScreenTimeOptions: seq<string> := ["< 2 jam", "2-4 jam", "> 4 jam"]
  const ExerciseOptions: seq<string> := ["Jarang", "Kadang", "Sering"]

  /** A form whose fields hold what the widgets can produce: an age from 10
      to 100 and one of the offered options in each select box. */
  predicate WellFormed(f: Form)
  {
    && 10 <= f.age <= 100
    && f.sex in SexOptions
    && f.illness in YesNoOptions
    && f.screenTime in ScreenTimeOptions
    && f.exercise in ExerciseOptions
    && f.smokeDrink in YesNoOptions
  }

  /** A normalised screen time as a frame cell: NaN when missing. */
  function ToField(v: Option<real>): (fv: FieldValue)
  {
    match v
    case None => NaN
    case Some(x) => RealValue(x)
  }

  /** The `input_data` dictionary, as its (column, value) pairs in order. */
  function BuildInput(f: Form): (rec: seq<(string, FieldValue)>)
    ensures |rec| == |Schema.Features|
    ensures forall k :: 0 <= k < |rec| ==> rec[k].0 == Schema.Features[k]
    ensures rec[0].1 == IntValue(f.age)
    ensures rec[3].1 == ToField(TrainerConvertScreenTime(Value(f.screenTime)))
    ensures rec[1].1 == TextValue(f.sex) && rec[2].1 == TextValue(f.illness)
    ensures rec[4].1 == TextValue(f.exercise) && rec[5].1 == TextValue(f.smokeDrink)
  {
    CopiesAgree(Value(f.screenTime));
    [
      ("usia", IntValue(f.age)),
      ("jenis_kelamin", TextValue(f.sex)),
      ("penyakit_fisik", TextValue(f.illness)),
      ("screen_time", ToField(AppConvertScreenTime(Value(f.screenTime)))),
      ("frekuensi_olahraga", TextValue(f.exercise)),
      ("rokok_alkohol", TextValue(f.smokeDrink))
    ]
  }

  /** Each screen-time option of the form normalises to a number. */
  lemma OptionIsNumeric(t: string)
    requires t == "< 2 jam" || t == "2-4 jam" || t == "> 4 jam"
    ensures AppConvertScreenTime(Value(t)) in {Some(1.5), Some(3.0), Some(5.0)}
  {
    FormOptionsNormalise();
  }

  /** Every record the form can produce has a numeric screen time: the
      missing sentinel never reaches the pipeline from the form. */
  lemma FormScreenTimeIsNumeric(f: Form)
    requires WellFormed(f)
    ensures BuildInput(f)[3].1 in {RealValue(1.5), RealValue(3.0), RealValue(5.0)}
  {
    OptionIsNumeric(f.screenTime);
  }

  /** The worked example: a 25-year-old man without illness, 2-4 hours of
      screen time, occasional exercise, no smoking or drinking. The record
      carries the surrogate 3.0. The fitted pipeline is not modelled, so `p`
      stands for its prediction on this record; a prediction in the healthy
      band yields the healthy-range message. */
  lemma ExampleRecord(p: real)
    requires 6.0 <= p <= 8.0
    ensures BuildInput(Form(25, "Laki-laki", "Tidak", "2-4 jam", "Kadang", "Tidak"))[3].1
            == RealValue(3.0)
    ensures Conclusion.GenerateConclusion(p) == Conclusion.HealthyMessage
  {
    FormOptionsNormalise();
    CopiesAgree(Value("2-4 jam"));
  }
}
