/** The feature schema the training script builds before fitting
    (dl.py lines 17-26, 48-49 and 56-57): header clean-up, the fixed
    rename map from survey questions to canonical column names, the column
    selection `df[features]`, and the split of the six features into the
    numeric and the categorical subset. */
module Schema {
  import opened Wrappers
  import opened Text

  // Each question is the header text of dl.py, written as its first word
  // followed by the rest so that `Trimmed` can read the first character
  // of the constant without unfolding the whole literal.
  const AgeQuestion: string := "Berapa" + " usia Anda saat ini?"
  const SexQuestion: string := "Pilih" + " jenis kelamin Anda"
  const IllnessQuestion: string :=
    "Apakah" + " Anda memiliki penyakit fisik (misalnya penyakit kronis)?"
  const ScreenQuestion: string :=
    "Berapa" + " lama rata-rata waktu penggunaan layar Anda setiap hari (HP, laptop, TV, dll)?"
  const ExerciseQuestion: string := "Seberapa" + " sering Anda berolahraga?"
  const SmokeQuestion: string :=
    "Apakah" + " Anda memiliki kebiasaan merokok atau minum alkohol?"
  const Target: string := "sleep_time"

  /** The six survey questions, in the order of the feature list. */
  const Questions: seq<string> :=
    [AgeQuestion, SexQuestion, IllnessQuestion, ScreenQuestion, ExerciseQuestion, SmokeQuestion]

  /** The rename passed to `DataFrame.rename(columns=...)`; the target
      column is listed as mapping to itself. */
  const RenameMap: map<string, string> := map[
    AgeQuestion := "usia",
    SexQuestion := "jenis_kelamin",
    IllnessQuestion := "penyakit_fisik",
    ScreenQuestion := "screen_time",
    ExerciseQuestion := "frekuensi_olahraga",
    SmokeQuestion := "rokok_alkohol",
    Target := Target
  ]

  const Features: seq<string> :=
    ["usia", "jenis_kelamin", "penyakit_fisik", "screen_time", "frekuensi_olahraga", "rokok_alkohol"]

  const NumericFeatures: seq<string> := ["usia", "screen_time"]

  /** `[c for c in X.columns if c not in numeric_features]`; the columns of
      `X = df[features]` are `Features`, in that order. */
  const CategoricalFeatures: seq<string> := FilterOut(Features, NumericFeatures)

  /** `pandas` renaming of one header: a header in the map takes its new
      name, every other header is kept as it is. */
  function Rename(h: string): (r: string)
    ensures h in RenameMap ==> r == RenameMap[h]
    ensures h !in RenameMap ==> r == h
    ensures r in RenameMap ==> RenameMap[r] == r
  {
    if h in RenameMap then RenameMap[h] else h
  }

  /** The header clean-up of the training script: strip every header, then
      rename it. The number and order of the columns does not change. */
  function PrepareColumns(headers: seq<string>): (cols: seq<string>)
    ensures |cols| == |headers|
    ensures forall i :: 0 <= i < |headers| ==> cols[i] == Rename(Strip(headers[i]))
    ensures forall i :: 0 <= i < |cols| ==> Trimmed(cols[i])
  {
    CanonicalNamesTrimmed();
    seq(|headers|, i requires 0 <= i < |headers| => Rename(Strip(headers[i])))
  }

  lemma CanonicalNamesTrimmed()
    ensures forall h :: h in RenameMap ==> Trimmed(RenameMap[h])
  {
  }

  /** Cleaning the headers twice changes nothing more than cleaning once. */
  lemma PrepareColumnsIdempotent(headers: seq<string>)
    ensures PrepareColumns(PrepareColumns(headers)) == PrepareColumns(headers)
  {
    var cols := PrepareColumns(headers);
    forall i | 0 <= i < |cols|
      ensures Rename(Strip(cols[i])) == cols[i]
    {
      StripTrimmed(cols[i]);
      RenameIdempotent(Strip(headers[i]));
    }
  }

  /** `a` is a subsequence of `b`: `b` with some elements dropped and the
      order of the rest kept. */
  predicate IsSubsequence(a: seq<string>, b: seq<string>)
  {
    || |a| == 0
    || (&& |b| > 0
        && ((a[0] == b[0] && IsSubsequence(a[1..], b[1..])) || IsSubsequence(a, b[1..])))
  }

  /** The elements of `xs` that are not in `drop`, in the order of `xs`. */
  function FilterOut(xs: seq<string>, drop: seq<string>): (r: seq<string>)
    ensures IsSubsequence(r, xs)
  {
    if |xs| == 0 then []
    else
      var rest := FilterOut(xs[1..], drop);
      if xs[0] in drop then rest
      else
        assert ([xs[0]] + rest)[1..] == rest;
        [xs[0]] + rest
  }

  /** The filter keeps exactly the elements of `xs` that are not in `drop`. */
  lemma {:induction false} FilterOutMembers(xs: seq<string>, drop: seq<string>)
    ensures forall x :: x in FilterOut(xs, drop) <==> x in xs && x !in drop
    ensures forall x :: multiset(FilterOut(xs, drop))[x]
                        == if x in drop then 0 else multiset(xs)[x]
  {
    if |xs| > 0 {
      FilterOutMembers(xs[1..], drop);
      assert xs == [xs[0]] + xs[1..];
      assert multiset(xs) == multiset{xs[0]} + multiset(xs[1..]);
      assert forall x :: x in xs <==> x == xs[0] || x in xs[1..];
      if xs[0] !in drop {
        var rest := FilterOut(xs[1..], drop);
        assert multiset([xs[0]] + rest) == multiset{xs[0]} + multiset(rest);
      }
    }
  }

  /** The numeric and categorical lists partition the features: they share
      no name, together they hold every feature, the categorical list keeps
      the feature order, and it is exactly the four categorical columns. */
  lemma FeaturePartition()
    ensures forall f :: f in NumericFeatures ==> f !in CategoricalFeatures
    ensures forall f :: f in Features <==> f in NumericFeatures || f in CategoricalFeatures
    ensures |NumericFeatures| + |CategoricalFeatures| == |Features|
    ensures IsSubsequence(CategoricalFeatures, Features)
    ensures CategoricalFeatures
            == ["jenis_kelamin", "penyakit_fisik", "frekuensi_olahraga", "rokok_alkohol"]
  {
    CategoricalValue();
  }

  lemma CategoricalValue()
    ensures CategoricalFeatures
            == ["jenis_kelamin", "penyakit_fisik", "frekuensi_olahraga", "rokok_alkohol"]
  {
    var f := Features;
    CategoricalTail();
    FilterKeep(f[1..], NumericFeatures);
    assert f[1..][1..] == f[2..];
  }

  lemma CategoricalTail()
    ensures FilterOut(Features[2..], NumericFeatures)
            == ["penyakit_fisik", "frekuensi_olahraga", "rokok_alkohol"]
  {
    var f := Features;
    assert f[5..][1..] == [];
    FilterKeep(f[5..], NumericFeatures);
    assert f[4..][1..] == f[5..];
    FilterKeep(f[4..], NumericFeatures);
    assert f[3..][1..] == f[4..];
    assert f[2..][1..] == f[3..];
    FilterKeep(f[2..], NumericFeatures);
  }

  /** One step of the filter on a list whose head is kept. */
  lemma FilterKeep(xs: seq<string>, drop: seq<string>)
    requires |xs| > 0 && xs[0] !in drop
    ensures FilterOut(xs, drop) == [xs[0]] + FilterOut(xs[1..], drop)
  {
  }

  /** Renaming is idempotent: a canonical name is never itself renamed. */
  lemma RenameIdempotent(h: string)
    ensures Rename(Rename(h)) == Rename(h)
  {
  }

  /** The six questions rename to the six features, position by position. */
  lemma QuestionsRenameToFeatures()
    ensures |Questions| == |Features|
    ensures forall k :: 0 <= k < |Questions| ==> Rename(Questions[k]) == Features[k]
  {
  }

  /** No survey question starts or ends with whitespace. */
  lemma QuestionsTrimmed()
    ensures forall k :: 0 <= k < |Questions| ==> Trimmed(Questions[k])
  {
    assert Trimmed(AgeQuestion);
    assert Trimmed(SexQuestion);
    assert Trimmed(IllnessQuestion);
    assert Trimmed(ScreenQuestion);
    assert Trimmed(ExerciseQuestion);
    assert Trimmed(SmokeQuestion);
  }

  /** Position of the first column called `name`. */
  function IndexOf(columns: seq<string>, name: string): (i: nat)
    requires name in columns
    ensures i < |columns| && columns[i] == name
    ensures forall k :: 0 <= k < i ==> columns[k] != name
  {
    if columns[0] == name then 0 else 1 + IndexOf(columns[1..], name)
  }

  /** `df[wanted]`: the positions of the wanted columns, or the KeyError
      naming the wanted columns the frame does not have. */
  function SelectColumns(columns: seq<string>, wanted: seq<string>): (r: Result<seq<nat>, seq<string>>)
    ensures r.Success? <==> forall w :: w in wanted ==> w in columns
    ensures r.Success? ==> |r.value| == |wanted|
                           && forall k :: 0 <= k < |wanted| ==>
                                r.value[k] < |columns| && columns[r.value[k]] == wanted[k]
    ensures r.Failure? ==> |r.error| > 0
                           && forall w :: w in r.error <==> w in wanted && w !in columns
  {
    var missing := FilterOut(wanted, columns);
    FilterOutMembers(wanted, columns);
    if |missing| > 0 then
      assert missing[0] in missing;
      Failure(missing)
    else
      Success(seq(|wanted|, k requires 0 <= k < |wanted| => IndexOf(columns, wanted[k])))
  }

  /** The training frame can be built whenever each survey question and the
      target appear among the raw headers, up to surrounding whitespace: the
      feature selection and the target selection both succeed. */
  lemma {:induction false} SurveyHeadersGiveFeatures(headers: seq<string>)
    requires forall k :: 0 <= k < |Questions| ==>
               exists i :: 0 <= i < |headers| && Strip(headers[i]) == Questions[k]
    requires exists i :: 0 <= i < |headers| && Strip(headers[i]) == Target
    ensures SelectColumns(PrepareColumns(headers), Features).Success?
    ensures SelectColumns(PrepareColumns(headers), [Target]).Success?
  {
    var cols := PrepareColumns(headers);
    FeaturesPresent(headers);
    var i :| 0 <= i < |headers| && Strip(headers[i]) == Target;
    assert Rename(Target) == Target;
    assert cols[i] == Target;
  }

  lemma FeaturesPresent(headers: seq<string>)
    requires forall k :: 0 <= k < |Questions| ==>
               exists i :: 0 <= i < |headers| && Strip(headers[i]) == Questions[k]
    ensures forall f :: f in Features ==> f in PrepareColumns(headers)
  {
    var cols := PrepareColumns(headers);
    QuestionsRenameToFeatures();
    forall k | 0 <= k < |Features| ensures Features[k] in cols {
      var i :| 0 <= i < |headers| && Strip(headers[i]) == Questions[k];
      assert cols[i] == Rename(Questions[k]);
    }
  }

  /** A question padded with whitespace in the spreadsheet header still
      renames to its canonical feature name. */
  lemma PaddedQuestionRenames(pre: string, k: nat, post: string)
    requires AllSpace(pre) && AllSpace(post)
    requires k < |Questions|
    ensures PrepareColumns([pre + Questions[k] + post]) == [Features[k]]
  {
    var q := Questions[k];
    QuestionTrimmedAt(k);
    StripPadded(pre, q, post);
    QuestionRenamesAt(k);
    SingleColumn(pre + q + post);
  }

  lemma QuestionTrimmedAt(k: nat)
    requires k < |Questions|
    ensures Trimmed(Questions[k])
  {
    QuestionsTrimmed();
  }

  lemma QuestionRenamesAt(k: nat)
    requires k < |Questions|
    ensures Rename(Questions[k]) == Features[k]
  {
    QuestionsRenameToFeatures();
  }

  lemma SingleColumn(h: string)
    ensures PrepareColumns([h]) == [Rename(Strip(h))]
  {
    var cols := PrepareColumns([h]);
    assert cols[0] == Rename(Strip(h));
  }
}
