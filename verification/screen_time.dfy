/** The screen-time normaliser, which exists twice: once in the predictor
    (app.py lines 11-22) and once in the training script (dl.py lines
    33-44). It maps a free-text bucket to a numeric surrogate by ordered
    substring tests; the missing-value sentinel NaN is `None`. Both copies
    must agree on every input, or the model is queried on a feature
    distribution it was not fitted on. */
module ScreenTime {
  import opened Wrappers
  import opened Text

  /** A spreadsheet or form cell. `Missing` is a cell `pd.isna` accepts;
      `Value` holds the cell rendered by `str(x)`. */
  datatype Cell = Missing | Value(text: string)

  const LessThanTwo: string := "< 2"
  const TwoToFour: string := "2-4"
  const MoreThanFour: string := "> 4"

  /** The predictor's copy: an if/elif chain over the three markers. */
  function AppConvertScreenTime(x: Cell): (r: Option<real>)
    ensures x.Missing? ==> r == None
    ensures x.Value? && Occurs(LessThanTwo, x.text) ==> r == Some(1.5)
    ensures (x.Value? && !Occurs(LessThanTwo, x.text) && Occurs(TwoToFour, x.text))
              ==> r == Some(3.0)
    ensures (x.Value? && !Occurs(LessThanTwo, x.text) && !Occurs(TwoToFour, x.text)
             && Occurs(MoreThanFour, x.text))
              ==> r == Some(5.0)
    ensures (x.Value? && !Occurs(LessThanTwo, x.text) && !Occurs(TwoToFour, x.text)
             && !Occurs(MoreThanFour, x.text))
              ==> r == None
    ensures r == None || r == Some(1.5) || r == Some(3.0) || r == Some(5.0)
  {
    match x
    case Missing => None
    case Value(s) =>
      if Contains(s, LessThanTwo) then Some(1.5)
      else if Contains(s, TwoToFour) then Some(3.0)
      else if Contains(s, MoreThanFour) then Some(5.0)
      else None
  }

  /** The markers the training script tests, in the order it tests them,
      each with the number it returns. */
  const TrainerRules: seq<(string, real)> :=
    [(LessThanTwo, 1.5), (TwoToFour, 3.0), (MoreThanFour, 5.0)]

  /** The value of the first rule whose marker occurs in `s`. */
  function FirstMatch(rules: seq<(string, real)>, s: string): (r: Option<real>)
    ensures r.None? <==> forall k :: 0 <= k < |rules| ==> !Occurs(rules[k].0, s)
    ensures r.Some? ==> exists k :: 0 <= k < |rules| && rules[k].1 == r.value
                          && Occurs(rules[k].0, s)
                          && forall m :: 0 <= m < k ==> !Occurs(rules[m].0, s)
  {
    if |rules| == 0 then None
    else if Contains(s, rules[0].0) then Some(rules[0].1)
    else
      var r := FirstMatch(rules[1..], s);
      assert forall k :: 0 < k < |rules| ==> rules[k] == rules[1..][k - 1];
      assert r.Some? ==> exists k :: 0 < k < |rules| && rules[k].1 == r.value
                            && Occurs(rules[k].0, s)
                            && forall m :: 0 <= m < k ==> !Occurs(rules[m].0, s) by {
        if r.Some? {
          var k :| 0 <= k < |rules[1..]| && rules[1..][k].1 == r.value
                     && Occurs(rules[1..][k].0, s)
                     && forall m :: 0 <= m < k ==> !Occurs(rules[1..][m].0, s);
          assert rules[k + 1] == rules[1..][k];
          assert forall m :: 0 < m < k + 1 ==> rules[m] == rules[1..][m - 1];
        }
      }
      r
  }

  /** The training script's copy: missing stays missing, otherwise the first
      matching marker in `TrainerRules` wins and no match gives missing. */
  function TrainerConvertScreenTime(x: Cell): (r: Option<real>)
    ensures x.Missing? ==> r == None
    ensures x.Value? ==> (r.None? <==> forall k :: 0 <= k < |TrainerRules| ==>
                                          !Occurs(TrainerRules[k].0, x.text))
  {
    match x
    case Missing => None
    case Value(s) => FirstMatch(TrainerRules, s)
  }

  /** The two copies agree on every cell, including a missing one. */
  lemma {:induction false} CopiesAgree(x: Cell)
    ensures AppConvertScreenTime(x) == TrainerConvertScreenTime(x)
  {
    match x
    case Missing =>
    case Value(s) =>
      var rules := TrainerRules;
      assert rules[1..][1..][1..] == [];
      assert FirstMatch(rules[1..][1..][1..], s) == None;
      assert FirstMatch(rules[1..][1..], s)
             == if Contains(s, MoreThanFour) then Some(5.0) else None;
      assert FirstMatch(rules[1..], s)
             == if Contains(s, TwoToFour) then Some(3.0)
                else FirstMatch(rules[1..][1..], s);
  }

  /** Whatever surrounds it, a cell holding "< 2" normalises to 1.5 in both
      copies, because that marker is tested first. */
  lemma LessThanTwoWins(pre: string, post: string)
    ensures AppConvertScreenTime(Value(pre + LessThanTwo + post)) == Some(1.5)
    ensures TrainerConvertScreenTime(Value(pre + LessThanTwo + post)) == Some(1.5)
  {
    var s := pre + LessThanTwo + post;
    assert s[|pre|..|pre| + |LessThanTwo|] == LessThanTwo;
    assert OccursAt(LessThanTwo, s, |pre|);
    CopiesAgree(Value(s));
  }

  /** A marker whose first character never appears in `s` does not occur. */
  lemma AbsentHead(pat: string, s: string)
    requires |pat| > 0
    requires forall k :: 0 <= k < |s| ==> s[k] != pat[0]
    ensures !Occurs(pat, s)
  {
    forall i | 0 <= i && i + |pat| <= |s| ensures !OccursAt(pat, s, i) {
      assert s[i..i + |pat|][0] == s[i];
    }
  }

  /** The three options the prediction form offers map to the three
      surrogates, and none of them to the missing sentinel. */
  lemma FormOptionsNormalise()
    ensures AppConvertScreenTime(Value("< 2 jam")) == Some(1.5)
    ensures AppConvertScreenTime(Value("2-4 jam")) == Some(3.0)
    ensures AppConvertScreenTime(Value("> 4 jam")) == Some(5.0)
  {
    assert OccursAt(LessThanTwo, "< 2 jam", 0);
    assert OccursAt(TwoToFour, "2-4 jam", 0);
    AbsentHead(LessThanTwo, "2-4 jam");
    assert OccursAt(MoreThanFour, "> 4 jam", 0);
    AbsentHead(LessThanTwo, "> 4 jam");
    AbsentHead(TwoToFour, "> 4 jam");
  }
}
