# Sleep-duration predictor: the train/inference contract in Dafny

The system predicts how long a person sleeps from six self-reported
attributes. A training script (`dl.py`) reads survey answers and cleans the
column headers. It extracts the age, normalises the screen-time answer and
fits a regression pipeline. A Streamlit application (`app.py`) asks for the
same six attributes, normalises them the same way, asks the fitted pipeline for
a prediction and turns the prediction into one of three advisory messages.

This project models the deterministic parts that carry the contract between
the two programs:

- `ScreenTime`: the screen-time normaliser, which exists in both programs.
  It maps free text to 1.5, 3.0, 5.0 or the missing sentinel (NaN, here
  `None`). The two copies are proved to agree on every cell.
  The predictor's copy is modelled as its if/elif chain. The training
  script's copy is modelled as a first-match search over the ordered list of
  (marker, value) rules that its if/elif chain tests.
- `Text`: Python's substring test `pat in s`, and `str.strip()` with
  Python's exact set of whitespace code points.
- `AgeExtraction`: `astype(str).str.extract(r'(\d+)').astype(float)` on the
  age column, that is, the value of the leftmost maximal run of digits.
- `Schema`: header stripping and renaming, the column selection
  `df[features]`, and the split of the six features into numeric and
  categorical columns.
- `Conclusion`: the three-band advice on the predicted hours.
- `Session`: one Streamlit script run as a pure step. It takes the stored
  session state, the sidebar choice and the typed name, and returns the new
  state and the content shown.
- `InputRecord`: the one-row record the prediction form hands to the
  pipeline.

The model follows the code as written in these cases:

- A text holding both "< 2" and "2-4" gives 1.5, because the "< 2" test
  comes first.
- The sidebar choice overwrites the stored page on every run. The move to the
  prediction page after a name is entered therefore lasts only the run in
  which it happens (`Session.RedirectIsOverwritten`).
- A user who already entered a name and has the landing page selected is
  shown nothing.
- The prediction form is reachable from the sidebar without entering a name
  (`Session.Run`).

## Model

| member | source | states |
|---|---|---|
| ScreenTime.AppConvertScreenTime | app.py:11-22 | A missing cell gives missing, never zero. Text containing "< 2" gives 1.5 whatever else it holds. Otherwise "2-4" gives 3.0, then "> 4" gives 5.0, and text with none of the markers gives missing. The result is always missing, 1.5, 3.0 or 5.0 |
| ScreenTime.FirstMatch | dl.py:37-44 | The result is missing exactly when no marker of the rule list occurs in the text. Otherwise it is the value of a rule whose marker occurs, and no earlier rule's marker occurs |
| ScreenTime.TrainerConvertScreenTime | dl.py:33-44 | The training copy: a missing cell stays missing, and a present cell becomes missing exactly when none of "< 2", "2-4", "> 4" occurs in it |
| ScreenTime.CopiesAgree | dl.py:33-44 | The training copy and the predictor copy return the same result for every cell, the missing cell included |
| ScreenTime.LessThanTwoWins | app.py:15-16 | Any text containing "< 2", whatever surrounds it, normalises to 1.5 in both copies |
| ScreenTime.FormOptionsNormalise | app.py:152-161 | The form's options "< 2 jam", "2-4 jam" and "> 4 jam" normalise to 1.5, 3.0 and 5.0 |
| Text.Contains | app.py:15-20 | The executable substring test is true exactly when the pattern occurs at some position of the text |
| Text.Strip | dl.py:17 | The stripped header is a contiguous slice of the header, with only whitespace outside it and no whitespace at either end |
| Text.StripIdempotent | dl.py:17 | Stripping a stripped header changes nothing |
| Text.StripPadded | dl.py:17 | Whitespace added around a trimmed header is exactly what stripping removes; the inside is kept |
| AgeExtraction.ExtractAge | dl.py:29 | The extracted age is missing exactly when the cell text holds no digit |
| AgeExtraction.ExtractAgeIsLeftmostRun | dl.py:29 | When the leftmost maximal run of digits is `s[i..j]`, the extracted age is that run's decimal value |
| AgeExtraction.LeftmostRunExists | dl.py:29 | Every text holding a digit has a leftmost maximal run of digits, so a non-missing age always comes from that run |
| AgeExtraction.AllDigitsExtract | dl.py:29 | A non-empty string of digits extracts to its own decimal value |
| AgeExtraction.ExtractAgeIdempotent | dl.py:29 | An age written back as "25" or as the float text "25.0" extracts to the same age, so extraction is idempotent on its own output |
| AgeExtraction.MissingAgeStaysMissing | dl.py:29 | A missing age cell renders as "nan", which holds no digit, so it stays missing |
| Conclusion.GenerateConclusion | app.py:25-31 | The "lower than recommended" message appears exactly when p < 6. The "healthy range" message appears exactly when 6 <= p <= 8. The "more than recommended" message appears exactly when p > 8. The bands are disjoint and cover every p |
| Conclusion.ConclusionMonotone | app.py:25-31 | A longer predicted sleep never selects an earlier band |
| Conclusion.BoundariesAreHealthy | app.py:28-29 | p = 6.0 and p = 8.0 both select the healthy-range message |
| Schema.Rename | dl.py:18-26 | Each of the six survey questions (and the target) takes its canonical name. Every other header is unchanged. A renamed header is never renamed again |
| Schema.RenameIdempotent | dl.py:18-26 | Renaming twice is the same as renaming once |
| Schema.QuestionsRenameToFeatures | dl.py:18-26 | The six survey questions rename, position by position, to the six feature names of the feature list |
| Schema.PrepareColumns | dl.py:17-26 | Header clean-up keeps the number and order of the columns. Column i is the stripped header i, renamed, and every resulting column name is trimmed |
| Schema.PrepareColumnsIdempotent | dl.py:17-26 | Cleaning the headers of an already cleaned frame changes nothing |
| Schema.PaddedQuestionRenames | dl.py:17-26 | A survey question padded with whitespace in the spreadsheet still becomes its canonical feature name |
| Schema.FilterOut | dl.py:57 | The filtered list is a subsequence of the input: the order of the kept names is the input order |
| Schema.FilterOutMembers | dl.py:57 | The filter keeps exactly the names of the input that are not in the dropped list. Each kept name occurs as often as in the input, and each dropped name not at all |
| Schema.FeaturePartition | dl.py:48-57 | The numeric and categorical lists are disjoint. Together they hold exactly the features, and their lengths add up to six. The categorical list keeps the feature order and is exactly jenis_kelamin, penyakit_fisik, frekuensi_olahraga, rokok_alkohol |
| Schema.CategoricalValue | dl.py:56-57 | The categorical list is exactly the four categorical column names, in feature order |
| Schema.SelectColumns | dl.py:49 | The selection succeeds exactly when every wanted column exists. On success it gives, for each wanted name in order, a position holding that name. On failure it reports exactly the wanted names the frame lacks |
| Schema.SurveyHeadersGiveFeatures | dl.py:17-50 | If the six survey questions and the target appear among the raw headers, up to surrounding whitespace, then both the feature selection and the target selection succeed |
| Session.Run | app.py:109-138 | A stored name is never replaced. On the landing page with no name, a non-empty name is stored, the page becomes "Prediksi Waktu Tidur" and the greeting is shown. Every other run sets the page to the sidebar choice and leaves the name alone, so an empty name changes nothing. The prediction form is shown exactly when it is chosen, and likewise the contact page. The landing form is shown exactly on the landing page without a name, with the greeting exactly when a name was typed in that run, and nothing is shown exactly on the landing page with a name |
| Session.FirstRunShowsLanding | app.py:109-113 | A fresh session starts on "Tentang Aplikasi" with no name. With an empty name field it shows the landing form and keeps that state |
| Session.NameIsKept | app.py:122-133 | Once a name is stored it survives every later sequence of interactions |
| Session.NameNeedsLanding | app.py:122-133 | Without a non-empty name typed on the landing page, no sequence of interactions stores a name |
| Session.RedirectIsOverwritten | app.py:116-136 | Entering a name moves the session to the prediction page. The next run with the sidebar still on the landing page sets the page back and shows nothing |
| InputRecord.BuildInput | app.py:157-164 | The form's record has the six columns of the training feature list, in the same order. The age is passed through. The screen time equals the training copy's normalisation of the chosen option. The sex, illness, exercise and smoking columns hold the chosen option text unchanged |
| InputRecord.FormScreenTimeIsNumeric | app.py:152-161 | For every form the widgets can produce, the record's screen time is 1.5, 3.0 or 5.0, never the missing sentinel |
| InputRecord.ExampleRecord | app.py:157-176 | The example record (age 25, male, no illness, "2-4 jam", occasional exercise, no smoking) carries screen time 3.0. A prediction between 6 and 8 hours yields the healthy-range message |

## Left out

- Streamlit rendering, CSS, widget drawing and the matplotlib chart (app.py lines 1-5, 34-106, 140-154, 173-191). The pages are modelled only as the content a run selects (`Session.View`).
- Loading and saving the fitted model with joblib, and the `model.pkl` artifact: file I/O with opaque serialisation.
- `model.predict` and the whole scikit-learn pipeline: imputers, robust scaler, one-hot encoder, column transformer, MLP regressor, target transformer, successive-halving search and train/test split. These are foreign library calls doing floating-point numerics. The prediction is an arbitrary `real` input to `Conclusion.GenerateConclusion`.
- Reading the spreadsheet (dl.py line 14): headers arrive as a `seq<string>` and cells as `ScreenTime.Cell` values or as the text `str()` gives for them. How `str()` renders non-string cells is not modelled.
- Column-wise application with `.apply` and `.str.extract` (dl.py lines 29 and 46): each is the per-cell function mapped over the column, so only the per-cell function is modelled.
- The hard-coded MAE and MSE values (app.py lines 180-181): display only, never computed.
- The final `print` of the training script: output only.
- AgeExtraction.ExtractAge: matches the ASCII digits 0-9 only. Python's `\d` also matches other Unicode decimal digits, which a survey age field is not expected to contain.
- AgeExtraction.ExtractAge: returns the exact natural number. The cast to float rounds values above 2^53, and values of 10^16 and above render in exponent form; survey ages never come near that.
- Conclusion.GenerateConclusion: real numbers have no NaN. In Python a NaN prediction fails both comparisons and selects the "more than recommended" message.
- Schema.SelectColumns: returns the position of the first column with each wanted name. With duplicate column names pandas would return every duplicate.
- Session.Run: both session keys are set on the first run of a session, so they are restored together. The text-input widget's own memory of what was typed is the `typedName` parameter.
