# Vote predictor: feature encoding and probability analysis

This project models the computational core of a dashboard that predicts
the party a survey respondent would vote for. It covers two parts of
`app.py`.

- **The feature encoder** `crear_dataframe_prediccion`. It turns eight
  survey answers into a fixed one-row table of 36 columns. These are age
  group, sex, autonomous community (CCAA), municipality size, ideology
  scale (ESCIDEOL), education, employment situation and turnout at the
  last election.
  - `ESCIDEOL` is copied unchanged.
  - Every other column is `1 if answer == level else 0`.
  - Age, community, sex and turnout leave out one answer: "18-29",
    "Andalucía", "Hombre" and "No". That answer gives an all-zero group.
  - Municipality size, education and employment keep a column for every
    answer.
- **The probability analysis** (second tab). It takes a base profile and
  one chosen variable: ideology, age group, education, employment or
  community. For each value in that variable's list it builds a row and
  asks the model once. It collects the entries (value, party,
  probability) in list order.
  - The ideology sweep runs over 1..10.
  - The other sweeps always send ideology 5. The analysis form has no
    ideology field, so the base profile's `ideology` stands for no
    answer of the form and never reaches the model.
  - The community sweep covers only the first ten communities in the
    form's list.

Files:

- `encoding.dfy` (module `Encoding`): the answer lists, the column
  layout, `BuildRow`, and the lemmas about each column group.
- `analysis.dfy` (module `Analysis`): the sweep values, the profile
  sent for each sweep point, the sweep loop (`Collect`, called by
  `Analyze`), and the lemmas about the rows a sweep sends.
- `sequences.dfy` (module `Sequences`): concatenating a list of integer
  sequences, used to cut the row into groups.

The row is a `seq<int>`. Its column names are
`Encoding.ColumnNames()`, in the source's order. Column groups are slices
given by `Start` and `Width`. The trained model (`predict_model` with the
loaded model handle) is a parameter `predict: Row -> Outcome`. An
`Outcome` is either a party label with a score or a failure with its
message. The source wraps the whole sweep in one `try`, so the first
failing call ends the analysis with that error and shows no entries.
`Analyze` returns `Err(message)` in that case.

Behaviour of `app.py` worth noting:

- Education, municipality size and employment do not drop a reference
  answer. Every answer sets its own column (app.py:179-193).
- An answer outside a group's levels does not raise an error. It leaves
  the group all zero (`GroupIsZero`).
- The community sweep does not cover all 18 communities. It covers
  `ccaa_options[:10]`, which ends at "Comunitat Valenciana". So
  Extremadura, Galicia, Madrid, Murcia, Navarra, Euskadi, La Rioja and
  Ceuta y Melilla are never swept (`CommunitySweepOmits`).
- The municipality column for "0-10.000" is named `TAMUNI_0-10000`,
  without the thousands separator (app.py:179). Every other indicator
  column is named after the answer it tests (`ColumnNamesMatchLevels`,
  `SmallMunicipalityColumn`).
- `app.py` has two tabs: single prediction and probability analysis
  (app.py:202).

## Model

| member | source | states |
|---|---|---|
| Encoding.OneHot | app.py:153-193 | each column of an indicator group is 1 exactly when the answer equals that column's level, and the group has one column per level |
| Encoding.BuildRow | app.py:148-194 | the row has exactly the 36 columns of `ColumnNames`, and column 0 (`ESCIDEOL`) is the ideology answer unchanged |
| Encoding.GroupIsSegment | app.py:150-194 | the columns of each group are exactly that field's own indicator group (or the ideology value), so a group depends only on its own answer |
| Encoding.EncodeFrame | app.py:153-193 | changing one answer changes no column outside that answer's group |
| Encoding.CountOnesOneHot | app.py:153-193 | over distinct levels, an indicator group has one bit set if the answer is a level and none otherwise |
| Encoding.GroupBits | app.py:153-193 | in each categorical group, bit i is 1 iff level i equals the answer; all bits are 0/1; at most one is set; an answer outside the levels leaves the group all zero |
| Encoding.GroupIsUnit | app.py:153-193 | an answer equal to the level of column k gives the group with only bit k set |
| Encoding.GroupIsZero | app.py:153-193 | an answer that matches no level (the dropped reference or any unknown value) gives an all-zero group |
| Encoding.OfferedAnswerBits | app.py:153-193 | for every answer the form offers, its group has exactly one bit set, or none for the dropped "18-29", "Andalucía", "Hombre" and "No" |
| Encoding.OptionsCover | app.py:217-271 | every answer the form offers either owns a column or is the group's dropped reference, never both; municipality, education and employment drop none |
| Encoding.SexAndTurnoutColumns | app.py:177-183 | `SEXO_Mujer` is 1 iff the sex is "Mujer", and `PARTICIPACIONG_Sí` is 1 iff turnout is "Sí" |
| Encoding.ExampleGroups | app.py:153-193 | in the worked example's row, each group is the unit vector at the answer's level (age 30-39, Madrid, >100.000, Superiores, Trabaja), `SEXO_Mujer` and `PARTICIPACIONG_Sí` are 1 |
| Encoding.WorkedExample | app.py:148-194 | the profile (30-39, Mujer, Madrid, >100.000, 7, Superiores, Trabaja, Sí) encodes to the row with ESCIDEOL 7 and exactly the columns GRUPO_EDAD_30-39, CCAA_Madrid, SEXO_Mujer, TAMUNI_>100.000, PARTICIPACIONG_Sí, ESTUDIOS_Superiores and SITLAB_Trabaja set |
| Encoding.ColumnNamesMatchLevels | app.py:150-193 | every indicator column except `TAMUNI_0-10000` is named by the field's prefix followed by the level its bit tests, and each group has one level per column |
| Encoding.SmallMunicipalityColumn | app.py:179 | the column testing "0-10.000" is named `TAMUNI_0-10000`, which is not the prefix followed by that answer |
| Encoding.NamedColumnTestsAnswer | app.py:153-193 | apart from `TAMUNI_0-10000`, an indicator column of the row is 1 exactly when its name is the field's prefix followed by the answer given |
| Encoding.OptionsDistinct | app.py:217-269 | no answer list of the form repeats an answer |
| Encoding.AnswersSeparated | app.py:217-262 | two different offered answers of a field are different strings, and at least one of them owns a column |
| Analysis.Collect | app.py:365-433 | succeeds exactly when the answer for every sweep point is a prediction, and then gives one entry per value, in order, holding that value and the party and score answered for its point; otherwise gives the message of the first failed point, every earlier point having been predicted |
| Analysis.Analyze | app.py:362-433 | the same, stated for the rows the chosen sweep builds from the base profile: the k-th entry holds the k-th swept value and the model's party and score for the k-th row, and a failure reports the first failing row's message |
| Analysis.SweepLengths | app.py:367-423 | the sweeps enumerate 10, 6, 4, 4 and 10 values; the ideology sweep's values are 1..10 in increasing order |
| Analysis.CommunitySweepOmits | app.py:423 | the community sweep never includes Extremadura, Galicia, Madrid, Murcia, Navarra, Euskadi, La Rioja or Ceuta y Melilla |
| Analysis.SweptValues | app.py:368-423 | the ideology sweep runs over 1..10 in increasing order; every other sweep takes the k-th value from the k-th answer of the field's form list, and the community sweep takes only 10 of the 18 communities |
| Analysis.Variant | app.py:369-427 | each profile sent is the base profile, with ideology pinned to 5 outside the ideology sweep, changed only in the swept answer, and that answer (or the ideology) is the value the entry reports |
| Analysis.VariantIgnoresBaseIdeology | app.py:334-426 | the profiles a sweep sends do not depend on the base profile's ideology, which the analysis form does not ask for |
| Analysis.SweepRow | app.py:369-428 | the row handed to the model has the 36 columns and ESCIDEOL k+1 in the ideology sweep, 5 in every other sweep |
| Analysis.SweepRowsFrame | app.py:367-433 | any two rows of one sweep agree on every column outside the swept group |
| Analysis.VariantAnswer | app.py:383-426 | outside the ideology sweep, the k-th profile sent answers the k-th offered answer of the swept field |
| Analysis.SweepRowsDistinct | app.py:367-433 | different points of one sweep send different rows to the model |

## Left out

- Page configuration, CSS, widgets, tabs, columns, spinners and messages (app.py:1-78, 200-356, 457-499). These are presentation. The analysed variable is a datatype (`Analysis.Variable`), not the select box's label strings.
- `cargar_datos`, `cargar_datos_eda` and `cargar_modelo` (app.py:89-145). These are file input through pandas, pyreadstat and pycaret behind caching decorators. When the model cannot be loaded, no prediction feature is shown. The model here is simply the `predict` parameter.
- The internals of `predict_model`. This is a third-party library call. Its scores are opaque `real` values rather than floating-point numbers.
- The single-prediction tab (app.py:276-323). It makes one `BuildRow` call and one model call, then displays the result. It adds no logic beyond `BuildRow` and the model parameter.
- Score formatting as percentages, the progress bar, the bar chart and the party colour table (app.py:81-86, 291-311, 435-452). These are display only.
- Errors raised while building the row, which can only come from pandas. Only failures of the model call are modelled.
