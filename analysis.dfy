/** The probability analysis: hold a base profile, vary one answer over
    its option list, ask the model about each variant and collect one
    (value, party, probability) entry per option, in list order.

    The model is a parameter `predict` from feature rows to outcomes; its
    party labels and scores are opaque here, and a failed call aborts the whole
    analysis with that call's message. */
module Analysis {
  import opened Encoding

  /** The variable the user picks to analyse. */
  datatype Variable = IdeologyScale | AgeGroup | EducationLevel | EmploymentStatus | Community

  /** The value an entry reports for the swept variable: a number on the
      ideology scale, an answer for the other variables. */
  datatype SweptValue = Scale(n: int) | Choice(answer: string)

  /** What the model returns for one row, or the error it raised. */
  datatype Outcome = Predicted(party: string, score: real) | Failed(message: string)

  /** One row of the results table: swept value, predicted party, its probability. */
  datatype Entry = Entry(variable: SweptValue, party: string, probability: real)

  datatype Result<T> = Ok(value: T) | Err(message: string)

  /** The ideology every sweep other than the ideology sweep sends. The
      analysis form asks for no base ideology, so this value is fixed. */
  const HeldIdeology: int := 5

  function Choices(options: seq<string>): (vals: seq<SweptValue>)
    ensures |vals| == |options|
    ensures forall i :: 0 <= i < |vals| ==> vals[i] == Choice(options[i])
  {
    seq(|options|, i requires 0 <= i < |options| => Choice(options[i]))
  }

  /** The values a sweep enumerates, in order. The community sweep covers
      only the first ten communities of the form's list. */
  function SweptValues(v: Variable): (vals: seq<SweptValue>)
    ensures v == IdeologyScale ==> |vals| == 10 && forall k :: 0 <= k < |vals| ==> vals[k] == Scale(k + 1)
    ensures v != IdeologyScale ==> (|vals| <= |Options(SweptField(v))|
      && forall k :: 0 <= k < |vals| ==> vals[k] == Choice(Options(SweptField(v))[k]))
    ensures v == Community ==> |vals| == 10 < |Options(Region)|
  {
    match v
    case IdeologyScale => seq(10, i => Scale(i + 1))
    case AgeGroup => Choices(AgeOptions())
    case EducationLevel => Choices(EducationOptions())
    case EmploymentStatus => Choices(EmploymentOptions())
    case Community => Choices(RegionOptions()[..10])
  }

  /** The row group a sweep varies. */
  function SweptField(v: Variable): Field
  {
    match v
    case IdeologyScale => Ideology
    case AgeGroup => Age
    case EducationLevel => Education
    case EmploymentStatus => Employment
    case Community => Region
  }

  /** The profile the other answers are taken from: the base profile, with
      the ideology pinned to `HeldIdeology` outside the ideology sweep.
      The base profile's own `ideology` stands for no answer of the form
      and never reaches the model (`VariantIgnoresBaseIdeology`). */
  function Pinned(base: Profile, v: Variable): Profile
  {
    if v == IdeologyScale then base else base.(ideology := HeldIdeology)
  }

  /** The profile sent to the model for the `k`-th swept value: the pinned
      base profile with only the swept answer replaced, by the value the
      entry reports. */
  function Variant(base: Profile, v: Variable, k: nat): (p: Profile)
    requires k < |SweptValues(v)|
    ensures AgreeExcept(Pinned(base, v), p, SweptField(v))
    ensures v == IdeologyScale ==> SweptValues(v)[k] == Scale(p.ideology)
    ensures v != IdeologyScale ==> SweptValues(v)[k] == Choice(Answer(p, SweptField(v))) && p.ideology == HeldIdeology
  {
    match v
    case IdeologyScale => base.(ideology := k + 1)
    case AgeGroup => base.(ageGroup := AgeOptions()[k], ideology := HeldIdeology)
    case EducationLevel => base.(education := EducationOptions()[k], ideology := HeldIdeology)
    case EmploymentStatus => base.(employment := EmploymentOptions()[k], ideology := HeldIdeology)
    case Community => base.(region := RegionOptions()[k], ideology := HeldIdeology)
  }

  /** The row sent to the model for the `k`-th swept value. Its ideology
      column is the swept value in the ideology sweep and the held 5 in
      every other sweep. */
  function SweepRow(base: Profile, v: Variable, k: nat): (r: Row)
    requires k < |SweptValues(v)|
    ensures |r| == |ColumnNames()|
    ensures r[0] == if v == IdeologyScale then k + 1 else HeldIdeology
  {
    BuildRow(Variant(base, v, k))
  }

  /** The profiles a sweep sends to the model, one per swept value. */
  function Variants(base: Profile, v: Variable): (ps: seq<Profile>)
    ensures |ps| == |SweptValues(v)|
    ensures forall k :: 0 <= k < |ps| ==> ps[k] == Variant(base, v, k)
  {
    seq(|SweptValues(v)|, k requires 0 <= k < |SweptValues(v)| => Variant(base, v, k))
  }

  /** Asks `ask` about each variant in order, stopping at the first failure.
      On success there is one entry per value, in the same order, carrying
      that value and the party and score answered for its variant; on
      failure the message is that of the first failed question, every
      earlier one having succeeded. */
  method Collect(values: seq<SweptValue>, variants: seq<Profile>, ask: Profile -> Outcome)
    returns (res: Result<seq<Entry>>)
    requires |values| == |variants|
    ensures res.Ok? <==> forall k :: 0 <= k < |variants| ==> ask(variants[k]).Predicted?
    ensures res.Ok? ==> |res.value| == |values|
    ensures res.Ok? ==> forall k :: 0 <= k < |res.value| ==>
      res.value[k] == Entry(values[k], ask(variants[k]).party, ask(variants[k]).score)
    ensures res.Err? ==> exists k :: (0 <= k < |variants|
      && (forall j :: 0 <= j < k ==> ask(variants[j]).Predicted?)
      && ask(variants[k]) == Failed(res.message))
  {
    var results: seq<Entry> := [];
    var k := 0;
    while k < |variants|
      invariant 0 <= k <= |variants|
      invariant |results| == k
      invariant forall j :: 0 <= j < k ==> ask(variants[j]).Predicted?
      invariant forall j :: 0 <= j < k ==>
        results[j] == Entry(values[j], ask(variants[j]).party, ask(variants[j]).score)
    {
      var outcome := ask(variants[k]);
      if outcome.Failed? {
        return Err(outcome.message);
      }
      results := results + [Entry(values[k], outcome.party, outcome.score)];
      k := k + 1;
    }
    return Ok(results);
  }

  /** Runs the analysis of variable `v` around `base`: builds the row of
      each variant, asks the model about it and collects the entries. */
  method Analyze(base: Profile, v: Variable, predict: Row -> Outcome) returns (res: Result<seq<Entry>>)
    ensures res.Ok? <==> forall k :: 0 <= k < |SweptValues(v)| ==> predict(SweepRow(base, v, k)).Predicted?
    ensures res.Ok? ==> |res.value| == |SweptValues(v)|
    ensures res.Ok? ==> forall k :: 0 <= k < |res.value| ==>
      res.value[k] == Entry(SweptValues(v)[k], predict(SweepRow(base, v, k)).party, predict(SweepRow(base, v, k)).score)
    ensures res.Err? ==> exists k :: (0 <= k < |SweptValues(v)|
      && (forall j :: 0 <= j < k ==> predict(SweepRow(base, v, j)).Predicted?)
      && predict(SweepRow(base, v, k)) == Failed(res.message))
  {
    var ask := p => predict(BuildRow(p));
    var variants := Variants(base, v);
    res := Collect(SweptValues(v), variants, ask);
    forall k | 0 <= k < |variants| ensures ask(variants[k]) == predict(SweepRow(base, v, k)) {
    }
  }

  /** How many values each sweep enumerates, and the ideology sweep's values in order. */
  lemma SweepLengths()
    ensures |SweptValues(IdeologyScale)| == 10
    ensures |SweptValues(AgeGroup)| == 6
    ensures |SweptValues(EducationLevel)| == 4
    ensures |SweptValues(EmploymentStatus)| == 4
    ensures |SweptValues(Community)| == 10
    ensures forall k :: 0 <= k < 10 ==> SweptValues(IdeologyScale)[k] == Scale(k + 1)
  {
  }

  /** The community sweep stops after the tenth community of the form's
      list: the last eight communities are never analysed. */
  lemma CommunitySweepOmits()
    ensures RegionOptions()[10..] ==
      ["Extremadura", "Galicia", "Madrid", "Murcia", "Navarra", "Euskadi", "La Rioja", "Ceuta y Melilla"]
    ensures forall o :: o in RegionOptions()[10..] ==> Choice(o) !in SweptValues(Community)
  {
    OptionsDistinct(Region);
    forall o | o in RegionOptions()[10..] ensures Choice(o) !in SweptValues(Community) {
      var i :| 10 <= i < |RegionOptions()| && RegionOptions()[i] == o;
      forall k | 0 <= k < 10 ensures SweptValues(Community)[k] != Choice(o) {
        assert RegionOptions()[k] != RegionOptions()[i];
      }
    }
  }

  /** The profiles a sweep sends do not depend on the base profile's ideology. */
  lemma VariantIgnoresBaseIdeology(base: Profile, v: Variable, k: nat, x: int)
    requires k < |SweptValues(v)|
    ensures Variant(base, v, k) == Variant(base.(ideology := x), v, k)
  {
  }

  /** Two rows of one sweep agree on every column outside the swept group. */
  lemma SweepRowsFrame(base: Profile, v: Variable, j: nat, k: nat)
    requires j < |SweptValues(v)| && k < |SweptValues(v)|
    ensures var f := SweptField(v);
      forall i :: 0 <= i < |ColumnNames()| && !(Start(f) <= i < Start(f) + Width(f)) ==>
        SweepRow(base, v, j)[i] == SweepRow(base, v, k)[i]
  {
    EncodeFrame(Variant(base, v, j), Variant(base, v, k), SweptField(v));
  }

  /** Different points of one sweep send different rows to the model. */
  lemma SweepRowsDistinct(base: Profile, v: Variable, j: nat, k: nat)
    requires j < |SweptValues(v)| && k < |SweptValues(v)| && j != k
    ensures SweepRow(base, v, j) != SweepRow(base, v, k)
  {
    if v != IdeologyScale {
      var f := SweptField(v);
      var pj, pk := Variant(base, v, j), Variant(base, v, k);
      VariantAnswer(base, v, j);
      VariantAnswer(base, v, k);
      AnswersSeparated(f, j, k);
      if Answer(pj, f) in Levels(f) {
        LevelBitDiffers(pj, pk, f);
      } else {
        LevelBitDiffers(pk, pj, f);
      }
    }
  }

  /** Outside the ideology sweep, the `k`-th variant answers the `k`-th offered answer. */
  lemma VariantAnswer(base: Profile, v: Variable, k: nat)
    requires v != IdeologyScale && k < |SweptValues(v)|
    ensures k < |Options(SweptField(v))|
    ensures Answer(Variant(base, v, k), SweptField(v)) == Options(SweptField(v))[k]
  {
  }

  /** A row whose answer owns a column differs from a row with another answer. */
  lemma LevelBitDiffers(p: Profile, q: Profile, f: Field)
    requires f != Ideology && Answer(p, f) in Levels(f) && Answer(p, f) != Answer(q, f)
    ensures BuildRow(p) != BuildRow(q)
  {
    var i :| 0 <= i < |Levels(f)| && Levels(f)[i] == Answer(p, f);
    GroupBits(p, f);
    GroupBits(q, f);
    assert Group(BuildRow(p), f)[i] != Group(BuildRow(q), f)[i];
  }
}
