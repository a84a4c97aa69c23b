/** The survey form's answer lists and the one-hot feature row that
    `crear_dataframe_prediccion` (app.py) builds from one answer per field.

    The row is a sequence of 36 integers whose column names are
    `ColumnNames()`: the ideology scale first, passed through unchanged,
    then one indicator group per categorical field. Every indicator is a
    plain equality test of the field's answer against one level, so an
    answer that matches no level leaves its whole group at zero. */
module Encoding {
  import opened Sequences

  /** One answer per survey field, as the form hands them to the encoder. */
  datatype Profile = Profile(
    ageGroup: string,
    sex: string,
    region: string,
    municipality: string,
    ideology: int,
    education: string,
    employment: string,
    turnout: string)

  /** The column groups of the row, in column order. */
  datatype Field = Ideology | Age | Region | Sex | Municipality | Turnout | Education | Employment

  // The answers the form offers for each field, in display order.
  function AgeOptions(): seq<string>
  {
    ["18-29", "30-39", "40-49", "50-59", "60-69", "70+"]
  }
  function SexOptions(): seq<string>
  {
    ["Hombre", "Mujer"]
  }
  function RegionOptions(): seq<string>
  {
    [
      "Andalucía", "Aragón", "Asturias", "Balears", "Canarias", "Cantabria",
      "Castilla-La Mancha", "Castilla y León", "Catalunya", "Comunitat Valenciana",
      "Extremadura", "Galicia", "Madrid", "Murcia", "Navarra", "Euskadi",
      "La Rioja", "Ceuta y Melilla"]
  }
  function MunicipalityOptions(): seq<string>
  {
    ["0-10.000", "10.001-100.000", ">100.000"]
  }
  function EducationOptions(): seq<string>
  {
    ["Sin estudios o primaria", "Secundaria", "Formación Profesional", "Superiores"]
  }
  function EmploymentOptions(): seq<string>
  {
    ["Trabaja", "En paro", "Pensionista", "Otra situación"]
  }
  function TurnoutOptions(): seq<string>
  {
    ["Sí", "No"]
  }

  // The answers that own an indicator column, in column order. Age,
  // region, sex and turnout drop one answer; the other three keep all.
  function AgeLevels(): seq<string>
  {
    ["30-39", "40-49", "50-59", "60-69", "70+"]
  }
  function RegionLevels(): seq<string>
  {
    [
      "Aragón", "Asturias", "Balears", "Canarias", "Cantabria", "Castilla y León",
      "Castilla-La Mancha", "Catalunya", "Ceuta y Melilla", "Comunitat Valenciana",
      "Euskadi", "Extremadura", "Galicia", "La Rioja", "Madrid", "Murcia", "Navarra"]
  }
  function SexLevels(): seq<string>
  {
    ["Mujer"]
  }
  /** Municipality size drops no reference answer, and its columns come
      in the form's order, so its levels are exactly its options. */
  function MunicipalityLevels(): seq<string>
  {
    MunicipalityOptions()
  }
  function TurnoutLevels(): seq<string>
  {
    ["Sí"]
  }
  function EducationLevels(): seq<string>
  {
    ["Formación Profesional", "Secundaria", "Sin estudios o primaria", "Superiores"]
  }
  function EmploymentLevels(): seq<string>
  {
    ["En paro", "Otra situación", "Pensionista", "Trabaja"]
  }

  /** The column names the trained model expects, in order. */
  function ColumnNames(): seq<string>
  {
    [
      "ESCIDEOL",
      "GRUPO_EDAD_30-39", "GRUPO_EDAD_40-49", "GRUPO_EDAD_50-59", "GRUPO_EDAD_60-69", "GRUPO_EDAD_70+",
      "CCAA_Aragón", "CCAA_Asturias", "CCAA_Balears", "CCAA_Canarias", "CCAA_Cantabria",
      "CCAA_Castilla y León", "CCAA_Castilla-La Mancha", "CCAA_Catalunya", "CCAA_Ceuta y Melilla",
      "CCAA_Comunitat Valenciana", "CCAA_Euskadi", "CCAA_Extremadura", "CCAA_Galicia",
      "CCAA_La Rioja", "CCAA_Madrid", "CCAA_Murcia", "CCAA_Navarra",
      "SEXO_Mujer",
      "TAMUNI_0-10000", "TAMUNI_10.001-100.000", "TAMUNI_>100.000",
      "PARTICIPACIONG_Sí",
      "ESTUDIOS_Formación Profesional", "ESTUDIOS_Secundaria",
      "ESTUDIOS_Sin estudios o primaria", "ESTUDIOS_Superiores",
      "SITLAB_En paro", "SITLAB_Otra situación", "SITLAB_Pensionista", "SITLAB_Trabaja"]
  }

  /** The prefix of a categorical field's column names. */
  function Prefix(f: Field): string
    requires f != Ideology
  {
    match f
    case Age => "GRUPO_EDAD_"
    case Region => "CCAA_"
    case Sex => "SEXO_"
    case Municipality => "TAMUNI_"
    case Turnout => "PARTICIPACIONG_"
    case Education => "ESTUDIOS_"
    case Employment => "SITLAB_"
  }

  type Row = seq<int>

  function Indicator(b: bool): int { if b then 1 else 0 }

  /** The indicator group of answer `v` over `levels`: one equality test per level. */
  function OneHot(v: string, levels: seq<string>): (g: seq<int>)
    ensures |g| == |levels|
    ensures forall i :: 0 <= i < |g| ==> (g[i] == 1 <==> levels[i] == v)
    ensures forall i :: 0 <= i < |g| ==> g[i] == 0 || g[i] == 1
  {
    seq(|levels|, i requires 0 <= i < |levels| => Indicator(levels[i] == v))
  }

  /** The answer a profile gives for a categorical field. */
  function Answer(p: Profile, f: Field): string
    requires f != Ideology
  {
    match f
    case Age => p.ageGroup
    case Region => p.region
    case Sex => p.sex
    case Municipality => p.municipality
    case Turnout => p.turnout
    case Education => p.education
    case Employment => p.employment
  }

  /** The levels that own a column in a categorical field's group. */
  function Levels(f: Field): seq<string>
    requires f != Ideology
  {
    match f
    case Age => AgeLevels()
    case Region => RegionLevels()
    case Sex => SexLevels()
    case Municipality => MunicipalityLevels()
    case Turnout => TurnoutLevels()
    case Education => EducationLevels()
    case Employment => EmploymentLevels()
  }

  /** The columns a field contributes to the row. */
  function Segment(p: Profile, f: Field): seq<int>
  {
    if f == Ideology then [p.ideology] else OneHot(Answer(p, f), Levels(f))
  }

  /** The feature row for one profile (`crear_dataframe_prediccion`): its
      eight groups, one after the other. */
  function BuildRow(p: Profile): (r: Row)
    ensures |r| == |ColumnNames()|
    ensures r[0] == p.ideology
  {
    RowShape(p);
    Concat(Segments(p))
  }

  /** The first column of a field's group. */
  function Start(f: Field): nat
  {
    match f
    case Ideology => 0
    case Age => 1
    case Region => 6
    case Sex => 23
    case Municipality => 24
    case Turnout => 27
    case Education => 28
    case Employment => 32
  }

  /** The number of columns in a field's group. */
  function Width(f: Field): nat
  {
    match f
    case Ideology => 1
    case Age => 5
    case Region => 17
    case Sex => 1
    case Municipality => 3
    case Turnout => 1
    case Education => 4
    case Employment => 4
  }

  /** The columns of a row that belong to field `f`. */
  function Group(r: Row, f: Field): seq<int>
    requires |r| == |ColumnNames()|
  {
    r[Start(f)..Start(f) + Width(f)]
  }

  /** `q` is `p` with at most the answer to `f` changed. */
  predicate AgreeExcept(p: Profile, q: Profile, f: Field)
  {
    match f
    case Ideology => p.(ideology := q.ideology) == q
    case Age => p.(ageGroup := q.ageGroup) == q
    case Region => p.(region := q.region) == q
    case Sex => p.(sex := q.sex) == q
    case Municipality => p.(municipality := q.municipality) == q
    case Turnout => p.(turnout := q.turnout) == q
    case Education => p.(education := q.education) == q
    case Employment => p.(employment := q.employment) == q
  }

  /** Number of columns equal to 1. */
  function CountOnes(g: seq<int>): nat
  {
    if g == [] then 0 else Indicator(g[0] == 1) + CountOnes(g[1..])
  }

  predicate Distinct(s: seq<string>)
  {
    forall i, j :: 0 <= i < j < |s| ==> s[i] != s[j]
  }

  /** The field whose group comes `j`-th in the row. */
  function FieldAt(j: nat): Field
    requires j < 8
  {
    [Ideology, Age, Region, Sex, Municipality, Turnout, Education, Employment][j]
  }

  /** Position of a field's group among the eight groups. */
  function Rank(f: Field): (j: nat)
    ensures j < 8 && FieldAt(j) == f
  {
    match f
    case Ideology => 0
    case Age => 1
    case Region => 2
    case Sex => 3
    case Municipality => 4
    case Turnout => 5
    case Education => 6
    case Employment => 7
  }

  /** The eight groups of a profile's row, in column order. */
  function Segments(p: Profile): (s: seq<seq<int>>)
    ensures |s| == 8
  {
    seq(8, j requires 0 <= j < 8 => Segment(p, FieldAt(j)))
  }

  lemma SegmentWidth(p: Profile, f: Field)
    ensures |Segment(p, f)| == Width(f)
  {
    if f != Ideology {
      assert |Segment(p, f)| == |Levels(f)|;
    }
  }

  /** The concatenated groups have the 36 columns of the row and start
      with the ideology answer. */
  lemma RowShape(p: Profile)
    ensures |Concat(Segments(p))| == |ColumnNames()|
    ensures Concat(Segments(p))[0] == p.ideology
  {
    var s := Segments(p);
    SegmentsWidths(p);
    PrefixLengths(s);
    assert |Concat(s[..Rank(Employment)])| == Start(Employment);
    ConcatSplit(s, 7);
    assert s[8..] == [];
    assert |Concat(s)| == 36;
    ConcatSplit(s, 0);
    assert s[..0] == [];
  }

  /** In eight parts of the groups' widths, the parts before each group
      add up to `Start` of that group. */
  lemma PrefixLengths(s: seq<seq<int>>)
    requires |s| == 8 && forall j :: 0 <= j < 8 ==> |s[j]| == Width(FieldAt(j))
    ensures forall f :: |Concat(s[..Rank(f)])| == Start(f)
  {
    forall j | 0 <= j < 8 ensures |Concat(s[..j + 1])| == |Concat(s[..j])| + Width(FieldAt(j)) {
      ConcatPrefixStep(s, j);
    }
    assert s[..0] == [];
    assert |Concat(s[..1])| == 1;
    assert |Concat(s[..2])| == 6;
    assert |Concat(s[..3])| == 23;
    assert |Concat(s[..4])| == 24;
    assert |Concat(s[..5])| == 27;
    assert |Concat(s[..6])| == 28;
    assert |Concat(s[..7])| == 32;
  }

  lemma SegmentsWidths(p: Profile)
    ensures forall j :: 0 <= j < 8 ==> |Segments(p)[j]| == Width(FieldAt(j))
  {
    forall j | 0 <= j < 8 ensures |Segments(p)[j]| == Width(FieldAt(j)) {
      SegmentWidth(p, FieldAt(j));
    }
  }

  /** Profiles that agree except on `f` give equal groups for every other field. */
  lemma SegmentAgree(p: Profile, q: Profile, f: Field, g: Field)
    requires AgreeExcept(p, q, f) && g != f
    ensures Segment(p, g) == Segment(q, g)
  {
    if g != Ideology {
      assert Answer(p, g) == Answer(q, g);
    }
  }

  lemma SegmentsAgree(p: Profile, q: Profile, f: Field)
    requires AgreeExcept(p, q, f)
    ensures forall j :: 0 <= j < 8 && j != Rank(f) ==> Segments(p)[j] == Segments(q)[j]
  {
    forall j | 0 <= j < 8 && j != Rank(f) ensures Segments(p)[j] == Segments(q)[j] {
      SegmentAgree(p, q, f, FieldAt(j));
    }
  }

  /** Each field's group holds exactly that field's columns. */
  lemma GroupIsSegment(p: Profile, f: Field)
    ensures Group(BuildRow(p), f) == Segment(p, f)
  {
    var s := Segments(p);
    SegmentsWidths(p);
    PrefixLengths(s);
    ConcatSplit(s, Rank(f));
    SegmentWidth(p, f);
  }

  /** Changing one answer changes only the columns of that answer's group. */
  lemma EncodeFrame(p: Profile, q: Profile, f: Field)
    requires AgreeExcept(p, q, f)
    ensures forall i :: 0 <= i < |ColumnNames()| && !(Start(f) <= i < Start(f) + Width(f)) ==>
      BuildRow(p)[i] == BuildRow(q)[i]
  {
    var s, t := Segments(p), Segments(q);
    SegmentsWidths(p);
    PrefixLengths(s);
    SegmentsAgree(p, q, f);
    SegmentWidth(p, f);
    SegmentWidth(q, f);
    ConcatFrame(s, t, Rank(f));
  }

  /** Each indicator column is named after the level it tests: the field's
      prefix followed by the level, with the single exception below. */
  lemma ColumnNamesMatchLevels(f: Field, i: nat)
    requires f != Ideology && i < Width(f) && !(f == Municipality && i == 0)
    ensures |Levels(f)| == Width(f)
    ensures ColumnNames()[Start(f) + i] == Prefix(f) + Levels(f)[i]
  {
    match f
    case Age => AgeColumnNames();
    case Region =>
      if i < 9 {
        RegionColumnNamesLow();
      } else {
        RegionColumnNamesHigh();
      }
    case Sex => assert ColumnNames()[23] == "SEXO_" + "Mujer";
    case Municipality => MunicipalityColumnNames();
    case Turnout => assert ColumnNames()[27] == "PARTICIPACIONG_" + "Sí";
    case Education => EducationColumnNames();
    case Employment => EmploymentColumnNames();
  }

  // The same, one field (or half of the communities) at a time.
  lemma AgeColumnNames()
    ensures forall i :: 0 <= i < 5 ==> ColumnNames()[1 + i] == "GRUPO_EDAD_" + AgeLevels()[i]
  {
  }

  lemma RegionColumnNamesLow()
    ensures forall i :: 0 <= i < 9 ==> ColumnNames()[6 + i] == "CCAA_" + RegionLevels()[i]
  {
  }

  lemma RegionColumnNamesHigh()
    ensures forall i :: 9 <= i < 17 ==> ColumnNames()[6 + i] == "CCAA_" + RegionLevels()[i]
  {
  }

  lemma MunicipalityColumnNames()
    ensures forall i :: 1 <= i < 3 ==> ColumnNames()[24 + i] == "TAMUNI_" + MunicipalityLevels()[i]
  {
  }

  lemma EducationColumnNames()
    ensures forall i :: 0 <= i < 4 ==> ColumnNames()[28 + i] == "ESTUDIOS_" + EducationLevels()[i]
  {
  }

  lemma EmploymentColumnNames()
    ensures forall i :: 0 <= i < 4 ==> ColumnNames()[32 + i] == "SITLAB_" + EmploymentLevels()[i]
  {
  }

  /** The column for municipality size "0-10.000" is named `TAMUNI_0-10000`,
      without the thousands separator of the answer it tests. */
  lemma SmallMunicipalityColumn()
    ensures ColumnNames()[Start(Municipality)] == "TAMUNI_0-10000"
    ensures Levels(Municipality)[0] == "0-10.000"
    ensures ColumnNames()[Start(Municipality)] != Prefix(Municipality) + Levels(Municipality)[0]
  {
  }

  /** Except for `TAMUNI_0-10000`, an indicator column is set exactly when
      its name is the field's prefix followed by the answer. */
  lemma NamedColumnTestsAnswer(p: Profile, f: Field, i: nat)
    requires f != Ideology && i < Width(f) && !(f == Municipality && i == 0)
    ensures BuildRow(p)[Start(f) + i] == 1 <==> ColumnNames()[Start(f) + i] == Prefix(f) + Answer(p, f)
  {
    assert |Levels(f)| == Width(f) && ColumnNames()[Start(f) + i] == Prefix(f) + Levels(f)[i] by {
      ColumnNamesMatchLevels(f, i);
    }
    assert BuildRow(p)[Start(f) + i] == 1 <==> Levels(f)[i] == Answer(p, f) by {
      GroupBits(p, f);
      assert Group(BuildRow(p), f)[i] == BuildRow(p)[Start(f) + i];
    }
    var level, answer := Levels(f)[i], Answer(p, f);
    if Prefix(f) + level == Prefix(f) + answer {
      assert level == (Prefix(f) + level)[|Prefix(f)|..];
      assert answer == (Prefix(f) + answer)[|Prefix(f)|..];
    }
  }

  /** The answers a field's form offers. */
  function Options(f: Field): seq<string>
    requires f != Ideology
  {
    match f
    case Age => AgeOptions()
    case Region => RegionOptions()
    case Sex => SexOptions()
    case Municipality => MunicipalityOptions()
    case Turnout => TurnoutOptions()
    case Education => EducationOptions()
    case Employment => EmploymentOptions()
  }

  /** The offered answers that own no column: the reference category of the group, if any. */
  function Dropped(f: Field): seq<string>
    requires f != Ideology
  {
    match f
    case Age => ["18-29"]
    case Region => ["Andalucía"]
    case Sex => ["Hombre"]
    case Turnout => ["No"]
    case Municipality => []
    case Education => []
    case Employment => []
  }

  lemma LevelsDistinct(f: Field)
    requires f != Ideology
    ensures Distinct(Levels(f))
  {
    if f == Region {
      RegionLevelsDistinct();
    }
  }

  lemma RegionLevelsDistinct()
    ensures Distinct(RegionLevels())
  {
  }

  lemma OptionsDistinct(f: Field)
    requires f != Ideology
    ensures Distinct(Options(f))
  {
    if f == Region {
      RegionOptionsDistinct();
    }
  }

  lemma RegionOptionsDistinct()
    ensures Distinct(RegionOptions())
  {
  }

  /** Every offered answer either owns a column or is the group's dropped reference, never both. */
  lemma OptionsCover(f: Field)
    requires f != Ideology
    ensures forall o :: o in Options(f) <==> o in Dropped(f) || o in Levels(f)
    ensures forall o :: o in Dropped(f) ==> o !in Levels(f)
  {
    if f == Region {
      RegionOptionsCover();
    }
  }

  lemma RegionOptionsCover()
    ensures forall o :: o in RegionOptions() <==> o == "Andalucía" || o in RegionLevels()
    ensures "Andalucía" !in RegionLevels()
  {
  }

  /** Two different offered answers are different strings, and at least one
      of them owns a column. */
  lemma AnswersSeparated(f: Field, j: nat, k: nat)
    requires f != Ideology && j < |Options(f)| && k < |Options(f)| && j != k
    ensures Options(f)[j] != Options(f)[k]
    ensures Options(f)[j] in Levels(f) || Options(f)[k] in Levels(f)
  {
    OptionsDistinct(f);
    OptionsCover(f);
    assert |Dropped(f)| <= 1;
  }

  /** Number of ones in an indicator group over distinct levels: one if the
      answer is among the levels, none otherwise. */
  lemma {:induction false} CountOnesOneHot(v: string, levels: seq<string>)
    requires Distinct(levels)
    ensures CountOnes(OneHot(v, levels)) == Indicator(v in levels)
  {
    if levels != [] {
      var g := OneHot(v, levels);
      assert g[1..] == OneHot(v, levels[1..]);
      CountOnesOneHot(v, levels[1..]);
      assert v in levels <==> levels[0] == v || v in levels[1..];
    }
  }

  /** The group of a categorical field: its bit for a level is set exactly
      when the answer is that level, all bits are 0 or 1, at most one is
      set, and an answer outside the levels leaves the group all zero. */
  lemma GroupBits(p: Profile, f: Field)
    requires f != Ideology
    ensures var g := Group(BuildRow(p), f);
      && |g| == |Levels(f)|
      && (forall i :: 0 <= i < |g| ==> (g[i] == 1 <==> Levels(f)[i] == Answer(p, f)))
      && (forall i :: 0 <= i < |g| ==> g[i] == 0 || g[i] == 1)
      && CountOnes(g) == Indicator(Answer(p, f) in Levels(f))
      && (Answer(p, f) !in Levels(f) ==> forall i :: 0 <= i < |g| ==> g[i] == 0)
  {
    GroupIsSegment(p, f);
    LevelsDistinct(f);
    CountOnesOneHot(Answer(p, f), Levels(f));
  }

  /** For every answer the form offers, the group has exactly one bit set,
      unless the answer is the group's dropped reference, which sets none. */
  lemma OfferedAnswerBits(p: Profile, f: Field)
    requires f != Ideology && Answer(p, f) in Options(f)
    ensures CountOnes(Group(BuildRow(p), f)) == if Answer(p, f) in Dropped(f) then 0 else 1
  {
    GroupBits(p, f);
    OptionsCover(f);
  }

  /** An indicator group with only bit `k` set. */
  function UnitVector(n: nat, k: nat): seq<int>
  {
    seq(n, i => Indicator(i == k))
  }

  /** An indicator group with no bit set. */
  function Zeros(n: nat): seq<int>
  {
    seq(n, i => 0)
  }

  /** Over distinct levels, the group of a level's own answer is the unit vector at that level. */
  lemma OneHotUnit(v: string, levels: seq<string>, k: nat)
    requires Distinct(levels) && k < |levels| && levels[k] == v
    ensures OneHot(v, levels) == UnitVector(|levels|, k)
  {
  }

  /** An answer matching no level gives the all-zero group. */
  lemma OneHotZero(v: string, levels: seq<string>)
    requires v !in levels
    ensures OneHot(v, levels) == Zeros(|levels|)
  {
  }

  lemma SegmentIsUnit(p: Profile, f: Field, k: nat)
    requires f != Ideology && k < |Levels(f)| && Levels(f)[k] == Answer(p, f)
    ensures Segment(p, f) == UnitVector(Width(f), k)
  {
    LevelsDistinct(f);
    OneHotUnit(Answer(p, f), Levels(f), k);
  }

  /** An answer equal to the level of column `k` sets that column and no other. */
  lemma GroupIsUnit(p: Profile, f: Field, k: nat)
    requires f != Ideology && k < |Levels(f)| && Levels(f)[k] == Answer(p, f)
    ensures Group(BuildRow(p), f) == UnitVector(Width(f), k)
  {
    GroupIsSegment(p, f);
    SegmentIsUnit(p, f, k);
  }

  /** An answer that matches no level (a dropped reference, or any unknown
      value) leaves the whole group at zero. */
  lemma GroupIsZero(p: Profile, f: Field)
    requires f != Ideology && Answer(p, f) !in Levels(f)
    ensures Group(BuildRow(p), f) == Zeros(Width(f))
  {
    GroupIsSegment(p, f);
    OneHotZero(Answer(p, f), Levels(f));
  }

  /** The single sex and turnout columns test for "Mujer" and "Sí". */
  lemma SexAndTurnoutColumns(p: Profile)
    ensures BuildRow(p)[Start(Sex)] == Indicator(p.sex == "Mujer")
    ensures BuildRow(p)[Start(Turnout)] == Indicator(p.turnout == "Sí")
  {
    GroupIsSegment(p, Sex);
    GroupIsSegment(p, Turnout);
  }

  /** The profile of the worked example below. */
  function ExampleProfile(): Profile
  {
    Profile("30-39", "Mujer", "Madrid", ">100.000", 7, "Superiores", "Trabaja", "Sí")
  }

  /** The eight groups of the worked example's row. */
  lemma ExampleGroups()
    ensures var s := Segments(ExampleProfile());
      && s[0] == [7] && s[1] == UnitVector(5, 0) && s[2] == UnitVector(17, 14) && s[3] == [1]
      && s[4] == UnitVector(3, 2) && s[5] == [1] && s[6] == UnitVector(4, 3) && s[7] == UnitVector(4, 3)
  {
    var p := ExampleProfile();
    var s := Segments(p);
    assert s[1] == UnitVector(5, 0) by { SegmentIsUnit(p, Age, 0); }
    assert s[2] == UnitVector(17, 14) by { SegmentIsUnit(p, Region, 14); }
    assert s[4] == UnitVector(3, 2) by { SegmentIsUnit(p, Municipality, 2); }
    assert s[6] == UnitVector(4, 3) by { SegmentIsUnit(p, Education, 3); }
    assert s[7] == UnitVector(4, 3) by { SegmentIsUnit(p, Employment, 3); }
  }

  /** A fully specified profile and the row it encodes to: ESCIDEOL 7 and
      the columns GRUPO_EDAD_30-39, CCAA_Madrid, SEXO_Mujer, TAMUNI_>100.000,
      PARTICIPACIONG_Sí, ESTUDIOS_Superiores and SITLAB_Trabaja set. */
  lemma WorkedExample()
    ensures BuildRow(ExampleProfile())
         == [7] + UnitVector(5, 0) + UnitVector(17, 14) + [1] + UnitVector(3, 2) + [1]
            + UnitVector(4, 3) + UnitVector(4, 3)
  {
    var s := Segments(ExampleProfile());
    ExampleGroups();
    Concat8(s[0], s[1], s[2], s[3], s[4], s[5], s[6], s[7]);
    assert s == [s[0], s[1], s[2], s[3], s[4], s[5], s[6], s[7]];
  }
}
