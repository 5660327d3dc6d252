/** Validation and conversion of measurements, series and diagnoses (struct_validators.cc, struct_to_proto.cc,
    proto_to_struct.cc). Enumerations have the same numbers in both representations and are kept as one type. */
module DataModel {
  import opened Options

  // ---- Input and output structures ----

  /** The alternatives in the order of their index. */
  datatype Variant = Text(text: string) | Number(number: real) | Bool(flag: bool)

  function Index(v: Variant): nat { match v case Text(_) => 0 case Number(_) => 1 case Bool(_) => 2 }

  datatype ValidatorType =
    | Unspecified | Equal | NotEqual | LessThan | LessThanOrEqual | GreaterThan | GreaterThanOrEqual
    | RegexMatch | RegexNoMatch | InSet | NotInSet

  datatype Validator = Validator(type_: ValidatorType, value: seq<Variant>, name: string)

  datatype SubcomponentType = NoType | Asic | AsicSubsystem | Bus | Function | Connector

  datatype Subcomponent = Subcomponent(
    name: string, type_: SubcomponentType, location: string, version: string, revision: string)

  datatype DiagnosisType = Unknown | Pass | Fail

  /** The optional hardware info is the id of a registered one. */
  datatype Measurement = Measurement(
    name: string, unit: string, hardwareInfo: Option<string>, subcomponent: Option<Subcomponent>,
    validators: seq<Validator>, value: Variant, metadataJson: string)

  datatype SeriesStart = SeriesStart(
    name: string, unit: string, hardwareInfo: Option<string>, subcomponent: Option<Subcomponent>,
    validators: seq<Validator>, metadataJson: string)

  datatype Diagnosis = Diagnosis(
    verdict: string, type_: DiagnosisType, message: string, hardwareInfo: Option<string>,
    subcomponent: Option<Subcomponent>)

  datatype MeasurementOutput = MeasurementOutput(
    name: string, unit: string, hardwareInfoId: string, subcomponent: Option<Subcomponent>,
    validators: seq<Validator>, value: Variant, metadataJson: string)

  datatype SeriesStartOutput = SeriesStartOutput(
    seriesId: string, name: string, unit: string, hardwareInfoId: string, subcomponent: Option<Subcomponent>,
    validators: seq<Validator>, metadataJson: string)

  datatype DiagnosisOutput = DiagnosisOutput(
    verdict: string, type_: DiagnosisType, message: string, hardwareInfoId: string, subcomponent: Option<Subcomponent>)

  // ---- Protocol buffers ----

  /** google.protobuf.Value, as far as it is used. */
  datatype Value =
    NotSet | StringValue(s: string) | NumberValue(n: real) | BoolValue(b: bool) | ListValue(values: seq<Value>)

  datatype ProtoValidator = ProtoValidator(name: string, type_: ValidatorType, value: Value)

  /** S is google.protobuf.Struct. */
  datatype ProtoMeasurement<S> = ProtoMeasurement(
    name: string, unit: string, hardwareInfoId: string, subcomponent: Option<Subcomponent>,
    validators: seq<ProtoValidator>, value: Value, metadata: S)

  datatype ProtoSeriesStart<S> = ProtoSeriesStart(
    seriesId: string, name: string, unit: string, hardwareInfoId: string, subcomponent: Option<Subcomponent>,
    validators: seq<ProtoValidator>, metadata: S)

  datatype ProtoDiagnosis = ProtoDiagnosis(
    verdict: string, type_: DiagnosisType, message: string, hardwareInfoId: string, subcomponent: Option<Subcomponent>)

  /** The JSON library: None when a text is not a JSON object. */
  datatype Json<!S> = Json(parse: string -> Option<S>, print_: S -> string, empty: S)

  // ---- Validation; a failed CHECK ends the process ----

  datatype Checked = Passes | Dies | ReadsPastEnd

  function ValidateValidator(v: Validator): Checked {
    if v.value == [] then Dies
    else if exists k :: 0 <= k < |v.value| && Index(v.value[k]) != Index(v.value[0]) then Dies
    else match v.type_
      case Equal | NotEqual => if |v.value| == 1 then Passes else Dies
      case LessThan | LessThanOrEqual | GreaterThan | GreaterThanOrEqual =>
        if |v.value| == 1 && v.value[0].Number? then Passes else Dies
      case RegexMatch | RegexNoMatch => if v.value[0].Text? then Passes else Dies
      case InSet | NotInSet => if v.value[0].Text? || v.value[0].Number? then Passes else Dies
      case Unspecified => Dies
  }

  predicate ValidSubcomponent(s: Option<Subcomponent>) { s.Some? ==> s.value.name != "" }

  /** Every validator passes and has values of one type. */
  predicate ValidatorsOfType(validators: seq<Validator>, index: nat) {
    forall k | 0 <= k < |validators| ::
      ValidateValidator(validators[k]) == Passes && validators[k].value != [] && Index(validators[k].value[0]) == index
  }

  /** Reads the type of the first validator before that validator is checked. */
  function ValidateSeriesStart(m: SeriesStart): Checked {
    if m.name == "" || !ValidSubcomponent(m.subcomponent) then Dies
    else if m.validators == [] then Passes
    else if m.validators[0].value == [] then ReadsPastEnd
    else if ValidatorsOfType(m.validators, Index(m.validators[0].value[0])) then Passes
    else Dies
  }

  function ValidateMeasurement(m: Measurement): Checked {
    if m.name == "" || !ValidSubcomponent(m.subcomponent) then Dies
    else if ValidatorsOfType(m.validators, Index(m.value)) then Passes
    else Dies
  }

  function ValidateDiagnosis(d: Diagnosis): Checked {
    if d.verdict == "" || d.type_ == Unknown || !ValidSubcomponent(d.subcomponent) then Dies else Passes
  }

  // ---- What validation accepts ----

  predicate AllText(values: seq<Variant>) { forall k | 0 <= k < |values| :: values[k].Text? }

  predicate AllNumbers(values: seq<Variant>) { forall k | 0 <= k < |values| :: values[k].Number? }

  predicate AllFlags(values: seq<Variant>) { forall k | 0 <= k < |values| :: values[k].Bool? }

  /** The rule of each type: one value to be equal to, one number to be compared with, texts to match, and texts or
      numbers for a set. A type must be given, and values, all of one kind. */
  predicate KeepsRules(v: Validator) {
    && v.value != [] && (AllText(v.value) || AllNumbers(v.value) || AllFlags(v.value))
    && v.type_ != Unspecified
    && (v.type_ == Equal || v.type_ == NotEqual ==> |v.value| == 1)
    && (v.type_ == LessThan || v.type_ == LessThanOrEqual ==> |v.value| == 1 && AllNumbers(v.value))
    && (v.type_ == GreaterThan || v.type_ == GreaterThanOrEqual ==> |v.value| == 1 && AllNumbers(v.value))
    && (v.type_ == RegexMatch || v.type_ == RegexNoMatch ==> AllText(v.value))
    && (v.type_ == InSet || v.type_ == NotInSet ==> AllText(v.value) || AllNumbers(v.value))
  }

  /** Values of the kind of this one. */
  predicate OfKind(values: seq<Variant>, v: Variant) {
    (v.Text? ==> AllText(values)) && (v.Number? ==> AllNumbers(values)) && (v.Bool? ==> AllFlags(values))
  }

  predicate AllKeepRules(validators: seq<Validator>) {
    forall k | 0 <= k < |validators| :: KeepsRules(validators[k])
  }

  predicate AllOfKind(validators: seq<Validator>, v: Variant) {
    forall k | 0 <= k < |validators| :: OfKind(validators[k].value, v)
  }

  lemma SameKind(values: seq<Variant>, v: Variant)
    ensures OfKind(values, v) <==> forall k | 0 <= k < |values| :: Index(values[k]) == Index(v)
  {
  }

  /** A validator passes exactly when it keeps the rule of its type. */
  lemma ValidatorRules(v: Validator)
    ensures ValidateValidator(v) == Passes <==> KeepsRules(v)
    ensures ValidateValidator(v) != ReadsPastEnd
  {
    if v.value != [] { SameKind(v.value, v.value[0]); }
  }

  lemma ValidatorsRules(validators: seq<Validator>, v: Variant)
    ensures ValidatorsOfType(validators, Index(v)) <==> AllKeepRules(validators) && AllOfKind(validators, v)
  {
    forall k | 0 <= k < |validators|
      ensures (ValidateValidator(validators[k]) == Passes && validators[k].value != [] &&
               Index(validators[k].value[0]) == Index(v)) <==> KeepsRules(validators[k]) && OfKind(validators[k].value, v)
    {
      ValidatorRules(validators[k]);
      if validators[k].value != [] { SameKind(validators[k].value, validators[k].value[0]); }
      SameKind(validators[k].value, v);
    }
  }

  /** A measurement passes exactly when it has a name, a subcomponent has one too, and every validator keeps its rule
      and holds values of the measured kind. */
  lemma MeasurementRules(m: Measurement)
    ensures ValidateMeasurement(m) == Passes <==>
              && m.name != "" && (m.subcomponent.Some? ==> m.subcomponent.value.name != "")
              && AllKeepRules(m.validators) && AllOfKind(m.validators, m.value)
  {
    ValidatorsRules(m.validators, m.value);
  }

  /** A series start passes exactly when names are given, every validator keeps its rule, and all of them hold values of
      one kind. */
  lemma SeriesStartRules(s: SeriesStart)
    ensures ValidateSeriesStart(s) == Passes <==>
              && s.name != "" && (s.subcomponent.Some? ==> s.subcomponent.value.name != "")
              && AllKeepRules(s.validators)
              && ((forall k | 0 <= k < |s.validators| :: AllText(s.validators[k].value)) ||
                  (forall k | 0 <= k < |s.validators| :: AllNumbers(s.validators[k].value)) ||
                  (forall k | 0 <= k < |s.validators| :: AllFlags(s.validators[k].value)))
  {
    if s.validators != [] && s.validators[0].value != [] {
      ValidatorsRules(s.validators, s.validators[0].value[0]);
    }
  }

  /** The checks of one validator. */
  method CheckValidator(v: Validator) returns (r: Checked)
    ensures r == ValidateValidator(v) && (r == Passes <==> KeepsRules(v))
  {
    ValidatorRules(v);
    if v.value == [] { return Dies; }
    var typeIndex := Index(v.value[0]);
    for k := 0 to |v.value|
      invariant forall j | 0 <= j < k :: Index(v.value[j]) == typeIndex
    {
      if Index(v.value[k]) != typeIndex { return Dies; }
    }
    match v.type_ {
      case Equal | NotEqual =>
        if |v.value| != 1 { return Dies; }
      case LessThan | LessThanOrEqual | GreaterThan | GreaterThanOrEqual =>
        if |v.value| != 1 || !v.value[0].Number? { return Dies; }
      case RegexMatch | RegexNoMatch =>
        if !v.value[0].Text? { return Dies; }
      case InSet | NotInSet =>
        if !v.value[0].Text? && !v.value[0].Number? { return Dies; }
      case Unspecified =>
        return Dies;
    }
    return Passes;
  }

  /** The loop over the validators, after the names have been checked. */
  method CheckValidators(validators: seq<Validator>, typeIndex: nat) returns (r: Checked)
    ensures r == if ValidatorsOfType(validators, typeIndex) then Passes else Dies
  {
    for k := 0 to |validators|
      invariant ValidatorsOfType(validators[..k], typeIndex)
    {
      var checked := CheckValidator(validators[k]);
      if checked != Passes || Index(validators[k].value[0]) != typeIndex { return Dies; }
      assert validators[..k + 1] == validators[..k] + [validators[k]];
    }
    assert validators[..|validators|] == validators;
    return Passes;
  }

  method CheckMeasurement(m: Measurement) returns (r: Checked)
    ensures r == ValidateMeasurement(m)
    ensures r == Passes <==>
              && m.name != "" && (m.subcomponent.Some? ==> m.subcomponent.value.name != "")
              && AllKeepRules(m.validators) && AllOfKind(m.validators, m.value)
  {
    MeasurementRules(m);
    if m.name == "" { return Dies; }
    if m.subcomponent.Some? && m.subcomponent.value.name == "" { return Dies; }
    r := CheckValidators(m.validators, Index(m.value));
  }

  // ---- Conversion ----

  function VariantToProto(v: Variant): Value {
    match v case Text(s) => StringValue(s) case Bool(b) => BoolValue(b) case Number(n) => NumberValue(n)
  }

  /** None is LOG(FATAL). */
  function ProtoToVariant(value: Value): Option<Variant> {
    match value
    case StringValue(s) => Some(Text(s))
    case NumberValue(n) => Some(Number(n))
    case BoolValue(b) => Some(Bool(b))
    case _ => None
  }

  function ValuesToProto(values: seq<Variant>): (r: seq<Value>)
    ensures |r| == |values| && forall k | 0 <= k < |r| :: r[k] == VariantToProto(values[k])
  {
    seq(|values|, k requires 0 <= k < |values| => VariantToProto(values[k]))
  }

  /** One value is stored as itself, several as a list; none leaves the field unset. */
  function ValidatorToProto(v: Validator): ProtoValidator {
    ProtoValidator(v.name, v.type_,
                   if |v.value| == 1 then VariantToProto(v.value[0])
                   else if v.value == [] then NotSet
                   else ListValue(ValuesToProto(v.value)))
  }

  function ProtoToValues(values: seq<Value>): Option<seq<Variant>> {
    if values == [] then Some([]) else
    match (ProtoToValues(values[..|values| - 1]), ProtoToVariant(values[|values| - 1]))
    case (Some(before), Some(v)) => Some(before + [v])
    case _ => None
  }

  function ProtoToValidator(p: ProtoValidator): Option<Validator> {
    var values := if p.value.ListValue? then ProtoToValues(p.value.values) else ProtoToValues([p.value]);
    if values == None then None else Some(Validator(p.type_, values.value, p.name))
  }

  function ValidatorsToProto(validators: seq<Validator>): (r: seq<ProtoValidator>)
    ensures |r| == |validators| && forall k | 0 <= k < |r| :: r[k] == ValidatorToProto(validators[k])
  {
    seq(|validators|, k requires 0 <= k < |validators| => ValidatorToProto(validators[k]))
  }

  function ProtoToValidators(protos: seq<ProtoValidator>): Option<seq<Validator>> {
    if protos == [] then Some([]) else
    match (ProtoToValidators(protos[..|protos| - 1]), ProtoToValidator(protos[|protos| - 1]))
    case (Some(before), Some(v)) => Some(before + [v])
    case _ => None
  }

  /** JsonToProtoOrDie: the empty string is the empty object. */
  function JsonToProto<S>(json: Json<S>, text: string): Option<S> {
    if text == "" then Some(json.empty) else json.parse(text)
  }

  function IdOf(hardwareInfo: Option<string>): string { if hardwareInfo.Some? then hardwareInfo.value else "" }

  function MeasurementToProto<S>(json: Json<S>, m: Measurement): Option<ProtoMeasurement<S>> {
    match JsonToProto(json, m.metadataJson)
    case None => None
    case Some(metadata) =>
      Some(ProtoMeasurement(m.name, m.unit, IdOf(m.hardwareInfo), m.subcomponent, ValidatorsToProto(m.validators),
                            VariantToProto(m.value), metadata))
  }

  function ProtoToMeasurement<S>(json: Json<S>, p: ProtoMeasurement<S>): Option<MeasurementOutput> {
    match (ProtoToValidators(p.validators), ProtoToVariant(p.value))
    case (Some(validators), Some(value)) =>
      Some(MeasurementOutput(p.name, p.unit, p.hardwareInfoId, p.subcomponent, validators, value,
                             json.print_(p.metadata)))
    case _ => None
  }

  function SeriesStartToProto<S>(json: Json<S>, m: SeriesStart): Option<ProtoSeriesStart<S>> {
    match JsonToProto(json, m.metadataJson)
    case None => None
    case Some(metadata) =>
      Some(ProtoSeriesStart("", m.name, m.unit, IdOf(m.hardwareInfo), m.subcomponent,
                            ValidatorsToProto(m.validators), metadata))
  }

  function ProtoToSeriesStart<S>(json: Json<S>, p: ProtoSeriesStart<S>): Option<SeriesStartOutput> {
    match ProtoToValidators(p.validators)
    case None => None
    case Some(validators) =>
      Some(SeriesStartOutput(p.seriesId, p.name, p.unit, p.hardwareInfoId, p.subcomponent, validators,
                             json.print_(p.metadata)))
  }

  function DiagnosisToProto(d: Diagnosis): ProtoDiagnosis {
    ProtoDiagnosis(d.verdict, d.type_, d.message, IdOf(d.hardwareInfo), d.subcomponent)
  }

  function ProtoToDiagnosis(p: ProtoDiagnosis): DiagnosisOutput {
    DiagnosisOutput(p.verdict, p.type_, p.message, p.hardwareInfoId, p.subcomponent)
  }

  // ---- The loops ----

  /** The value holds this alternative, as itself and not in a list. */
  predicate Stores(value: Value, v: Variant) {
    && (v.Text? ==> value == StringValue(v.text)) && (v.Number? ==> value == NumberValue(v.number))
    && (v.Bool? ==> value == BoolValue(v.flag))
  }

  /** The setters and the append loop of StructToProto for a validator. */
  method BuildProtoValidator(v: Validator) returns (p: ProtoValidator)
    ensures p == ValidatorToProto(v) && p.name == v.name && p.type_ == v.type_
    ensures v.value == [] ==> p.value == NotSet
    ensures |v.value| == 1 ==> Stores(p.value, v.value[0])
    ensures |v.value| > 1 ==>
              p.value.ListValue? && |p.value.values| == |v.value| &&
              forall k | 0 <= k < |v.value| :: Stores(p.value.values[k], v.value[k])
  {
    p := ProtoValidator(v.name, v.type_, NotSet);
    if |v.value| == 1 {
      p := p.(value := VariantToProto(v.value[0]));
    } else {
      for k := 0 to |v.value|
        invariant p == ProtoValidator(v.name, v.type_, if k == 0 then NotSet else ListValue(ValuesToProto(v.value)[..k]))
      {
        assert ValuesToProto(v.value)[..k + 1] == ValuesToProto(v.value)[..k] + [VariantToProto(v.value[k])];
        var list := if p.value.ListValue? then p.value.values else [];
        p := p.(value := ListValue(list + [VariantToProto(v.value[k])]));
      }
      assert ValuesToProto(v.value)[..|v.value|] == ValuesToProto(v.value);
    }
  }

  /** The loop of ProtoToStruct for a validator; stops where the source dies. */
  method BuildValidator(p: ProtoValidator) returns (v: Option<Validator>)
    ensures v == ProtoToValidator(p)
  {
    var values: seq<Variant> := [];
    if p.value.ListValue? {
      var list := p.value.values;
      for k := 0 to |list|
        invariant ProtoToValues(list[..k]) == Some(values)
      {
        assert list[..k + 1][..k] == list[..k];
        var value := ProtoToVariant(list[k]);
        if value == None {
          NoValues(list, k);
          return None;
        }
        values := values + [value.value];
      }
      assert list[..|list|] == list;
    } else {
      OneValue(p.value);
      var value := ProtoToVariant(p.value);
      if value == None { return None; }
      values := [value.value];
    }
    return Some(Validator(p.type_, values, p.name));
  }

  lemma OneValue(value: Value)
    ensures ProtoToValues([value]) ==
            match ProtoToVariant(value) case None => None case Some(v) => Some([v])
  {
    var one := [value];
    assert one[..|one| - 1] == [] && one[|one| - 1] == value && ProtoToValues([]) == Some([]);
    if ProtoToVariant(value).Some? { assert [] + [ProtoToVariant(value).value] == [ProtoToVariant(value).value]; }
  }

  lemma {:induction false} NoValues(list: seq<Value>, k: nat)
    requires k < |list| && ProtoToVariant(list[k]) == None
    ensures ProtoToValues(list) == None
  {
    if k < |list| - 1 { NoValues(list[..|list| - 1], k); }
  }

  // ---- Round trips ----

  lemma {:induction false} ValuesRoundTrip(values: seq<Variant>)
    ensures ProtoToValues(ValuesToProto(values)) == Some(values)
  {
    if values != [] {
      var n := |values| - 1;
      ValuesRoundTrip(values[..n]);
      assert ValuesToProto(values)[..n] == ValuesToProto(values[..n]);
      assert values == values[..n] + [values[n]];
    }
  }

  /** A validator survives exactly when it has a value; without one the second conversion dies. */
  lemma ValidatorRoundTrip(v: Validator)
    ensures ProtoToValidator(ValidatorToProto(v)) == Some(v) <==> v.value != []
    ensures v.value == [] ==> ProtoToValidator(ValidatorToProto(v)) == None
  {
    if |v.value| == 1 {
      OneValue(VariantToProto(v.value[0]));
      assert v.value == [v.value[0]];
    } else if v.value == [] {
      NoValues([NotSet], 0);
    } else {
      ValuesRoundTrip(v.value);
    }
  }

  predicate AllHaveValues(validators: seq<Validator>) { forall k | 0 <= k < |validators| :: validators[k].value != [] }

  lemma {:induction false} ValidatorsRoundTrip(validators: seq<Validator>)
    ensures if AllHaveValues(validators) then ProtoToValidators(ValidatorsToProto(validators)) == Some(validators)
            else ProtoToValidators(ValidatorsToProto(validators)) == None
  {
    if validators != [] {
      var n := |validators| - 1;
      ValidatorsRoundTrip(validators[..n]);
      assert ValidatorsToProto(validators)[..n] == ValidatorsToProto(validators[..n]);
      ValidatorRoundTrip(validators[n]);
      assert validators == validators[..n] + [validators[n]];
      assert AllHaveValues(validators) <==> AllHaveValues(validators[..n]) && validators[n].value != [];
    }
  }

  /** Metadata after a round trip: the empty object for no text, and otherwise parsed and printed again. */
  function Canonical<S>(json: Json<S>, text: string): Option<string> {
    if text == "" then Some(json.print_(json.empty)) else
    match json.parse(text) case None => None case Some(s) => Some(json.print_(s))
  }

  /** For any measurement whose metadata is JSON: all its fields come back, the metadata in canonical form, exactly
      when every validator has a value. */
  lemma MeasurementRoundTrip<S>(json: Json<S>, m: Measurement)
    ensures MeasurementToProto(json, m) == None <==> Canonical(json, m.metadataJson) == None
    ensures MeasurementToProto(json, m).Some? ==>
              (ProtoToMeasurement(json, MeasurementToProto(json, m).value) ==
                 Some(MeasurementOutput(m.name, m.unit, IdOf(m.hardwareInfo), m.subcomponent, m.validators, m.value,
                                        Canonical(json, m.metadataJson).value))
               <==> AllHaveValues(m.validators))
  {
    ValidatorsRoundTrip(m.validators);
  }

  lemma SeriesStartRoundTrip<S>(json: Json<S>, m: SeriesStart)
    ensures SeriesStartToProto(json, m) == None <==> Canonical(json, m.metadataJson) == None
    ensures SeriesStartToProto(json, m).Some? ==>
              (ProtoToSeriesStart(json, SeriesStartToProto(json, m).value) ==
                 Some(SeriesStartOutput("", m.name, m.unit, IdOf(m.hardwareInfo), m.subcomponent, m.validators,
                                        Canonical(json, m.metadataJson).value))
               <==> AllHaveValues(m.validators))
  {
    ValidatorsRoundTrip(m.validators);
  }

  lemma DiagnosisRoundTrip(d: Diagnosis)
    ensures ProtoToDiagnosis(DiagnosisToProto(d)) ==
            DiagnosisOutput(d.verdict, d.type_, d.message, IdOf(d.hardwareInfo), d.subcomponent)
  {
  }

  /** What validation accepts meets that condition, and has one value type throughout. */
  lemma AcceptedSurvives(m: Measurement, s: SeriesStart)
    ensures ValidateMeasurement(m) == Passes ==> AllHaveValues(m.validators)
    ensures ValidateMeasurement(m) == Passes ==>
              forall j, k | 0 <= j < |m.validators| && 0 <= k < |m.validators[j].value| ::
                Index(m.validators[j].value[k]) == Index(m.value)
    ensures ValidateSeriesStart(s) == Passes ==> AllHaveValues(s.validators)
    ensures ValidateSeriesStart(s) == Passes ==>
              forall i, j, k | 0 <= i < |s.validators| && 0 <= j < |s.validators| && 0 <= k < |s.validators[j].value| ::
                s.validators[i].value != [] && Index(s.validators[j].value[k]) == Index(s.validators[i].value[0])
  {
  }

  /** Validation dies on a validator without values, except that a series start whose first validator has none
      is read past its end before any check. */
  lemma EmptyFirstValidator(s: SeriesStart)
    ensures ValidateSeriesStart(s) == ReadsPastEnd <==>
            s.name != "" && ValidSubcomponent(s.subcomponent) && s.validators != [] && s.validators[0].value == []
  {
  }

  /** Printing is never empty and is undone by parsing. */
  ghost predicate Lawful<S(!new)>(json: Json<S>) {
    forall s :: json.print_(s) != "" && json.parse(json.print_(s)) == Some(s)
  }

  /** The input that an output stands for. */
  function AsInput(out: MeasurementOutput): Measurement {
    Measurement(out.name, out.unit, Some(out.hardwareInfoId), out.subcomponent, out.validators, out.value,
                out.metadataJson)
  }

  /** An output passes validation and, sent through once more, comes back unchanged. */
  lemma OutputIsFixed<S(!new)>(json: Json<S>, m: Measurement)
    requires Lawful(json) && ValidateMeasurement(m) == Passes && Canonical(json, m.metadataJson).Some?
    ensures var out := ProtoToMeasurement(json, MeasurementToProto(json, m).value);
            && out.Some? && ValidateMeasurement(AsInput(out.value)) == Passes
            && MeasurementToProto(json, AsInput(out.value)).Some?
            && ProtoToMeasurement(json, MeasurementToProto(json, AsInput(out.value)).value) == out
  {
    AcceptedSurvives(m, SeriesStart("", "", None, None, [], ""));
    MeasurementRoundTrip(json, m);
    var out := ProtoToMeasurement(json, MeasurementToProto(json, m).value).value;
    MeasurementRoundTrip(json, AsInput(out));
    assert json.parse(json.print_(JsonToProto(json, m.metadataJson).value)).Some?;
  }

  function AsDiagnosis(out: DiagnosisOutput): Diagnosis {
    Diagnosis(out.verdict, out.type_, out.message, Some(out.hardwareInfoId), out.subcomponent)
  }

  /** The output for a diagnosis is accepted or refused as the diagnosis is, comes back unchanged, and is the diagnosis
      itself exactly when that names a hardware info: none and one with the empty id look the same. */
  lemma DiagnosisIsFixed(d: Diagnosis)
    ensures var out := ProtoToDiagnosis(DiagnosisToProto(d));
            && ValidateDiagnosis(AsDiagnosis(out)) == ValidateDiagnosis(d)
            && ProtoToDiagnosis(DiagnosisToProto(AsDiagnosis(out))) == out
            && (AsDiagnosis(out) == d <==> d.hardwareInfo.Some?)
  {
    DiagnosisRoundTrip(d);
    DiagnosisRoundTrip(AsDiagnosis(ProtoToDiagnosis(DiagnosisToProto(d))));
  }
}
