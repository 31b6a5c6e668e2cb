/** `BaseSerializer` in utils/serializers.py: one validation pass over the declared fields,
    in declaration order, that fills `validated_data` and `errors`. */
module Serializers {
  import opened Values
  import opened Fields

  datatype Mode = Create | Write

  function ModeName(m: Mode): string {
    match m
    case Create => "create"
    case Write => "write"
  }

  const ModeRequiredMessage := "`mode` is required when defining a serializer."

  function InvalidModeMessage(mode: string): string {
    "Invalid serializer mode '" + mode + "'. Must be one of: create, write"
  }

  /** The mode check of `BaseSerializer.__init__`; the empty string stands for every falsy
      argument. */
  function ParseMode(mode: string): (r: Result<Mode>)
    ensures r.Ok? <==> mode == "create" || mode == "write"
    ensures r.Ok? ==> ModeName(r.value) == mode
    ensures mode == "" ==> r == Err(ModeRequiredMessage)
    ensures mode != "" && r.Err? ==> r == Err(InvalidModeMessage(mode))
  {
    if mode == "" then Err(ModeRequiredMessage)
    else if mode == "create" then Ok(Create)
    else if mode == "write" then Ok(Write)
    else Err(InvalidModeMessage(mode))
  }

  /** A `validate_<name>` method: returns the value to store, or fails with a message. */
  type Hook = Value -> Result<Value>

  const RequiredMessage := "This field is required."

  /** A serializer class: its fields in declaration order, its `validate_<name>` hooks by
      field name, its date formats, and the library calls coercion relies on. */
  datatype Schema = Schema(fields: seq<(string, Field)>, hooks: map<string, Hook>, formats: Formats, runtime: Runtime)
  {
    /** The declared field names, in declaration order. */
    function FieldNames(): seq<string>
    {
      seq(|fields|, i requires 0 <= i < |fields| => fields[i].0)
    }

    /** Field names are distinct (they are the keys of a dict) and every field was built
        by the `Field` constructor. */
    predicate WellFormed() {
      && Distinct(FieldNames())
      && (forall i :: 0 <= i < |fields| ==> fields[i].1.Valid())
    }
  }

  /** What one pass of the loop does for one field: nothing, store a value, or record an error. */
  datatype Step = Skip | Store(value: Value) | Reject(msg: string)

  /** Coercion of `raw`, then the field's hook if it has one. */
  function Process(sc: Schema, name: string, f: Field, raw: Value): Step
    requires f.Valid()
  {
    match ToInternal(f, raw, sc.formats, sc.runtime)
    case Err(m) => Reject(m)
    case Ok(v) =>
      if name !in sc.hooks then Store(v)
      else match sc.hooks[name](v)
        case Ok(w) => Store(w)
        case Err(m) => Reject(m)
  }

  /** The body of the loop of `is_valid` for the field `name`. */
  function FieldStep(sc: Schema, payload: map<string, Value>, mode: Mode, name: string, f: Field): (s: Step)
    requires f.Valid()
    ensures name !in payload && mode == Create && f.required ==> s == Reject(RequiredMessage)
    ensures name !in payload && mode == Write ==> s == Skip
    ensures name !in payload && !f.required && f.default.Null? ==> s == Skip
    ensures name in payload ==> s == Process(sc, name, f, payload[name])
    ensures name !in payload && mode == Create && !f.required && !f.default.Null? ==>
      s == Process(sc, name, f, f.default)
  {
    var inData := name in payload;
    var hasDefault := !f.default.Null?;
    var isCreate := mode == Create;
    if !inData && isCreate && f.required then Reject(RequiredMessage)
    else if !inData && (!hasDefault || !isCreate) then Skip
    else
      var raw := if inData then payload[name] else f.default;
      Process(sc, name, f, raw)
  }

  /** `validated_data` and `errors` as a value. */
  datatype Outcome = Outcome(validated: map<string, Value>, errors: map<string, string>)

  /** Files one field's step into the outcome. */
  function Record(o: Outcome, name: string, s: Step): Outcome {
    match s
    case Skip => o
    case Store(v) => o.(validated := o.validated[name := v])
    case Reject(m) => o.(errors := o.errors[name := m])
  }

  /** What a field's entries in an outcome say about it. */
  function Entry(o: Outcome, name: string): Step {
    if name in o.errors then Reject(o.errors[name])
    else if name in o.validated then Store(o.validated[name])
    else Skip
  }

  /** No name occurs twice. */
  predicate Distinct(names: seq<string>) {
    forall i, j :: 0 <= i < j < |names| ==> names[i] != names[j]
  }

  /** Files the first `n` steps, each under its field's name, into empty maps. Only those
      names appear (the later ones do not), and none appears in both maps. */
  function Fold(names: seq<string>, steps: seq<Step>, n: nat): (o: Outcome)
    requires Distinct(names) && |steps| == |names| && n <= |names|
    ensures forall name :: name in o.validated || name in o.errors ==> name in names
    ensures forall j :: n <= j < |names| ==> names[j] !in o.validated && names[j] !in o.errors
    ensures o.validated.Keys !! o.errors.Keys
  {
    if n == 0 then Outcome(map[], map[])
    else Record(Fold(names, steps, n - 1), names[n - 1], steps[n - 1])
  }

  /** Each of the first `n` names ends up exactly as its own step says, whatever the other
      steps are. */
  lemma {:induction false} FoldEntry(names: seq<string>, steps: seq<Step>, n: nat, k: nat)
    requires Distinct(names) && |steps| == |names| && k < n <= |names|
    ensures Entry(Fold(names, steps, n), names[k]) == steps[k]
  {
    var o := Fold(names, steps, n - 1);
    if k == n - 1 {
      EntryRecordSame(o, names[k], steps[k]);
    } else {
      FoldEntry(names, steps, n - 1, k);
      EntryRecordOther(o, names[n - 1], names[k], steps[n - 1]);
    }
  }

  /** Filing a step for a field not yet in the outcome makes the step its entry. */
  lemma EntryRecordSame(o: Outcome, name: string, s: Step)
    requires name !in o.validated && name !in o.errors
    ensures Entry(Record(o, name, s), name) == s
  {
  }

  /** Filing a step for one field leaves every other field's entry alone. */
  lemma EntryRecordOther(o: Outcome, name: string, other: string, s: Step)
    requires name != other
    ensures Entry(Record(o, name, s), other) == Entry(o, other)
  {
  }

  /** The loop's step for every declared field, in declaration order. */
  function Steps(sc: Schema, payload: map<string, Value>, mode: Mode): seq<Step>
    requires sc.WellFormed()
  {
    seq(|sc.fields|, k requires 0 <= k < |sc.fields| => FieldStep(sc, payload, mode, sc.fields[k].0, sc.fields[k].1))
  }

  /** The two maps after the loop of `is_valid` has handled the first `n` fields. */
  function Run(sc: Schema, payload: map<string, Value>, mode: Mode, n: nat): Outcome
    requires sc.WellFormed() && n <= |sc.fields|
  {
    Fold(sc.FieldNames(), Steps(sc, payload, mode), n)
  }

  /** The two maps after the whole loop. */
  function Validate(sc: Schema, payload: map<string, Value>, mode: Mode): Outcome
    requires sc.WellFormed()
  {
    Run(sc, payload, mode, |sc.fields|)
  }

  /** The loop's `i`-th pass files the `i`-th field's step on top of the earlier ones. */
  lemma RunNext(sc: Schema, payload: map<string, Value>, mode: Mode, i: nat)
    requires sc.WellFormed() && i < |sc.fields|
    ensures Run(sc, payload, mode, i + 1) ==
      Record(Run(sc, payload, mode, i), sc.fields[i].0, FieldStep(sc, payload, mode, sc.fields[i].0, sc.fields[i].1))
  {
  }

  /** Only declared fields appear in the outcome, and none in both maps. */
  lemma RunDeclared(sc: Schema, payload: map<string, Value>, mode: Mode)
    requires sc.WellFormed()
    ensures forall name :: name in Validate(sc, payload, mode).validated ==> name in sc.FieldNames()
    ensures forall name :: name in Validate(sc, payload, mode).errors ==> name in sc.FieldNames()
    ensures Validate(sc, payload, mode).validated.Keys !! Validate(sc, payload, mode).errors.Keys
  {
  }

  /** Every declared field ends up exactly as its own step says, whatever the other fields
      did: a failure on one field neither stops nor alters another. */
  lemma RunEntry(sc: Schema, payload: map<string, Value>, mode: Mode, k: nat)
    requires sc.WellFormed() && k < |sc.fields|
    ensures Entry(Validate(sc, payload, mode), sc.fields[k].0) ==
      FieldStep(sc, payload, mode, sc.fields[k].0, sc.fields[k].1)
  {
    FoldEntry(sc.FieldNames(), Steps(sc, payload, mode), |sc.fields|, k);
  }

  /** In create mode a required field missing from the payload gets the required message and
      no value, even when it declares a default. */
  lemma MissingRequiredRejected(sc: Schema, payload: map<string, Value>, k: nat)
    requires sc.WellFormed() && k < |sc.fields|
    requires sc.fields[k].0 !in payload && sc.fields[k].1.required
    ensures Entry(Validate(sc, payload, Create), sc.fields[k].0) == Reject("This field is required.")
  {
    RunEntry(sc, payload, Create, k);
  }

  /** A field missing from the payload is skipped, leaving no error and no value, in write
      mode whether or not it is required, and in create mode when it is optional and has no
      default. */
  lemma MissingSkipped(sc: Schema, payload: map<string, Value>, mode: Mode, k: nat)
    requires sc.WellFormed() && k < |sc.fields|
    requires sc.fields[k].0 !in payload
    requires mode == Write || (!sc.fields[k].1.required && sc.fields[k].1.default.Null?)
    ensures sc.fields[k].0 !in Validate(sc, payload, mode).errors
    ensures sc.fields[k].0 !in Validate(sc, payload, mode).validated
  {
    RunEntry(sc, payload, mode, k);
  }

  /** In create mode an optional field missing from the payload that declares a default is
      handled as if the default had been sent: coerced, then passed to the hook. */
  lemma MissingDefaultProcessed(sc: Schema, payload: map<string, Value>, k: nat)
    requires sc.WellFormed() && k < |sc.fields|
    requires sc.fields[k].0 !in payload && !sc.fields[k].1.required && !sc.fields[k].1.default.Null?
    ensures Entry(Validate(sc, payload, Create), sc.fields[k].0) ==
      Process(sc, sc.fields[k].0, sc.fields[k].1, sc.fields[k].1.default)
    ensures Entry(Validate(sc, payload, Create), sc.fields[k].0) ==
      Entry(Validate(sc, payload[sc.fields[k].0 := sc.fields[k].1.default], Create), sc.fields[k].0)
  {
    RunEntry(sc, payload, Create, k);
    RunEntry(sc, payload[sc.fields[k].0 := sc.fields[k].1.default], Create, k);
  }

  /** A field present in the payload is coerced and passed to its hook in either mode: what is
      stored is the hook's value, and a hook's failure message is the field's error verbatim. */
  lemma PresentProcessed(sc: Schema, payload: map<string, Value>, mode: Mode, k: nat)
    requires sc.WellFormed() && k < |sc.fields|
    requires sc.fields[k].0 in payload
    ensures var (name, f) := sc.fields[k];
      var o := Validate(sc, payload, mode);
      var c := ToInternal(f, payload[name], sc.formats, sc.runtime);
      && (c.Err? ==> Entry(o, name) == Reject(c.msg))
      && (c.Ok? && name !in sc.hooks ==> Entry(o, name) == Store(c.value))
      && (c.Ok? && name in sc.hooks && sc.hooks[name](c.value).Ok? ==>
            Entry(o, name) == Store(sc.hooks[name](c.value).value))
      && (c.Ok? && name in sc.hooks && sc.hooks[name](c.value).Err? ==>
            Entry(o, name) == Reject(sc.hooks[name](c.value).msg))
  {
    RunEntry(sc, payload, mode, k);
  }

  /** A field's outcome depends on the payload only through that field's own entry. */
  lemma FieldIndependent(sc: Schema, p1: map<string, Value>, p2: map<string, Value>, mode: Mode, k: nat)
    requires sc.WellFormed() && k < |sc.fields|
    requires sc.fields[k].0 in p1 <==> sc.fields[k].0 in p2
    requires sc.fields[k].0 in p1 ==> p1[sc.fields[k].0] == p2[sc.fields[k].0]
    ensures Entry(Validate(sc, p1, mode), sc.fields[k].0) == Entry(Validate(sc, p2, mode), sc.fields[k].0)
  {
    RunEntry(sc, p1, mode, k);
    RunEntry(sc, p2, mode, k);
  }

  /** The pass finds no error exactly when no declared field's step is a rejection. */
  lemma NoErrorsIffNoRejection(sc: Schema, payload: map<string, Value>, mode: Mode)
    requires sc.WellFormed()
    ensures Validate(sc, payload, mode).errors == map[] <==>
      forall k :: 0 <= k < |sc.fields| ==> !FieldStep(sc, payload, mode, sc.fields[k].0, sc.fields[k].1).Reject?
  {
    var o := Validate(sc, payload, mode);
    if o.errors != map[] {
      var name :| name in o.errors;
      var k :| 0 <= k < |sc.fields| && sc.fields[k].0 == name;
      RunEntry(sc, payload, mode, k);
    } else {
      forall k | 0 <= k < |sc.fields|
        ensures !FieldStep(sc, payload, mode, sc.fields[k].0, sc.fields[k].1).Reject?
      {
        RunEntry(sc, payload, mode, k);
      }
    }
  }

  class BaseSerializer {
    const mode: Mode
    const initialData: map<string, Value>
    const schema: Schema
    var validatedData: map<string, Value>
    var errors: map<string, string>

    /** Only declared fields appear in the two maps, and none in both. */
    ghost predicate Valid()
      reads this
    {
      && schema.WellFormed()
      && (forall name :: name in validatedData ==> name in schema.FieldNames())
      && (forall name :: name in errors ==> name in schema.FieldNames())
      && validatedData.Keys !! errors.Keys
    }

    /** `BaseSerializer(data, mode=...)` once the mode has passed `ParseMode`; a missing
        payload (`None`) is an empty one. */
    constructor (data: Option<map<string, Value>>, mode: Mode, schema: Schema)
      requires schema.WellFormed()
      ensures Valid()
      ensures this.mode == mode && this.schema == schema
      ensures initialData == (if data.Some? then data.value else map[])
      ensures validatedData == map[] && errors == map[]
    {
      this.mode := mode;
      this.schema := schema;
      initialData := if data.Some? then data.value else map[];
      validatedData := map[];
      errors := map[];
    }

    /** `is_valid()`: rebuilds both maps from scratch, so a second call leaves the same maps
        and gives the same answer as the first. */
    method IsValid() returns (valid: bool)
      requires Valid()
      modifies this
      ensures Valid()
      ensures validatedData == Validate(schema, initialData, mode).validated
      ensures errors == Validate(schema, initialData, mode).errors
      ensures valid <==> errors == map[]
    {
      validatedData := map[];
      errors := map[];
      for i := 0 to |schema.fields|
        invariant Outcome(validatedData, errors) == Run(schema, initialData, mode, i)
      {
        var (name, field) := schema.fields[i];
        ghost var step := FieldStep(schema, initialData, mode, name, field);
        RunNext(schema, initialData, mode, i);
        var inData := name in initialData;
        var hasDefault := !field.default.Null?;
        var isRequired := field.required;
        var isCreate := mode == Create;
        if !inData && isCreate && isRequired {
          assert step == Reject(RequiredMessage);
          errors := errors[name := RequiredMessage];
          continue;
        }
        if !inData && (!hasDefault || !isCreate) {
          assert step == Skip;
          continue;
        }
        var rawValue := if inData then initialData[name] else field.default;
        assert step == Process(schema, name, field, rawValue);
        var coerced := ToInternal(field, rawValue, schema.formats, schema.runtime);
        if coerced.Err? {
          assert step == Reject(coerced.msg);
          errors := errors[name := coerced.msg];
          continue;
        }
        var value := coerced.value;
        if name in schema.hooks {
          var checked := schema.hooks[name](value);
          if checked.Err? {
            assert step == Reject(checked.msg);
            errors := errors[name := checked.msg];
            continue;
          }
          value := checked.value;
        }
        assert step == Store(value);
        validatedData := validatedData[name := value];
      }
      RunDeclared(schema, initialData, mode);
      valid := |errors| == 0;
    }

    /** `cleaned_data()`: the values left by the last `IsValid`, all of declared fields and
        none of them failed. */
    function CleanedData(): (d: map<string, Value>)
      reads this
      requires Valid()
      ensures d == validatedData
      ensures forall name :: name in d ==> name in schema.FieldNames() && name !in errors
    {
      validatedData
    }
  }

  /** Two calls of `IsValid` on the same serializer give the same answer and the same maps. */
  method ValidateTwice(s: BaseSerializer) returns (first: bool, second: bool)
    requires s.Valid()
    modifies s
    ensures first == second
    ensures s.validatedData == Validate(s.schema, s.initialData, s.mode).validated
    ensures s.errors == Validate(s.schema, s.initialData, s.mode).errors
  {
    first := s.IsValid();
    var data, errs := s.validatedData, s.errors;
    second := s.IsValid();
    assert s.validatedData == data && s.errors == errs;
  }
}
