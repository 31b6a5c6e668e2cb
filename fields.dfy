/** Field descriptors (`Field` in utils/serializers.py): the type registry, the checks made
    when a field is declared, and the per-type coercion of an input value. */
module Fields {
  import opened Values

  /** The ten field types of `FIELD_TYPES`. */
  datatype FieldType =
    | CharField | TextField | IntegerField | FloatField | BooleanField
    | DateField | DatetimeField | SelectionField | ListField | DictField

  /** `FIELD_TYPES`, in declaration order. */
  const FieldTypes: seq<string> :=
    ["char", "text", "integer", "float", "boolean", "date", "datetime", "selection", "list", "dict"]

  function FieldTypeName(t: FieldType): (name: string)
    ensures name in FieldTypes
  {
    match t
    case CharField => "char"
    case TextField => "text"
    case IntegerField => "integer"
    case FloatField => "float"
    case BooleanField => "boolean"
    case DateField => "date"
    case DatetimeField => "datetime"
    case SelectionField => "selection"
    case ListField => "list"
    case DictField => "dict"
  }

  /** Looks a type name up in `FIELD_TYPES_SET`. */
  function ParseFieldType(name: string): (r: Option<FieldType>)
    ensures r.Some? <==> name in FieldTypes
    ensures r.Some? ==> FieldTypeName(r.value) == name
  {
    match name
    case "char" => Some(CharField)
    case "text" => Some(TextField)
    case "integer" => Some(IntegerField)
    case "float" => Some(FloatField)
    case "boolean" => Some(BooleanField)
    case "date" => Some(DateField)
    case "datetime" => Some(DatetimeField)
    case "selection" => Some(SelectionField)
    case "list" => Some(ListField)
    case "dict" => Some(DictField)
    case _ => None
  }

  /** Every type's name is found again by the registry lookup. */
  lemma ParseFieldTypeName(t: FieldType)
    ensures ParseFieldType(FieldTypeName(t)) == Some(t)
  {
    match t
    case CharField =>
    case TextField =>
    case IntegerField =>
    case FloatField =>
    case BooleanField =>
    case DateField =>
    case DatetimeField =>
    case SelectionField =>
    case ListField =>
    case DictField =>
  }

  /** The date and datetime `strptime` patterns a serializer hands to its fields. */
  datatype Formats = Formats(date: string, datetime: string)


  /** A declared field. `selection` is Python's `None` (here `None`) unless the type is
      selection, in which case it holds the allowed strings in declaration order. */
  datatype Field = Field(kind: FieldType, required: bool, default: Value, selection: Option<seq<string>>)
  {
    /** What the constructor guarantees of every field it builds. */
    predicate Valid() {
      if kind == SelectionField then selection.Some? && |selection.value| > 0
      else selection.None?
    }
  }

  const TypeRequiredMessage := "`type` is required when defining a Field."
  const SelectionRequiredMessage := "`selection` must be provided as a list or tuple when type='selection'."
  const SelectionNotStringsMessage := "All selection values must be strings."

  function InvalidTypeMessage(name: string): string {
    "Invalid field type '" + name + "'. Must be one of: " + Join(FieldTypes, ", ")
  }

  function SelectionNotAllowedMessage(name: string): string {
    "`selection` parameter is not valid for type `" + name + "`."
  }

  /** A `selection` argument accepted for a selection field: a non-empty list or tuple of strings. */
  predicate IsChoiceList(selection: Value) {
    && (selection.List? || selection.Tuple?)
    && |selection.items| > 0
    && forall i :: 0 <= i < |selection.items| ==> selection.items[i].Str?
  }

  /** `Field(type=..., required=..., default=..., selection=...)`: the field, or the
      message of the `ValueError` the constructor raises. The type argument is taken
      to be a string; the empty string stands for every falsy argument. */
  function NewField(typeName: string, required: bool, default: Value, selection: Value): (r: Result<Field>)
    ensures r.Ok? <==>
      && typeName in FieldTypes
      && (typeName == "selection" ==> IsChoiceList(selection))
      && (typeName != "selection" ==> !Truthy(selection))
    ensures typeName == "" ==> r == Err(TypeRequiredMessage)
    ensures typeName != "" && typeName !in FieldTypes ==> r == Err(InvalidTypeMessage(typeName))
    ensures typeName == "selection" && !(Truthy(selection) && (selection.List? || selection.Tuple?)) ==>
      r == Err(SelectionRequiredMessage)
    ensures (typeName == "selection" && Truthy(selection) && (selection.List? || selection.Tuple?)
             && !IsChoiceList(selection)) ==>
      r == Err(SelectionNotStringsMessage)
    ensures typeName in FieldTypes && typeName != "selection" && Truthy(selection) ==>
      r == Err(SelectionNotAllowedMessage(typeName))
    ensures r.Ok? ==> r.value.Valid()
    ensures r.Ok? ==> FieldTypeName(r.value.kind) == typeName
    ensures r.Ok? ==> r.value.required == required && r.value.default == default
    ensures r.Ok? && typeName != "selection" ==> r.value.selection == None
    ensures r.Ok? && typeName == "selection" ==>
      && |r.value.selection.value| == |selection.items|
      && forall i :: 0 <= i < |selection.items| ==> selection.items[i] == Str(r.value.selection.value[i])
  {
    if typeName == "" then Err(TypeRequiredMessage)
    else match ParseFieldType(typeName)
      case None => Err(InvalidTypeMessage(typeName))
      case Some(kind) =>
        if kind == SelectionField then
          if !Truthy(selection) || !(selection.List? || selection.Tuple?) then
            Err(SelectionRequiredMessage)
          else if exists i :: 0 <= i < |selection.items| && !selection.items[i].Str? then
            Err(SelectionNotStringsMessage)
          else
            var choices := seq(|selection.items|, i requires 0 <= i < |selection.items| => selection.items[i].s);
            Ok(Field(kind, required, default, Some(choices)))
        else if Truthy(selection) then
          Err(SelectionNotAllowedMessage(typeName))
        else
          Ok(Field(kind, required, default, None))
  }

  /** The Python value `float(v)` for an int, bool or float. */
  function ToFloat(v: Value): PyFloat
    requires IsNumber(v)
  {
    match v
    case Bool(b) => Finite(if b then 1.0 else 0.0)
    case Int(i) => Finite(i as real)
    case Float(f) => f
  }

  function SelectionMismatch(value: string, choices: seq<string>): string {
    "Invalid selection value '" + value + "'. Must be one of: (" + Join(choices, ", ") + ")"
  }

  function DatetimeMismatch(fmts: Formats): string {
    "Invalid datetime format. Expected '" + fmts.datetime + "' or '" + fmts.date + "'"
  }

  /** The values a field of this type holds once coerced: its own Python type, and for a
      selection field one of its choices. */
  predicate Conforms(f: Field, v: Value)
    requires f.Valid()
  {
    match f.kind
    case CharField => v.Str?
    case TextField => v.Str?
    case IntegerField => v.Int?
    case FloatField => v.Float?
    case BooleanField => v.Bool?
    case DateField => IsPyDate(v)
    case DatetimeField => v.DateTimeObj?
    case SelectionField => v.Str? && v.s in f.selection.value
    case ListField => v.List?
    case DictField => v.Dict?
  }

  /** The body of `to_internal_value` inside its `try`: the coerced value, or the reason
      of the `ValueError` raised for the value (before it is re-wrapped). */
  function Coerce(f: Field, v: Value, fmts: Formats, rt: Runtime): (r: Result<Value>)
    requires f.Valid() && !v.Null?
    ensures f.kind in {CharField, TextField} ==>
      && (r.Ok? <==> !IsNumber(v))
      && (r.Err? ==> r.msg == "Expected string, got number")
      && (v.Str? ==> r == Ok(v))
      && (r.Ok? && !v.Str? ==> r == Ok(Str(rt.toStr(v))))
    ensures f.kind == IntegerField ==>
      && (r.Ok? <==> v.Int? || (v.Float? && v.f.IsInteger()))
      && (r.Ok? ==> r.value.Int?)
      && (v.Int? ==> r == Ok(v))
      && (r.Ok? && v.Float? ==> r.value.i as real == v.f.r)
      && (r.Err? ==> r.msg == "Expected integer")
    ensures f.kind == FloatField ==>
      && (r.Ok? <==> IsNumber(v))
      && (r.Ok? ==> r == Ok(Float(ToFloat(v))))
      && (r.Err? ==> r.msg == "Expected float or integer")
    ensures f.kind == BooleanField ==>
      && (r.Ok? <==> v.Bool?)
      && (r.Ok? ==> r.value == v)
      && (r.Err? ==> r.msg == "Expected boolean")
    ensures f.kind == SelectionField ==>
      && (r.Ok? <==> v.Str? && v.s in f.selection.value)
      && (r.Ok? ==> r.value == v)
      && (!v.Str? ==> r == Err("Expected string for selection field."))
      && (v.Str? && v.s !in f.selection.value ==> r == Err(SelectionMismatch(v.s, f.selection.value)))
    ensures f.kind == ListField ==>
      && (r.Ok? <==> v.List?)
      && (r.Ok? ==> r.value == v)
      && (r.Err? ==> r.msg == "Expected list (ex. [1, 2, 3]).")
    ensures f.kind == DictField ==>
      && (r.Ok? <==> v.Dict?)
      && (r.Ok? ==> r.value == v)
      && (r.Err? ==> r.msg == "Expected dict (JSON object).")
    ensures f.kind == DateField ==>
      && (IsPyDate(v) ==> r == Ok(v))
      && (!IsPyDate(v) && !v.Str? ==> r == Err("Expected date string (" + fmts.date + ")"))
      && (v.Str? ==> r == (match rt.strptime(v.s, fmts.date)
                           case Ok(dt) => Ok(DateObj(dt.date))
                           case Err(m) => Err(m)))
    ensures f.kind == DatetimeField ==>
      && (v.DateTimeObj? ==> r == Ok(v))
      && (!v.DateTimeObj? && !v.Str? ==> r == Err("Expected datetime string (" + fmts.datetime + ")"))
      && (v.Str? && rt.strptime(v.s, fmts.datetime).Ok? ==>
            r == Ok(DateTimeObj(rt.strptime(v.s, fmts.datetime).value)))
      && (v.Str? && rt.strptime(v.s, fmts.datetime).Err? && rt.strptime(v.s, fmts.date).Ok? ==>
            r == Ok(DateTimeObj(Midnight(rt.strptime(v.s, fmts.date).value.date))))
      && (v.Str? && rt.strptime(v.s, fmts.datetime).Err? && rt.strptime(v.s, fmts.date).Err? ==>
            r == Err(DatetimeMismatch(fmts)))
  {
    match f.kind
    case CharField => CoerceString(v, rt)
    case TextField => CoerceString(v, rt)
    case IntegerField =>
      if v.Int? then Ok(Int(v.i))
      else if v.Float? && v.f.IsInteger() then Ok(Int(v.f.r.Floor))
      else Err("Expected integer")
    case FloatField =>
      if !IsNumber(v) then Err("Expected float or integer") else Ok(Float(ToFloat(v)))
    case BooleanField =>
      if !v.Bool? then Err("Expected boolean") else Ok(v)
    case DateField =>
      if IsPyDate(v) then Ok(v)
      else if !v.Str? then Err("Expected date string (" + fmts.date + ")")
      else (match rt.strptime(v.s, fmts.date)
            case Ok(dt) => Ok(DateObj(dt.date))
            case Err(m) => Err(m))
    case DatetimeField =>
      if v.DateTimeObj? then Ok(v)
      else if !v.Str? then Err("Expected datetime string (" + fmts.datetime + ")")
      else (match rt.strptime(v.s, fmts.datetime)
            case Ok(dt) => Ok(DateTimeObj(dt))
            case Err(_) =>
              match rt.strptime(v.s, fmts.date)
              case Ok(dt) => Ok(DateTimeObj(Midnight(dt.date)))
              case Err(_) => Err(DatetimeMismatch(fmts)))
    case SelectionField =>
      if !v.Str? then Err("Expected string for selection field.")
      else if v.s !in f.selection.value then Err(SelectionMismatch(v.s, f.selection.value))
      else Ok(v)
    case ListField =>
      if !v.List? then Err("Expected list (ex. [1, 2, 3]).") else Ok(v)
    case DictField =>
      if !v.Dict? then Err("Expected dict (JSON object).") else Ok(v)
  }

  /** The char/text branch: numbers (bools included, since a bool is an int) are refused
      before the separate boolean test is reached; anything else is rendered by `str()`. */
  function CoerceString(v: Value, rt: Runtime): Result<Value> {
    if IsNumber(v) then Err("Expected string, got number")
    else if v.Bool? then Err("Expected string, got boolean")
    else Ok(Str(if v.Str? then v.s else rt.toStr(v)))
  }

  function ErrorPrefix(kind: FieldType): string {
    "Invalid value for " + FieldTypeName(kind) + ": "
  }

  /** `Field.to_internal_value(value)`: `None` yields the default untouched; anything else is
      coerced, and a failure is re-raised with the field type in front of the reason. */
  function ToInternal(f: Field, v: Value, fmts: Formats, rt: Runtime): (r: Result<Value>)
    requires f.Valid()
    ensures v.Null? ==> r == Ok(f.default)
    ensures !v.Null? && r.Ok? ==> Conforms(f, r.value)
    ensures Conforms(f, v) ==> r == Ok(v)
    ensures !v.Null? ==> (r.Ok? <==> Coerce(f, v, fmts, rt).Ok?)
    ensures !v.Null? && r.Ok? ==> r == Coerce(f, v, fmts, rt)
    ensures !v.Null? && r.Err? ==>
      Coerce(f, v, fmts, rt).Err? && r.msg == ErrorPrefix(f.kind) + Coerce(f, v, fmts, rt).msg
  {
    if v.Null? then Ok(f.default)
    else match Coerce(f, v, fmts, rt)
      case Ok(w) => Ok(w)
      case Err(reason) => Err(ErrorPrefix(f.kind) + reason)
  }

  /** Coercion is idempotent: a coerced value goes through coercion again unchanged. */
  lemma ToInternalIdempotent(f: Field, v: Value, fmts: Formats, rt: Runtime)
    requires f.Valid() && !v.Null?
    requires ToInternal(f, v, fmts, rt).Ok?
    ensures ToInternal(f, ToInternal(f, v, fmts, rt).value, fmts, rt) == ToInternal(f, v, fmts, rt)
  {
  }

  /** A boolean given to a char or text field is reported as a number. */
  lemma BooleanToStringIsNumber(f: Field, b: bool, fmts: Formats, rt: Runtime)
    requires f.Valid() && f.kind in {CharField, TextField}
    ensures ToInternal(f, Bool(b), fmts, rt) ==
      Err("Invalid value for " + FieldTypeName(f.kind) + ": Expected string, got number")
  {
  }

  /** Integer and float fields refuse every string, numeric or not. */
  lemma NumericFieldsRefuseStrings(f: Field, text: string, fmts: Formats, rt: Runtime)
    requires f.Valid() && f.kind in {IntegerField, FloatField}
    ensures f.kind == IntegerField ==>
      ToInternal(f, Str(text), fmts, rt) == Err("Invalid value for integer: " + "Expected integer")
    ensures f.kind == FloatField ==>
      ToInternal(f, Str(text), fmts, rt) == Err("Invalid value for float: " + "Expected float or integer")
  {
    if f.kind == IntegerField {
      assert ErrorPrefix(IntegerField) == "Invalid value for " + "integer" + ": ";
    } else {
      assert ErrorPrefix(FloatField) == "Invalid value for " + "float" + ": ";
    }
  }

  /** A string outside a selection field's choices is reported with the value and every
      choice, joined by ", " in declaration order, behind the selection prefix. */
  lemma SelectionRejection(f: Field, v: string, fmts: Formats, rt: Runtime)
    requires f.Valid() && f.kind == SelectionField && v !in f.selection.value
    ensures ErrorPrefix(f.kind) == "Invalid value for selection: "
    ensures ToInternal(f, Str(v), fmts, rt) == Err(ErrorPrefix(f.kind) + SelectionMismatch(v, f.selection.value))
  {
    assert ErrorPrefix(SelectionField) == "Invalid value for " + "selection" + ": ";
  }

  /** An int of magnitude at most 2^53 given to a float field becomes a float that an integer
      field turns back into the very same int (binary64 holds every such int exactly). */
  lemma IntegerFloatRoundTrip(g: Field, h: Field, i: int, fmts: Formats, rt: Runtime)
    requires -0x20_0000_0000_0000 <= i <= 0x20_0000_0000_0000
    requires g.Valid() && g.kind == FloatField
    requires h.Valid() && h.kind == IntegerField
    ensures ToInternal(g, Int(i), fmts, rt).Ok?
    ensures ToInternal(h, ToInternal(g, Int(i), fmts, rt).value, fmts, rt) == Ok(Int(i))
  {
  }
}
