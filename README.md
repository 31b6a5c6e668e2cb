# Schema-driven validation engine of odoo_api_serializer, in Dafny

This project models the validation core of `utils/serializers.py`:

- the `Field` descriptor: its ten-type registry (`FIELD_TYPES`), the checks its
  constructor makes, and `to_internal_value`, the per-type coercion of one input value;
- `BaseSerializer`: the mode check of its constructor, `is_valid` (one pass over the
  declared fields in declaration order, in `create` or `write` mode, with coercion, the
  optional `validate_<name>` hook and error accumulation) and `cleaned_data`.

Files:

- `values.dfy` (module `Values`): Python values (`None`, bool, int, float, str, list, tuple,
  dict, `date`, `datetime`), truthiness, `Result`/`Option`, and `Runtime`, which carries the
  two library calls the engine relies on but does not define: `str()` of a non-string value
  and `datetime.strptime`.
- `fields.dfy` (module `Fields`): field types, `NewField` (the constructor, returning the
  field or the `ValueError` message), `Coerce` (the body of the `try` in
  `to_internal_value`) and `ToInternal` (the whole method, with the `None` shortcut and the
  `"Invalid value for <type>: "` re-wrapping).
- `serializers.dfy` (module `Serializers`): `ParseMode`, the specification of one loop pass
  (`FieldStep`, with its helper `Process`), the fold over all fields (`Fold`, `Run`, `Validate`), the lemmas
  about it, and the class `BaseSerializer` whose `IsValid` method runs the loop over its
  `validatedData` and `errors` maps and is proved to leave exactly `Validate(...)` in them.

Modelling choices:

- A serializer class's declared fields are an explicit ordered sequence of (name, field)
  pairs with distinct names, standing for the class attributes that `_collect_fields`
  gathers; its `validate_<name>` methods are a map from field name to a function returning
  a value or an error message.
- The date and datetime formats are a `Formats` parameter of the schema, standing for the
  values `BaseSerializer.__init__` copies onto every field.
- `str()` and `strptime` are fields of `Runtime`: coercion of a string to char/text is the
  string itself; any other accepted value is rendered by `Runtime.toStr`. A `strptime`
  failure is an `Err` carrying the library's message.
- A bool is its own constructor, but wherever Python's `isinstance(v, int)` applies
  (char/text refusal, float acceptance) a bool counts as an int (`IsPyInt`).

Behaviours of the code a reader might not expect, all modelled as written:

- a float field refuses strings such as `"19.99"`: only ints, bools and floats pass;
  integer fields refuse every string too (`Fields.NumericFieldsRefuseStrings`);
- in create mode a missing optional field's default is not stored verbatim: it is coerced
  and passed to the hook like a sent value (`Serializers.MissingDefaultProcessed`);
- a selection failure is re-wrapped, so its message starts with
  `"Invalid value for selection: "` (`Fields.SelectionRejection`);
- `is_valid` does not cache: every call clears both maps and rebuilds them
  (`Serializers.BaseSerializer.IsValid`, `Serializers.ValidateTwice`);
- a bool sent to a char or text field is reported as `"Expected string, got number"`: the
  separate boolean test in the source comes after the number test and is never reached
  (`Fields.BooleanToStringIsNumber`).

## Model

| member | source | states |
|---|---|---|
| `Fields.FieldTypeName` | utils/serializers.py:2-13 | every field type's name is one of the ten names of `FIELD_TYPES` |
| `Fields.ParseFieldType` | utils/serializers.py:27-30 | the registry lookup succeeds exactly for the ten names of `FIELD_TYPES`, and the type found has that name |
| `Fields.ParseFieldTypeName` | utils/serializers.py:2-15 | each type's name is looked up as that very type (the name/type round trip) |
| `Fields.NewField` | utils/serializers.py:24-47 | construction succeeds iff the type is one of the ten names and a selection field gets a non-empty list or tuple of strings while any other type gets a falsy `selection`; an empty type, an unknown type, a selection field without a non-empty list or tuple, a selection list holding a non-string, and a `selection` given to another type each give their exact messages; a built field is well formed, keeps type, `required` and `default`, has `selection = None` unless it is a selection field, whose choices are the given strings in order |
| `Fields.Coerce` | utils/serializers.py:54-113 | per type, which values are accepted and what they become: char/text refuse every int, float and bool with "Expected string, got number" and keep a string as is; integer accepts exactly ints (not bools) and integral floats, giving the equal int; float accepts ints, bools and floats; boolean only bools; list only lists; dict only dicts; selection exactly strings among the choices, with the two literal failure reasons; date accepts date and datetime objects as is and parses strings with the date format; datetime accepts datetime objects as is and tries the datetime format, then the date format (at midnight), then fails naming both formats |
| `Fields.ToInternal` | utils/serializers.py:49-116 | `None` yields the field's default unchanged, for every type; any other value succeeds exactly when its per-type coercion does and then yields that coercion's value, which is of the field's type (`Conforms`); a value already of the field's type is returned unchanged; every failure message is `"Invalid value for " + type + ": " + reason` |
| `Fields.ToInternalIdempotent` | utils/serializers.py:49-113 | coercing a coerced value again returns it unchanged |
| `Fields.BooleanToStringIsNumber` | utils/serializers.py:55-61 | a boolean given to a char or text field fails with "Expected string, got number" |
| `Fields.NumericFieldsRefuseStrings` | utils/serializers.py:62-71 | every string, numeric or not, given to an integer field fails with "Invalid value for integer: Expected integer", and given to a float field with "Invalid value for float: Expected float or integer" |
| `Fields.IntegerFloatRoundTrip` | utils/serializers.py:62-71 | an int of magnitude at most 2^53 accepted by a float field is turned back into the same int by an integer field |
| `Fields.SelectionRejection` | utils/serializers.py:100-116 | a string outside the choices fails with "Invalid value for selection: " followed by "Invalid selection value '<v>'. Must be one of: (<choices joined by ', '>)" |
| `Serializers.ParseMode` | utils/serializers.py:127-133 | the mode is accepted exactly when it is "create" or "write", and the mode found has that name; an empty mode and any other mode give their exact messages |
| `Serializers.BaseSerializer.constructor` | utils/serializers.py:127-139 | the serializer keeps its mode and fields, takes a missing payload as an empty one, and starts with both maps empty |
| `Serializers.FieldStep` | utils/serializers.py:187-207 | missing in create mode and required: the required message; missing in write mode, or missing, optional and without default: skipped; present: its value is processed; missing in create mode, optional, with a default: the default is processed |
| `Serializers.Fold` | utils/serializers.py:184-214 | after filing the steps of the first fields, only their names appear in the two maps, and no name in both |
| `Serializers.FoldEntry` | utils/serializers.py:187-214 | each field's entries after the loop are exactly its own step, whatever the steps of the other fields were |
| `Serializers.RunEntry` | utils/serializers.py:187-214 | each declared field's entries after `is_valid` are exactly what its own step gives, so one field's failure neither stops nor alters another |
| `Serializers.RunDeclared` | utils/serializers.py:184-214 | after `is_valid` only declared field names appear in `validated_data` and `errors`, and none in both |
| `Serializers.MissingRequiredRejected` | utils/serializers.py:192-194 | in create mode a missing required field has the error "This field is required." and no value, even when it declares a default |
| `Serializers.MissingSkipped` | utils/serializers.py:195-196 | a missing field has neither error nor value in write mode (required or not) and in create mode when it is optional without default |
| `Serializers.MissingDefaultProcessed` | utils/serializers.py:195-207 | in create mode a missing optional field with a default ends up as coercion and hook make of the default, the same as if the default had been sent |
| `Serializers.PresentProcessed` | utils/serializers.py:197-214 | a sent field ends with the coercion error, or the coerced value when it has no hook, or the hook's value, or the hook's message verbatim |
| `Serializers.FieldIndependent` | utils/serializers.py:187-214 | a field's outcome depends on the payload only through that field's own entry |
| `Serializers.NoErrorsIffNoRejection` | utils/serializers.py:216 | `errors` ends empty exactly when no declared field's step is a rejection |
| `Serializers.BaseSerializer.IsValid` | utils/serializers.py:182-216 | clears both maps, then leaves exactly the outcome of the loop over all fields in them, keeping them to declared and disjoint names; returns true iff `errors` is empty |
| `Serializers.BaseSerializer.CleanedData` | utils/serializers.py:218-220 | returns `validated_data`, whose names are declared fields without an error |
| `Serializers.ValidateTwice` | utils/serializers.py:182-216 | two calls of `is_valid` give the same answer and leave `validated_data` and `errors` exactly as the loop over all fields defines them |

## Left out

- `_collect_fields` (class `__dict__` introspection) is replaced by the explicit ordered field list; inherited fields and attribute redefinition are not modelled.
- `__init_subclass__`'s `strftime` probes of the two formats are not modelled (a foreign library call); the formats are taken as given.
- The format-copying loop of `BaseSerializer.__init__` is replaced by the schema's `Formats`; the `getattr` fallbacks used when a field is coerced outside any serializer and the class default formats are not modelled.
- `datetime.strptime` and `str()` of non-string values are parameters (`Runtime`), not modelled; no round trip between date formatting and parsing is claimed.
- Floats are exact reals (`Fields.ToFloat`); rounding of large ints to binary64 and the `OverflowError` of `float()` on huge ints are not modelled.
- Fields.IntegerFloatRoundTrip: stated only for ints of magnitude at most 2^53; above that `float()` rounds (2^53 + 1 comes back as 2^53) or overflows, which the exact-real model cannot show.
- `type` and `mode` arguments are strings; the empty string stands for every falsy argument, and the `TypeError` an unhashable `type` would raise is not modelled. `required` is a bool rather than any truthy value.
- Hooks are pure functions: hooks with side effects, hooks raising exceptions other than `ValueError`, and exceptions escaping `is_valid` are not modelled.
- `validated_data` and `errors` are maps: the insertion order of Python dicts (which follows the field order) is not modelled.
- The payload is a mapping; a non-dict `data` argument is not modelled.
- Date and datetime values are unconstrained records; calendar validity is `strptime`'s business.
- utils/controllers.py (HTTP glue and output formatting of dates) and odoo_api_serializer/__manifest__.py (static metadata) are not part of this model.
