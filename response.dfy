/**
 * The adventure API's request check (adventure/response.py). A `StandardResponse` starts with
 * empty messages; when built from a request it checks the request against its request type: the
 * field names must be exactly the type's, and each value must be of the type of the type's
 * default value for that field.
 */
module Responses {
  import opened Outcomes

  /** The messages the check produces. */
  const EmptyResponse := "Invalid request. Request cannot be empty."
  const InvalidPrefix := "Invalid request. Only "
  const InvalidDataType := "Invalid data type."

  /** The error raised for a request type that is not a dictionary. */
  datatype ResponseError = InvalidRequestTypeWhileCreatingRequest

  /** The type of a request type's default value: `int()`, `bool()` or `str()`. */
  datatype Kind = IntKind | BoolKind | StrKind

  /**
   * A value of a decoded request. `OtherValue` stands for every value that is neither an integer,
   * a boolean nor a string (a float, `None`, a list, a nested object).
   */
  datatype Value = IntValue(i: int) | BoolValue(b: bool) | StrValue(s: string) | OtherValue

  /** A request: a dictionary of fields in their order, or something else that is not `None`. */
  datatype Request = Fields(items: seq<(string, Value)>) | NotADict

  /** `isinstance(value, type(default))`; Python's `bool` is a subclass of `int`. */
  predicate IsInstance(value: Value, kind: Kind) {
    match kind
    case IntKind => value.IntValue? || value.BoolValue?
    case BoolKind => value.BoolValue?
    case StrKind => value.StrValue?
  }

  /** A boolean passes as an integer field, but an integer does not pass as a boolean field. */
  lemma BooleanIsInteger(b: bool, i: int)
    ensures IsInstance(BoolValue(b), IntKind)
    ensures !IsInstance(IntValue(i), BoolKind)
  {
  }

  /** The names of a sequence of fields, in order. */
  function Names<T>(fields: seq<(string, T)>): (n: seq<string>)
    ensures |n| == |fields| && forall i :: 0 <= i < |fields| ==> n[i] == fields[i].0
  {
    if |fields| == 0 then [] else [fields[0].0] + Names(fields[1..])
  }

  /** `getattr(request_type, field)`: the type of the default value the request type gives a field, if any. */
  function KindOf(types: seq<(string, Kind)>, field: string): (k: Option<Kind>)
    ensures k.None? <==> forall i :: 0 <= i < |types| ==> types[i].0 != field
    ensures k.Some? ==> exists i :: 0 <= i < |types| && types[i] == (field, k.value)
  {
    if |types| == 0 then None
    else if types[0].0 == field then Some(types[0].1)
    else
      var k := KindOf(types[1..], field);
      assert k.Some? ==> types[1..][0..] == types[1..];
      k
  }

  /** The error one field's value gets: empty when its type is right. */
  function FieldError(value: Value, kind: Kind): (e: string)
    ensures e == "" <==> IsInstance(value, kind)
    ensures e != "" ==> e == InvalidDataType
  {
    if IsInstance(value, kind) then "" else InvalidDataType
  }

  /** Every field of the request is a field of the request type. */
  ghost predicate Typed(items: seq<(string, Value)>, types: seq<(string, Kind)>) {
    forall i :: 0 <= i < |items| ==> KindOf(types, items[i].0).Some?
  }

  /** `error_fields` after the per-field loop has gone through the first `n` fields, each writing its entry. */
  ghost function ErrorFields(items: seq<(string, Value)>, n: nat, types: seq<(string, Kind)>): map<string, string>
    requires n <= |items| && Typed(items, types)
  {
    if n == 0 then map[]
    else ErrorFields(items, n - 1, types)[items[n - 1].0 := FieldError(items[n - 1].1, KindOf(types, items[n - 1].0).value)]
  }

  /** A field no later field names again keeps the entry its own value gave it. */
  lemma {:induction false} ErrorFieldEntry(items: seq<(string, Value)>, n: nat, types: seq<(string, Kind)>, i: nat)
    requires i < n <= |items| && Typed(items, types)
    requires forall j :: i < j < n ==> items[j].0 != items[i].0
    ensures items[i].0 in ErrorFields(items, n, types)
    ensures ErrorFields(items, n, types)[items[i].0] == FieldError(items[i].1, KindOf(types, items[i].0).value)
    decreases n
  {
    if i < n - 1 {
      ErrorFieldEntry(items, n - 1, types, i);
    }
  }

  /** With each field named once, every field has an entry, empty exactly when its value has the right type. */
  lemma ErrorFieldsEntries(items: seq<(string, Value)>, types: seq<(string, Kind)>)
    requires Typed(items, types)
    requires forall i, j :: 0 <= i < j < |items| ==> items[i].0 != items[j].0
    ensures forall i :: 0 <= i < |items| ==>
              items[i].0 in ErrorFields(items, |items|, types) &&
              (ErrorFields(items, |items|, types)[items[i].0] == "" <==> IsInstance(items[i].1, KindOf(types, items[i].0).value))
  {
    forall i | 0 <= i < |items|
      ensures items[i].0 in ErrorFields(items, |items|, types)
      ensures ErrorFields(items, |items|, types)[items[i].0] == FieldError(items[i].1, KindOf(types, items[i].0).value)
    {
      ErrorFieldEntry(items, |items|, types, i);
    }
  }

  /** `", ".join(fields)`. */
  function Join(fields: seq<string>): (s: string)
    ensures |fields| == 1 ==> s == fields[0]
    ensures |fields| == 0 ==> s == ""
  {
    if |fields| == 0 then ""
    else if |fields| == 1 then fields[0]
    else fields[0] + ", " + Join(fields[1..])
  }

  /** The decimal digit for a number below ten. */
  function Digit(d: nat): (c: char)
    requires d < 10
    ensures '0' <= c <= '9' && c as int - '0' as int == d
  {
    ('0' as int + d) as char
  }

  /** A number written in decimal, as an f-string writes it. */
  function Decimal(n: nat): (s: string)
    ensures |s| > 0 && forall i :: 0 <= i < |s| ==> '0' <= s[i] <= '9'
  {
    if n < 10 then [Digit(n)] else Decimal(n / 10) + [Digit(n % 10)]
  }

  /** The number a string of decimal digits stands for. */
  function ParseDecimal(s: string): nat
    requires forall i :: 0 <= i < |s| ==> '0' <= s[i] <= '9'
  {
    if |s| == 0 then 0 else 10 * ParseDecimal(s[..|s| - 1]) + (s[|s| - 1] as int - '0' as int)
  }

  /** Writing a number in decimal loses nothing: reading it back gives the number. */
  lemma {:induction false} DecimalRoundTrip(n: nat)
    ensures ParseDecimal(Decimal(n)) == n
  {
    if n >= 10 {
      DecimalRoundTrip(n / 10);
      var s := Decimal(n);
      assert s[..|s| - 1] == Decimal(n / 10);
    }
  }

  /** The error for a request whose field names are not the request type's. */
  function MismatchMessage(validFields: seq<string>): (m: string)
    ensures |m| > |InvalidPrefix| && m[..|InvalidPrefix|] == InvalidPrefix
    ensures |validFields| == 1 ==> m == InvalidPrefix + "1 field (" + validFields[0] + ") allowed and it is mandatory."
  {
    if |validFields| == 1 then InvalidPrefix + "1 field (" + Join(validFields) + ") allowed and it is mandatory."
    else InvalidPrefix + Decimal(|validFields|) + " fields (" + Join(validFields) + ") allowed and they are mandatory."
  }

  /** For any other number of fields, the error gives the number in decimal and says "fields". */
  lemma MismatchCount(validFields: seq<string>)
    requires |validFields| != 1
    ensures var m, count := MismatchMessage(validFields), Decimal(|validFields|);
            && |m| >= |InvalidPrefix| + |count| + 8
            && m[|InvalidPrefix|..|InvalidPrefix| + |count|] == count
            && ParseDecimal(count) == |validFields|
            && m[|InvalidPrefix| + |count|..|InvalidPrefix| + |count| + 8] == " fields "
  {
    DecimalRoundTrip(|validFields|);
  }

  /** The field names of a request, as a set. */
  function FieldSet<T>(fields: seq<(string, T)>): (s: set<string>)
    ensures forall i :: 0 <= i < |fields| ==> fields[i].0 in s
    ensures forall f :: f in s ==> exists i :: 0 <= i < |fields| && fields[i].0 == f
  {
    set i | 0 <= i < |fields| :: fields[i].0
  }

  /** Whether a request names exactly the fields of its request type. */
  predicate SameFields(items: seq<(string, Value)>, types: seq<(string, Kind)>) {
    FieldSet(items) == FieldSet(types)
  }

  /** A StandardResponse's messages and per-field errors. */
  class StandardResponse {
    var error: string
    var warning: string
    var success: string
    var errorFields: map<string, string>

    /** The messages a response starts with: all empty. */
    ghost predicate Blank()
      reads this
    {
      error == "" && warning == "" && success == "" && errorFields == map[]
    }

    constructor ()
      ensures Blank()
    {
      error, warning, success := "", "", "";
      errorFields := map[];
    }

    /**
     * The checks of `__init__` once the messages are blank: no request leaves them blank; a request
     * type that is not a dictionary raises; a request that is not a dictionary is reported empty;
     * field names other than the type's are reported before any value is looked at; otherwise each
     * field, in the request's order, gets its entry and overwrites `error` with it.
     */
    method Check(request: Option<Request>, requestType: Option<seq<(string, Kind)>>) returns (r: Outcome<ResponseError>)
      requires Blank()
      modifies this
      ensures r.Fail? <==> request.Some? && requestType.None?
      ensures warning == "" && success == ""
      ensures request.None? || requestType.None? ==> Blank()
      ensures request == Some(NotADict) && requestType.Some? ==> error == EmptyResponse && errorFields == map[]
      ensures request.Some? && request.value.Fields? && requestType.Some? ==>
                var items, types := request.value.items, requestType.value;
                && (!SameFields(items, types) ==> error == MismatchMessage(Names(types)) && errorFields == map[])
                && (SameFields(items, types) ==>
                      && Typed(items, types)
                      && errorFields == ErrorFields(items, |items|, types)
                      && error == if |items| == 0 then "" else errorFields[items[|items| - 1].0])
    {
      if request.None? {
        return Pass;
      }
      if requestType.None? {
        return Fail(InvalidRequestTypeWhileCreatingRequest);
      }
      if request.value.NotADict? {
        error := EmptyResponse;
        return Pass;
      }
      var items, types := request.value.items, requestType.value;
      if !SameFields(items, types) {
        error := MismatchMessage(Names(types));
        return Pass;
      }
      SameFieldsTyped(items, types);
      CheckFields(items, types);
      return Pass;
    }

    /** The per-field loop: each field, in order, gets its entry and overwrites `error` with it. */
    method CheckFields(items: seq<(string, Value)>, types: seq<(string, Kind)>)
      requires Typed(items, types) && Blank()
      modifies this`error, this`errorFields
      ensures errorFields == ErrorFields(items, |items|, types)
      ensures error == if |items| == 0 then "" else errorFields[items[|items| - 1].0]
    {
      for i := 0 to |items|
        invariant errorFields == ErrorFields(items, i, types)
        invariant i == 0 ==> error == ""
        invariant i > 0 ==> error == errorFields[items[i - 1].0]
      {
        var fieldError := FieldError(items[i].1, KindOf(types, items[i].0).value);
        error := fieldError;
        errorFields := errorFields[items[i].0 := fieldError];
      }
    }
  }

  /** A request naming exactly the request type's fields names only fields of the type. */
  lemma SameFieldsTyped(items: seq<(string, Value)>, types: seq<(string, Kind)>)
    requires SameFields(items, types)
    ensures Typed(items, types)
  {
    forall i | 0 <= i < |items| ensures KindOf(types, items[i].0).Some? {
      assert items[i].0 in FieldSet(types);
    }
  }

  /** `StandardResponse(request, request_type)`: a response with blank messages, then checked. */
  method NewStandardResponse(request: Option<Request>, requestType: Option<seq<(string, Kind)>>)
    returns (r: Result<StandardResponse, ResponseError>)
    ensures r.Err? <==> request.Some? && requestType.None?
    ensures r.Ok? ==> fresh(r.value) && r.value.warning == "" && r.value.success == ""
    ensures r.Ok? && request.None? ==> r.value.Blank()
    ensures r.Ok? && request == Some(NotADict) ==> r.value.error == EmptyResponse && r.value.errorFields == map[]
    ensures r.Ok? && request.Some? && request.value.Fields? ==>
      var items, types := request.value.items, requestType.value;
      && (!SameFields(items, types) ==> r.value.error == MismatchMessage(Names(types)) && r.value.errorFields == map[])
      && (SameFields(items, types) ==>
            && Typed(items, types)
            && r.value.errorFields == ErrorFields(items, |items|, types)
            && r.value.error == if |items| == 0 then "" else r.value.errorFields[items[|items| - 1].0])
  {
    var response := new StandardResponse();
    var outcome := response.Check(request, requestType);
    if outcome.Fail? {
      return Err(outcome.error);
    }
    return Ok(response);
  }
}
