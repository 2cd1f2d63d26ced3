/** The OpenAPI helpers of the documentation generator
    (managers/docs/Docs.manager.js): translating field models and response
    models into schema properties, and collecting a route's request body,
    security requirements and query parameters. The generator's file loading
    and the assembly of the whole document are not part of it. */
module Docs {
  import opened Common
  import Pagination

  /** `AUTH_MIDDLEWARES`: the middlewares that imply a security scheme. */
  const AuthMiddlewares: map<string, string> := map["__shortToken" := "bearerAuth", "__token" := "bearerAuth"]

  const SupportedTypes: set<string> := {"array", "object", "boolean", "number", "string"}

  /** The `length` of a field model: absent, a number, or `{min, max}` with
      either bound optional. */
  datatype Length = NoLength | NumericLength(n: int) | LengthBounds(min: Option<int>, max: Option<int>)

  /** An entry of the shared field-model table. `None` and the empty string
      stand for falsy values where the source tests truthiness. */
  datatype ModelDef = ModelDef(
    typ: Option<string>,
    items: Option<ModelDef>,
    length: Length,
    regex: Option<string>,
    oneOf: Option<seq<string>>,
    description: Option<string>,
    path: Option<string>)

  /** The `properties` object of an object schema, in key order. */
  datatype Properties = Properties(entries: seq<(string, Property)>)

  datatype Example = StringExample(text: string) | NumberExample(number: int) | BooleanExample(flag: bool) | EmptyArrayExample

  /** An OpenAPI property; absent keys are `None`. Object properties keep
      their key order. */
  datatype Property = Property(
    typ: string,
    items: Option<Property>,
    properties: Option<Properties>,
    minLength: Option<int>,
    maxLength: Option<int>,
    pattern: Option<string>,
    enumValues: Option<seq<string>>,
    description: Option<string>,
    example: Option<Example>)

  /** `{ type: t }` and nothing else. */
  function TypeOnly(t: string): (p: Property)
    ensures p.typ == t && p.items.None? && p.properties.None? && p.example.None?
  {
    Property(t, None, None, None, None, None, None, None, None)
  }

  function LowerChar(c: char): char {
    if 'A' <= c <= 'Z' then (c as int + 32) as char else c
  }

  /** `toLowerCase()` on ASCII letters. */
  function ToLower(s: string): (t: string)
    ensures |t| == |s| && forall i :: 0 <= i < |s| ==> t[i] == LowerChar(s[i])
  {
    seq(|s|, i requires 0 <= i < |s| => LowerChar(s[i]))
  }

  /** Lower-casing leaves no upper-case letter, keeps every other character,
      and a second pass changes nothing. */
  lemma ToLowerNormalises(s: string)
    ensures forall i :: 0 <= i < |s| ==> !('A' <= ToLower(s)[i] <= 'Z')
    ensures forall i :: 0 <= i < |s| && !('A' <= s[i] <= 'Z') ==> ToLower(s)[i] == s[i]
    ensures ToLower(ToLower(s)) == ToLower(s)
  {
  }

  /** `(modelDef.type || 'string').toLowerCase()`. */
  function DeclaredType(d: ModelDef): string {
    ToLower(if d.typ.Some? && d.typ.value != "" then d.typ.value else "string")
  }

  /** The output type: the four recognised names as they are, anything else
      (`integer`, `date`, ...) as `string`. */
  function OutputType(t: string): (u: string)
    ensures u in SupportedTypes
    ensures u == t || (u == "string" && t !in SupportedTypes)
  {
    if t == "array" || t == "object" || t == "boolean" || t == "number" then t else "string"
  }

  /** `examples[prop.type] ?? 'string'`; `object` has no entry. */
  function ExampleFor(t: string): Example {
    if t == "number" then NumberExample(0)
    else if t == "boolean" then BooleanExample(true)
    else if t == "array" then EmptyArrayExample
    else StringExample("string")
  }

  /** The shape every translated field model has: a supported type, items
      exactly for arrays and themselves of that shape, no nested object
      properties, and an example that fits the type when there is one. */
  predicate IsModelProperty(p: Property) {
    && p.typ in SupportedTypes
    && (p.items.Some? <==> p.typ == "array")
    && (p.items.Some? ==> IsModelProperty(p.items.value))
    && p.properties.None?
    && (p.example.Some? ==> p.example.value == ExampleFor(p.typ))
  }

  /** `_modelToProperty`: a missing model is `{type: 'string'}`; otherwise
      the type is normalised, array items are translated in turn (default
      `{type: 'string'}`), a non-zero numeric length is a maximum, a bounds
      object sets exactly the bounds it has, and the example follows the
      output type. */
  function ModelToProperty(def: Option<ModelDef>): (p: Property)
    decreases def
    ensures IsModelProperty(p)
    ensures def.None? ==> p == TypeOnly("string")
    ensures def.Some? ==>
      && p.typ == OutputType(DeclaredType(def.value))
      && p.example == Some(ExampleFor(p.typ))
      && (p.typ == "array" ==> p.items == Some(if def.value.items.Some? then ModelToProperty(def.value.items) else TypeOnly("string")))
      && p.pattern == def.value.regex
      && p.enumValues == def.value.oneOf
      && (p.description.Some? <==> def.value.description.Some? && def.value.description.value != "")
      && (p.description.Some? ==> p.description == def.value.description)
    ensures def.Some? ==> match def.value.length
      case NoLength => p.minLength.None? && p.maxLength.None?
      case NumericLength(n) => p.minLength.None? && p.maxLength == (if n != 0 then Some(n) else None)
      case LengthBounds(lo, hi) => p.minLength == lo && p.maxLength == hi
  {
    if def.None? then TypeOnly("string")
    else
      var d := def.value;
      var t := OutputType(DeclaredType(d));
      var items := if t == "array" then Some(if d.items.Some? then ModelToProperty(d.items) else TypeOnly("string")) else None;
      var minLength := if d.length.LengthBounds? then d.length.min else None;
      var maxLength :=
        if d.length.LengthBounds? then d.length.max
        else if d.length.NumericLength? && d.length.n != 0 then Some(d.length.n)
        else None;
      Property(t, items, None, minLength, maxLength,
               d.regex,
               d.oneOf,
               if d.description.Some? && d.description.value != "" then d.description else None,
               Some(ExampleFor(t)))
  }

  /** A field of a response model: `{model}` when `model` is truthy, an
      inline `{type, items}` when `type` is, and a nested model otherwise. */
  datatype ResField =
    | ModelRef(model: string)
    | InlineType(typ: string, items: Option<ResField>)
    | Nested(fields: seq<(string, ResField)>)

  function LookupModel(models: map<string, ModelDef>, name: string): Option<ModelDef> {
    if name in models then Some(models[name]) else None
  }

  /** A schema that carries only `type`, `items` and `properties`: no
      length bounds, pattern, enum, description or example. */
  predicate ShapeOnly(p: Property) {
    p.minLength.None? && p.maxLength.None? && p.pattern.None? &&
    p.enumValues.None? && p.description.None? && p.example.None?
  }

  /** `_resFieldToProperty`: a model reference is translated like a field
      model; an inline type keeps its lower-cased name (only `array` is
      special); a nested model becomes an object with one property per key,
      in key order. */
  function ResFieldToProperty(f: ResField, models: map<string, ModelDef>): (p: Property)
    decreases f
    ensures f.ModelRef? ==> p == ModelToProperty(LookupModel(models, f.model))
    ensures f.InlineType? ==> p.typ == ToLower(f.typ) && p.properties.None? && p.example.None?
    ensures f.InlineType? ==> (p.items.Some? <==> p.typ == "array")
    ensures !f.ModelRef? ==> ShapeOnly(p)
    ensures f.InlineType? && ToLower(f.typ) != "array" ==> p == TypeOnly(ToLower(f.typ))
    ensures f.InlineType? && ToLower(f.typ) == "array" ==>
      p.items == Some(if f.items.Some? then ResFieldToProperty(f.items.value, models) else TypeOnly("string"))
    ensures f.Nested? ==>
      && p.typ == "object" && p.items.None? && p.properties.Some?
      && |p.properties.value.entries| == |f.fields|
      && forall i :: 0 <= i < |f.fields| ==>
           p.properties.value.entries[i] == (f.fields[i].0, ResFieldToProperty(f.fields[i].1, models))
  {
    match f
    case ModelRef(m) => ModelToProperty(LookupModel(models, m))
    case InlineType(t, items) =>
      var lt := ToLower(t);
      if lt == "array" then
        TypeOnly("array").(items := Some(if items.Some? then ResFieldToProperty(items.value, models) else TypeOnly("string")))
      else TypeOnly(lt)
    case Nested(fs) =>
      TypeOnly("object").(properties := Some(Properties(seq(|fs|, i requires 0 <= i < |fs| => (fs[i].0, ResFieldToProperty(fs[i].1, models))))))
  }

  /** The shape of every generated schema: `items` exactly for arrays, and
      the same for every item and nested property, all the way down. */
  predicate WellShaped(p: Property)
    decreases p
  {
    && (p.items.Some? <==> p.typ == "array")
    && (p.items.Some? ==> WellShaped(p.items.value))
    && (p.properties.Some? ==>
          forall i :: 0 <= i < |p.properties.value.entries| ==> WellShaped(p.properties.value.entries[i].1))
  }

  lemma {:induction false} ModelPropertyWellShaped(p: Property)
    requires IsModelProperty(p)
    ensures WellShaped(p)
    decreases p
  {
    if p.items.Some? {
      ModelPropertyWellShaped(p.items.value);
    }
  }

  /** Every translated response field is well shaped: no array without its
      items, at any depth of nesting. */
  lemma {:induction false} ResFieldWellShaped(f: ResField, models: map<string, ModelDef>)
    ensures WellShaped(ResFieldToProperty(f, models))
    decreases f
  {
    var p := ResFieldToProperty(f, models);
    match f
    case ModelRef(m) =>
      ModelPropertyWellShaped(p);
    case InlineType(t, items) =>
      if items.Some? {
        ResFieldWellShaped(items.value, models);
      }
    case Nested(fs) =>
      forall i | 0 <= i < |fs|
        ensures WellShaped(p.properties.value.entries[i].1)
      {
        ResFieldWellShaped(fs[i].1, models);
      }
  }

  /** `_buildDataSchema`: `{type: 'object'}` when the module has no response
      model for the function; otherwise the model read as a nested field,
      one property per key. */
  function BuildDataSchema(responses: map<string, map<string, seq<(string, ResField)>>>,
                           models: map<string, ModelDef>, moduleName: string, fnName: string): (p: Property)
    ensures p.typ == "object"
    ensures p.properties.None? <==> !(moduleName in responses && fnName in responses[moduleName])
    ensures p.properties.None? ==> p == TypeOnly("object")
    ensures p.properties.Some? ==> p == ResFieldToProperty(Nested(responses[moduleName][fnName]), models)
  {
    if moduleName in responses && fnName in responses[moduleName]
    then ResFieldToProperty(Nested(responses[moduleName][fnName]), models)
    else TypeOnly("object")
  }

  /** An entry of a `*.schema.js` list: the field model's name and whether
      it is required. */
  datatype FieldSpec = FieldSpec(model: string, required: bool)

  /** `(modelDef && modelDef.path) ? modelDef.path : field.model`. */
  function FieldName(f: FieldSpec, models: map<string, ModelDef>): string {
    var d := LookupModel(models, f.model);
    if d.Some? && d.value.path.Some? && d.value.path.value != "" then d.value.path.value else f.model
  }

  function FieldProperty(f: FieldSpec, models: map<string, ModelDef>): Property {
    ModelToProperty(LookupModel(models, f.model))
  }

  /** The `properties` object after processing `fields` in order: a later
      field with the same name overwrites an earlier one. */
  function PropertiesOf(fields: seq<FieldSpec>, models: map<string, ModelDef>): map<string, Property>
    decreases |fields|
  {
    if fields == [] then map[]
    else
      var last := fields[|fields| - 1];
      PropertiesOf(fields[..|fields| - 1], models)[FieldName(last, models) := FieldProperty(last, models)]
  }

  /** The `required` list after processing `fields` in order. */
  function RequiredOf(fields: seq<FieldSpec>, models: map<string, ModelDef>): seq<string>
    decreases |fields|
  {
    if fields == [] then []
    else
      var last := fields[|fields| - 1];
      RequiredOf(fields[..|fields| - 1], models) + (if last.required then [FieldName(last, models)] else [])
  }

  /** The JSON schema of a request body; `required` is left out when empty. */
  datatype BodySchema = BodySchema(properties: map<string, Property>, required: Option<seq<string>>)

  /** `_buildRequestBody`: `null` when the module has no schema list for the
      function; otherwise the object schema built field by field. */
  method BuildRequestBody(schemas: map<string, map<string, seq<FieldSpec>>>, models: map<string, ModelDef>,
                          moduleName: string, fnName: string) returns (body: Option<BodySchema>)
    ensures body.None? <==> !(moduleName in schemas && fnName in schemas[moduleName])
    ensures body.Some? ==>
      var fields := schemas[moduleName][fnName];
      && body.value.properties == PropertiesOf(fields, models)
      && body.value.required == (if RequiredOf(fields, models) == [] then None else Some(RequiredOf(fields, models)))
  {
    if !(moduleName in schemas && fnName in schemas[moduleName]) {
      return None;
    }
    var fields := schemas[moduleName][fnName];
    var properties: map<string, Property> := map[];
    var required: seq<string> := [];
    var i := 0;
    while i < |fields|
      invariant 0 <= i <= |fields|
      invariant properties == PropertiesOf(fields[..i], models)
      invariant required == RequiredOf(fields[..i], models)
    {
      var field := fields[i];
      var fieldName := FieldName(field, models);
      properties := properties[fieldName := FieldProperty(field, models)];
      if field.required {
        required := required + [fieldName];
      }
      assert fields[..i + 1][..i] == fields[..i];
      i := i + 1;
    }
    assert fields[..|fields|] == fields;
    return Some(BodySchema(properties, if required == [] then None else Some(required)));
  }

  /** The body has a property for exactly the names of the listed fields. */
  lemma {:induction false} PropertiesOfKeys(fields: seq<FieldSpec>, models: map<string, ModelDef>, k: string)
    ensures k in PropertiesOf(fields, models) <==> exists i :: 0 <= i < |fields| && FieldName(fields[i], models) == k
    decreases |fields|
  {
    if fields != [] {
      var prefix := fields[..|fields| - 1];
      PropertiesOfKeys(prefix, models, k);
      if k in PropertiesOf(fields, models) && FieldName(fields[|fields| - 1], models) != k {
        var i :| 0 <= i < |prefix| && FieldName(prefix[i], models) == k;
        assert fields[i] == prefix[i];
      }
      if exists i :: 0 <= i < |fields| && FieldName(fields[i], models) == k {
        var i :| 0 <= i < |fields| && FieldName(fields[i], models) == k;
        if i < |prefix| {
          assert prefix[i] == fields[i];
        }
      }
    }
  }

  /** The `required` list names exactly the required fields. */
  lemma {:induction false} RequiredOfNames(fields: seq<FieldSpec>, models: map<string, ModelDef>, k: string)
    ensures k in RequiredOf(fields, models) <==>
      exists i :: 0 <= i < |fields| && fields[i].required && FieldName(fields[i], models) == k
    decreases |fields|
  {
    if fields != [] {
      var prefix := fields[..|fields| - 1];
      var last := fields[|fields| - 1];
      RequiredOfNames(prefix, models, k);
      if k in RequiredOf(fields, models) && !(last.required && FieldName(last, models) == k) {
        var i :| 0 <= i < |prefix| && prefix[i].required && FieldName(prefix[i], models) == k;
        assert fields[i] == prefix[i];
      }
      if exists i :: 0 <= i < |fields| && fields[i].required && FieldName(fields[i], models) == k {
        var i :| 0 <= i < |fields| && fields[i].required && FieldName(fields[i], models) == k;
        if i < |prefix| {
          assert prefix[i] == fields[i];
        }
      }
    }
  }

  /** Every required name is also a property of the body. */
  lemma RequiredAreProperties(fields: seq<FieldSpec>, models: map<string, ModelDef>, k: string)
    requires k in RequiredOf(fields, models)
    ensures k in PropertiesOf(fields, models)
  {
    RequiredOfNames(fields, models, k);
    PropertiesOfKeys(fields, models, k);
  }

  /** `mwStack || []`. */
  function StackOf(mwStack: Option<seq<string>>): seq<string> {
    if mwStack.Some? then mwStack.value else []
  }

  /** The schemes the middlewares of `stack` imply, in stack order, with
      repetitions; other middlewares contribute nothing. */
  function SchemesOf(stack: seq<string>): seq<string>
    decreases |stack|
  {
    if stack == [] then []
    else
      var mw := stack[|stack| - 1];
      SchemesOf(stack[..|stack| - 1]) + (if mw in AuthMiddlewares then [AuthMiddlewares[mw]] else [])
  }

  /** `xs` with every repetition of an earlier element dropped. */
  function Dedup(xs: seq<string>): seq<string>
    decreases |xs|
  {
    if xs == [] then []
    else
      var d := Dedup(xs[..|xs| - 1]);
      if xs[|xs| - 1] in d then d else d + [xs[|xs| - 1]]
  }

  /** `_getSecurityReqs`: one requirement per scheme, in the order the
      schemes first occur in the stack; `{[scheme]: []}` is represented by
      the scheme's name. */
  method GetSecurityReqs(mwStack: Option<seq<string>>) returns (reqs: seq<string>)
    ensures reqs == Dedup(SchemesOf(StackOf(mwStack)))
  {
    var stack := StackOf(mwStack);
    var seen: set<string> := {};
    reqs := [];
    var i := 0;
    while i < |stack|
      invariant 0 <= i <= |stack|
      invariant reqs == Dedup(SchemesOf(stack[..i]))
      invariant forall s :: s in seen <==> s in reqs
    {
      var mw := stack[i];
      assert stack[..i + 1][..i] == stack[..i];
      var before := SchemesOf(stack[..i]);
      if mw in AuthMiddlewares {
        var after := before + [AuthMiddlewares[mw]];
        assert SchemesOf(stack[..i + 1]) == after;
        assert after[..|after| - 1] == before;
        assert Dedup(after) == if AuthMiddlewares[mw] in Dedup(before) then Dedup(before) else Dedup(before) + [AuthMiddlewares[mw]];
      } else {
        assert SchemesOf(stack[..i + 1]) == before;
      }
      if mw in AuthMiddlewares && AuthMiddlewares[mw] != "" && AuthMiddlewares[mw] !in seen {
        var scheme := AuthMiddlewares[mw];
        seen := seen + {scheme};
        reqs := reqs + [scheme];
      }
      i := i + 1;
    }
    assert stack[..|stack|] == stack;
  }

  /** No scheme is required twice. */
  lemma {:induction false} DedupDistinct(xs: seq<string>)
    ensures forall i, j :: 0 <= i < j < |Dedup(xs)| ==> Dedup(xs)[i] != Dedup(xs)[j]
    decreases |xs|
  {
    if xs != [] {
      DedupDistinct(xs[..|xs| - 1]);
    }
  }

  /** Every scheme of the stack is required, and only those. */
  lemma {:induction false} DedupElements(xs: seq<string>, x: string)
    ensures x in Dedup(xs) <==> x in xs
    decreases |xs|
  {
    if xs != [] {
      var prefix := xs[..|xs| - 1];
      DedupElements(prefix, x);
      assert xs == prefix + [xs[|xs| - 1]];
    }
  }

  /** First-occurrence order: what the first `k` middlewares require is a
      prefix of what the whole stack requires, so later middlewares only
      ever append. */
  lemma {:induction false} DedupPrefixStable(xs: seq<string>, k: nat)
    requires k <= |xs|
    ensures Dedup(xs[..k]) <= Dedup(xs)
    decreases |xs|
  {
    if k < |xs| {
      var prefix := xs[..|xs| - 1];
      assert xs[..k] == prefix[..k];
      DedupPrefixStable(prefix, k);
    } else {
      assert xs[..k] == xs;
    }
  }

  /** A middleware outside the authentication table changes nothing. */
  lemma {:induction false} SchemesOfElements(stack: seq<string>, x: string)
    ensures x in SchemesOf(stack) <==> exists mw :: mw in stack && mw in AuthMiddlewares && AuthMiddlewares[mw] == x
    decreases |stack|
  {
    if stack != [] {
      var prefix := stack[..|stack| - 1];
      SchemesOfElements(prefix, x);
      assert stack == prefix + [stack[|stack| - 1]];
    }
  }

  /** Dropping repetitions from a run of one value leaves that value
      once, or nothing for an empty run. */
  lemma {:induction false} DedupOfConstant(xs: seq<string>, v: string)
    requires forall i :: 0 <= i < |xs| ==> xs[i] == v
    ensures Dedup(xs) == if v in xs then [v] else []
    decreases |xs|
  {
    if xs != [] {
      var prefix := xs[..|xs| - 1];
      DedupOfConstant(prefix, v);
      assert xs == prefix + [v];
    }
  }

  /** With the table as it stands, a route requires `bearerAuth` exactly
      once when its stack holds `__token` or `__shortToken`, and nothing
      otherwise. */
  lemma BearerAuthOnce(stack: seq<string>)
    ensures Dedup(SchemesOf(stack)) == if "__token" in stack || "__shortToken" in stack then ["bearerAuth"] else []
  {
    var schemes := SchemesOf(stack);
    forall i | 0 <= i < |schemes|
      ensures schemes[i] == "bearerAuth"
    {
      SchemesOfElements(stack, schemes[i]);
    }
    SchemesOfElements(stack, "bearerAuth");
    DedupOfConstant(schemes, "bearerAuth");
    if "__token" in stack || "__shortToken" in stack {
      var mw := if "__token" in stack then "__token" else "__shortToken";
      assert mw in stack && mw in AuthMiddlewares && AuthMiddlewares[mw] == "bearerAuth";
    }
  }

  /** A query parameter: one a middleware contributes (`{name, schema}`
      with an integer schema) or one from the function's schema list. */
  datatype QueryParam =
    | MiddlewareParam(name: string, default: int, minimum: int, maximum: Option<int>)
    | FieldParam(name: string, required: bool, schema: Property)

  /** `QUERY_PARAM_MIDDLEWARES.__pagination`. */
  const PaginationParams: seq<QueryParam> :=
    [MiddlewareParam("page", 1, 1, None), MiddlewareParam("limit", 20, 1, Some(100))]

  /** `QUERY_PARAM_MIDDLEWARES[mw]`. */
  function ParamsOfMiddleware(mw: string): seq<QueryParam> {
    if mw == "__pagination" then PaginationParams else []
  }

  function MiddlewareParamsOf(stack: seq<string>): seq<QueryParam>
    decreases |stack|
  {
    if stack == [] then []
    else MiddlewareParamsOf(stack[..|stack| - 1]) + ParamsOfMiddleware(stack[|stack| - 1])
  }

  /** `required: field.required || false`, the name and schema as for a body. */
  function FieldParamsOf(fields: seq<FieldSpec>, models: map<string, ModelDef>): seq<QueryParam>
    decreases |fields|
  {
    if fields == [] then []
    else
      var f := fields[|fields| - 1];
      FieldParamsOf(fields[..|fields| - 1], models) + [FieldParam(FieldName(f, models), f.required, FieldProperty(f, models))]
  }

  /** `_buildQueryParams`: the middlewares' parameters in stack order, then
      one per field of the function's schema list, if there is one. */
  method BuildQueryParams(schemas: map<string, map<string, seq<FieldSpec>>>, models: map<string, ModelDef>,
                          moduleName: string, fnName: string, mwStack: Option<seq<string>>)
    returns (params: seq<QueryParam>)
    ensures params == MiddlewareParamsOf(StackOf(mwStack)) +
      (if moduleName in schemas && fnName in schemas[moduleName] then FieldParamsOf(schemas[moduleName][fnName], models) else [])
  {
    var stack := StackOf(mwStack);
    params := [];
    var i := 0;
    while i < |stack|
      invariant 0 <= i <= |stack|
      invariant params == MiddlewareParamsOf(stack[..i])
    {
      assert stack[..i + 1][..i] == stack[..i];
      var mwParams := ParamsOfMiddleware(stack[i]);
      var j := 0;
      while j < |mwParams|
        invariant 0 <= j <= |mwParams|
        invariant params == MiddlewareParamsOf(stack[..i]) + mwParams[..j]
      {
        assert mwParams[..j + 1] == mwParams[..j] + [mwParams[j]];
        params := params + [mwParams[j]];
        j := j + 1;
      }
      assert mwParams[..|mwParams|] == mwParams;
      i := i + 1;
    }
    assert stack[..|stack|] == stack;
    if moduleName in schemas && fnName in schemas[moduleName] {
      var fields := schemas[moduleName][fnName];
      var k := 0;
      while k < |fields|
        invariant 0 <= k <= |fields|
        invariant params == MiddlewareParamsOf(stack) + FieldParamsOf(fields[..k], models)
      {
        assert fields[..k + 1][..k] == fields[..k];
        var field := fields[k];
        params := params + [FieldParam(FieldName(field, models), field.required, FieldProperty(field, models))];
        k := k + 1;
      }
      assert fields[..|fields|] == fields;
    }
  }

  /** Each listed field gives exactly one parameter, in list order. */
  lemma {:induction false} FieldParamsOfShape(fields: seq<FieldSpec>, models: map<string, ModelDef>)
    ensures |FieldParamsOf(fields, models)| == |fields|
    ensures forall i :: 0 <= i < |fields| ==>
      FieldParamsOf(fields, models)[i] == FieldParam(FieldName(fields[i], models), fields[i].required, FieldProperty(fields[i], models))
    decreases |fields|
  {
    if fields != [] {
      FieldParamsOfShape(fields[..|fields| - 1], models);
    }
  }

  /** Middlewares only contribute middleware parameters. */
  lemma {:induction false} MiddlewareParamsOfShape(stack: seq<string>)
    ensures forall p :: p in MiddlewareParamsOf(stack) ==> p.MiddlewareParam?
    decreases |stack|
  {
    if stack != [] {
      MiddlewareParamsOfShape(stack[..|stack| - 1]);
    }
  }

  /** Middleware parameters come first, then the schema parameters. */
  lemma QueryParamsOrder(stack: seq<string>, fields: seq<FieldSpec>, models: map<string, ModelDef>)
    ensures var m := MiddlewareParamsOf(stack);
      var ps := m + FieldParamsOf(fields, models);
      && (forall i :: 0 <= i < |m| ==> ps[i].MiddlewareParam?)
      && (forall i :: |m| <= i < |ps| ==> ps[i].FieldParam?)
  {
    var m := MiddlewareParamsOf(stack);
    MiddlewareParamsOfShape(stack);
    FieldParamsOfShape(fields, models);
    forall i | 0 <= i < |m|
      ensures m[i].MiddlewareParam?
    {
      assert m[i] in m;
    }
  }

  /** A stack with `__pagination` documents `page` and `limit`, with the
      defaults and the upper limit the pagination normaliser applies. */
  lemma {:induction false} PaginationDocumented(stack: seq<string>)
    requires "__pagination" in stack
    ensures forall p :: p in PaginationParams ==> p in MiddlewareParamsOf(stack)
    ensures PaginationParams[0].default == Pagination.DefaultPage
    ensures PaginationParams[1].default == Pagination.DefaultLimit
    ensures PaginationParams[1].maximum == Some(Pagination.MaxLimit)
    decreases |stack|
  {
    var prefix := stack[..|stack| - 1];
    if stack[|stack| - 1] != "__pagination" {
      assert stack == prefix + [stack[|stack| - 1]];
      PaginationDocumented(prefix);
    }
  }
}
