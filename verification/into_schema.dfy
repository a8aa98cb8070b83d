/** The blueprint-to-schema compiler: every blueprint definition becomes one
    schema type of the matching kind, and every object field is wired to a
    resolver that either projects the field out of its parent value or
    evaluates the field's expression. */
module IntoSchema {
  import opened Wrappers
  import opened TypeRefs
  import V = Values

  // ---------------------------------------------------------------------
  // The blueprint (input)
  // ---------------------------------------------------------------------

  /** A resolver expression. Its language and evaluator live in the
      expression module, which this model takes as the `Evaluator` parameter. */
  datatype Expression = Expression(id: nat)

  /** A field argument or an input-object field: a name and a descriptor. */
  datatype InputFieldDefinition = InputFieldDefinition(name: string, ofType: Type)

  /** An object or interface field; `resolver` is `None` for a field that is
      projected out of its parent value. */
  datatype FieldDefinition = FieldDefinition(
    name: string,
    args: seq<InputFieldDefinition>,
    ofType: Type,
    resolver: Option<Expression>)

  datatype EnumValueDefinition = EnumValueDefinition(name: string)

  /** The six kinds of blueprint definition. */
  datatype Definition =
    | ObjectTypeDefinition(name: string, fields: seq<FieldDefinition>, implements: seq<string>)
    | InterfaceTypeDefinition(name: string, fields: seq<FieldDefinition>)
    | InputObjectTypeDefinition(name: string, inputFields: seq<InputFieldDefinition>)
    | ScalarTypeDefinition(name: string, description: Option<string>)
    | EnumTypeDefinition(name: string, enumValues: seq<EnumValueDefinition>)
    | UnionTypeDefinition(name: string, types: seq<string>)

  /** A schema-level directive; its arguments become evaluation environment
      variables of resolver fields. */
  datatype Directive = Directive(name: string, arguments: map<string, V.Value>)

  datatype SchemaDefinition = SchemaDefinition(
    query: string,
    mutation: Option<string>,
    directives: seq<Directive>)

  datatype Blueprint = Blueprint(definitions: seq<Definition>, schema: SchemaDefinition)

  // ---------------------------------------------------------------------
  // The dynamic schema (output)
  // ---------------------------------------------------------------------

  datatype InputValue = InputValue(name: string, ty: TypeRef)

  /** The data a field's resolver closure captures: the field's name, its
      optional expression, and the schema definition shared by all fields. */
  datatype FieldResolver = FieldResolver(
    fieldName: string,
    resolver: Option<Expression>,
    schema: SchemaDefinition)

  datatype ObjectField = ObjectField(
    name: string,
    ty: TypeRef,
    arguments: seq<InputValue>,
    resolve: FieldResolver)

  datatype InterfaceField = InterfaceField(name: string, ty: TypeRef)

  /** The six kinds of dynamic schema type. */
  datatype SchemaType =
    | Object(name: string, objectFields: seq<ObjectField>, implements: seq<string>)
    | Interface(name: string, interfaceFields: seq<InterfaceField>)
    | InputObject(name: string, inputFields: seq<InputValue>)
    | Scalar(name: string, description: Option<string>)
    | Enum(name: string, items: seq<string>)
    | Union(name: string, possibleTypes: seq<string>)

  /** The schema builder: root operation names and the registered types in
      registration order. */
  datatype SchemaBuilder = SchemaBuilder(
    query: string,
    mutation: Option<string>,
    subscription: Option<string>,
    types: seq<SchemaType>)

  // ---------------------------------------------------------------------
  // What a faithful compilation is
  // ---------------------------------------------------------------------

  /** `v` declares the argument or input field `d`: same name, and its type
      reference reads back as `d`'s descriptor. */
  predicate InputValueOf(v: InputValue, d: InputFieldDefinition) {
    v.name == d.name && FromTypeRef(v.ty) == Some(d.ofType)
  }

  predicate InputValuesOf(vs: seq<InputValue>, ds: seq<InputFieldDefinition>) {
    |vs| == |ds| && forall i :: 0 <= i < |ds| ==> InputValueOf(vs[i], ds[i])
  }

  /** `f` is the object field for `d`: same name, matching type, one argument
      per declared argument in order, and a resolver closing over the field's
      own name and expression. */
  predicate ObjectFieldOf(f: ObjectField, d: FieldDefinition, schema: SchemaDefinition) {
    && f.name == d.name
    && FromTypeRef(f.ty) == Some(d.ofType)
    && InputValuesOf(f.arguments, d.args)
    && f.resolve == FieldResolver(d.name, d.resolver, schema)
  }

  predicate InterfaceFieldOf(f: InterfaceField, d: FieldDefinition) {
    f.name == d.name && FromTypeRef(f.ty) == Some(d.ofType)
  }

  /** `t` is the schema type compiled from `def`: same kind, same name, and
      the members of `def` in their declared order. */
  predicate Compiles(def: Definition, schema: SchemaDefinition, t: SchemaType) {
    match def
    case ObjectTypeDefinition(name, fields, implements) =>
      && t.Object? && t.name == name
      && |t.objectFields| == |fields|
      && (forall i :: 0 <= i < |fields| ==> ObjectFieldOf(t.objectFields[i], fields[i], schema))
      && t.implements == implements
    case InterfaceTypeDefinition(name, fields) =>
      && t.Interface? && t.name == name
      && |t.interfaceFields| == |fields|
      && (forall i :: 0 <= i < |fields| ==> InterfaceFieldOf(t.interfaceFields[i], fields[i]))
    case InputObjectTypeDefinition(name, fields) =>
      t.InputObject? && t.name == name && InputValuesOf(t.inputFields, fields)
    case ScalarTypeDefinition(name, description) =>
      t.Scalar? && t.name == name && t.description == description
    case EnumTypeDefinition(name, enumValues) =>
      && t.Enum? && t.name == name
      && |t.items| == |enumValues|
      && (forall i :: 0 <= i < |enumValues| ==> t.items[i] == enumValues[i].name)
    case UnionTypeDefinition(name, types) =>
      t.Union? && t.name == name && t.possibleTypes == types
  }

  // ---------------------------------------------------------------------
  // The compiler
  // ---------------------------------------------------------------------

  function ToInputValue(d: InputFieldDefinition): (v: InputValue)
    ensures InputValueOf(v, d)
  {
    FromToTypeRef(d.ofType);
    InputValue(d.name, ToTypeRef(d.ofType))
  }

  function ToInputValues(ds: seq<InputFieldDefinition>): (vs: seq<InputValue>)
    ensures InputValuesOf(vs, ds)
  {
    seq(|ds|, i requires 0 <= i < |ds| => ToInputValue(ds[i]))
  }

  function ToObjectField(d: FieldDefinition, schema: SchemaDefinition): (f: ObjectField)
    ensures ObjectFieldOf(f, d, schema)
  {
    FromToTypeRef(d.ofType);
    ObjectField(d.name, ToTypeRef(d.ofType), ToInputValues(d.args), FieldResolver(d.name, d.resolver, schema))
  }

  function ToInterfaceField(d: FieldDefinition): (f: InterfaceField)
    ensures InterfaceFieldOf(f, d)
  {
    FromToTypeRef(d.ofType);
    InterfaceField(d.name, ToTypeRef(d.ofType))
  }

  /** `to_type`: one exhaustive match over the definition kinds. */
  function ToType(def: Definition, schema: SchemaDefinition): (t: SchemaType)
    ensures Compiles(def, schema, t)
  {
    match def
    case ObjectTypeDefinition(name, fields, implements) =>
      Object(name, seq(|fields|, i requires 0 <= i < |fields| => ToObjectField(fields[i], schema)), implements)
    case InterfaceTypeDefinition(name, fields) =>
      Interface(name, seq(|fields|, i requires 0 <= i < |fields| => ToInterfaceField(fields[i])))
    case InputObjectTypeDefinition(name, fields) =>
      InputObject(name, ToInputValues(fields))
    case ScalarTypeDefinition(name, description) =>
      Scalar(name, description)
    case EnumTypeDefinition(name, enumValues) =>
      Enum(name, seq(|enumValues|, i requires 0 <= i < |enumValues| => enumValues[i].name))
    case UnionTypeDefinition(name, types) =>
      Union(name, types)
  }

  /** `create`: the schema builder for a blueprint, with one registered type
      per definition, in definition order. */
  function Create(blueprint: Blueprint): (b: SchemaBuilder)
    ensures b.query == blueprint.schema.query
    ensures b.mutation == blueprint.schema.mutation
    ensures b.subscription.None?
    ensures |b.types| == |blueprint.definitions|
    ensures forall i :: 0 <= i < |blueprint.definitions| ==>
              Compiles(blueprint.definitions[i], blueprint.schema, b.types[i])
    ensures forall i :: 0 <= i < |blueprint.definitions| ==>
              b.types[i].name == blueprint.definitions[i].name
  {
    var defs := blueprint.definitions;
    SchemaBuilder(
      blueprint.schema.query,
      blueprint.schema.mutation,
      None,
      seq(|defs|, i requires 0 <= i < |defs| => ToType(defs[i], blueprint.schema)))
  }

  // ---------------------------------------------------------------------
  // The field resolver
  // ---------------------------------------------------------------------

  /** The per-request context handle; the data loader and caches it owns are
      not part of this model. */
  datatype RequestContext = RequestContext(id: nat)

  /** What the execution library hands a resolver: the request context, the
      parent value (`None` when the parent is not a GraphQL value) and the
      field's arguments. */
  datatype ResolverContext = ResolverContext(
    request: RequestContext,
    parent: Option<V.Value>,
    args: map<string, V.Value>)

  /** The evaluation environment: the request's own, or the variables taken
      from a schema directive. */
  datatype Env = RequestEnv | DirectiveEnv(vars: map<string, V.Value>)

  datatype EvaluationContext = EvaluationContext(
    request: RequestContext,
    parent: Option<V.Value>,
    args: map<string, V.Value>,
    env: Env)

  /** The expression evaluator: a value or an error message. */
  type Evaluator = (Expression, EvaluationContext) -> Result<V.Value, string>

  /** The projection path: the parent's entry under `fieldName` when the
      parent is an object that has one, absent otherwise. */
  function Project(fieldName: string, parent: Option<V.Value>): (r: Option<V.Value>)
    ensures r.Some? <==> parent.Some? && parent.value.Object? && fieldName in parent.value.fields
    ensures r.Some? ==> r.value == parent.value.fields[fieldName]
  {
    if parent.Some? && parent.value.Object? && fieldName in parent.value.fields then
      Some(parent.value.fields[fieldName])
    else
      None
  }

  /** The evaluation context of a resolver field: the resolver's request,
      parent and arguments, with the environment replaced by the first schema
      directive's arguments when there is a directive. */
  function EvaluationContextFor(schema: SchemaDefinition, ctx: ResolverContext): (c: EvaluationContext)
    ensures c.request == ctx.request && c.parent == ctx.parent && c.args == ctx.args
    ensures |schema.directives| > 0 ==> c.env == DirectiveEnv(schema.directives[0].arguments)
    ensures |schema.directives| == 0 ==> c.env == RequestEnv
  {
    var c := EvaluationContext(ctx.request, ctx.parent, ctx.args, RequestEnv);
    if |schema.directives| > 0 then c.(env := DirectiveEnv(schema.directives[0].arguments)) else c
  }

  /** The resolver closure attached to every object field. A projection field
      never fails; a resolver field yields the evaluator's value, or fails with
      the evaluator's own error. */
  function Resolve(f: FieldResolver, ctx: ResolverContext, eval: Evaluator): (r: Result<Option<V.Value>, string>)
    ensures f.resolver.None? ==> r == Success(Project(f.fieldName, ctx.parent))
    ensures f.resolver.Some? ==>
              var out := eval(f.resolver.value, EvaluationContextFor(f.schema, ctx));
              && (out.Failure? ==> r == Failure(out.error))
              && (out.Success? ==> r == Success(Some(out.value)))
  {
    match f.resolver
    case None => Success(Project(f.fieldName, ctx.parent))
    case Some(expr) =>
      var out :- eval(expr, EvaluationContextFor(f.schema, ctx));
      Success(Some(out))
  }

  // ---------------------------------------------------------------------
  // Properties of the compiled schema
  // ---------------------------------------------------------------------

  /** A compiled field without an expression reads its own name out of an
      object parent, is absent otherwise, never fails, and never consults the
      evaluator. */
  lemma CompiledProjectionField(blueprint: Blueprint, i: nat, j: nat, ctx: ResolverContext, eval: Evaluator, eval': Evaluator)
    requires i < |blueprint.definitions| && blueprint.definitions[i].ObjectTypeDefinition?
    requires j < |blueprint.definitions[i].fields| && blueprint.definitions[i].fields[j].resolver.None?
    ensures Create(blueprint).types[i].Object? && j < |Create(blueprint).types[i].objectFields|
    ensures var name := blueprint.definitions[i].fields[j].name;
            var r := Resolve(Create(blueprint).types[i].objectFields[j].resolve, ctx, eval);
            && r.Success?
            && (r.value.Some? <==> ctx.parent.Some? && ctx.parent.value.Object? && name in ctx.parent.value.fields)
            && (r.value.Some? ==> r.value.value == ctx.parent.value.fields[name])
            && r == Resolve(Create(blueprint).types[i].objectFields[j].resolve, ctx, eval')
  {
    var b := Create(blueprint);
    assert Compiles(blueprint.definitions[i], blueprint.schema, b.types[i]);
    assert ObjectFieldOf(b.types[i].objectFields[j], blueprint.definitions[i].fields[j], blueprint.schema);
  }

  /** A compiled field with an expression evaluates it in the environment of
      the blueprint's first schema directive (the request's own when there is
      none) and passes an evaluation error through unchanged. */
  lemma CompiledResolverField(blueprint: Blueprint, i: nat, j: nat, ctx: ResolverContext, eval: Evaluator)
    requires i < |blueprint.definitions| && blueprint.definitions[i].ObjectTypeDefinition?
    requires j < |blueprint.definitions[i].fields| && blueprint.definitions[i].fields[j].resolver.Some?
    ensures Create(blueprint).types[i].Object? && j < |Create(blueprint).types[i].objectFields|
    ensures var d := blueprint.definitions[i].fields[j];
            var dirs := blueprint.schema.directives;
            var env := if |dirs| > 0 then DirectiveEnv(dirs[0].arguments) else RequestEnv;
            var out := eval(d.resolver.value, EvaluationContext(ctx.request, ctx.parent, ctx.args, env));
            var r := Resolve(Create(blueprint).types[i].objectFields[j].resolve, ctx, eval);
            && (out.Failure? <==> r.Failure?)
            && (out.Failure? ==> r.error == out.error)
            && (out.Success? ==> r == Success(Some(out.value)))
  {
    var b := Create(blueprint);
    assert Compiles(blueprint.definitions[i], blueprint.schema, b.types[i]);
    assert ObjectFieldOf(b.types[i].objectFields[j], blueprint.definitions[i].fields[j], blueprint.schema);
  }

  /** Only the first schema directive matters to a resolver: two schemas that
      agree on it (or both have none) resolve every field alike. */
  lemma OnlyFirstDirectiveMatters(f: FieldResolver, schema': SchemaDefinition, ctx: ResolverContext, eval: Evaluator)
    requires |f.schema.directives| > 0 <==> |schema'.directives| > 0
    requires |f.schema.directives| > 0 ==> f.schema.directives[0].arguments == schema'.directives[0].arguments
    ensures Resolve(f, ctx, eval) == Resolve(f.(schema := schema'), ctx, eval)
  {
  }
}
