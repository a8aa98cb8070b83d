# Tailcall core: schema compilation, execution-spec reading, lint settings

This project models three pieces of the Tailcall GraphQL gateway in Dafny and
proves properties of them.

- **Blueprint to dynamic schema** (`type_ref.dfy`, `values.dfy`, `into_schema.dfy`).
  - `to_type_ref` maps the blueprint's type descriptor onto the schema library's type reference.
  - `to_type` turns each of the six kinds of blueprint definition into a dynamic schema type of the same kind.
  - Each object field gets a resolver. A field without an expression projects its own name out of the parent value. A field with an expression evaluates it, with the first schema directive's arguments as the environment.
  - `create` builds the schema with the blueprint's root operation names and registers one type per definition.
- **Execution-spec reader** (`strings.dfy`, `parse.dfy`, `parse_properties.dfy`, `parse_theorems.dfy`).
  - `ExecutionSpec::from_source` reads the top-level markdown nodes of a test file in one pass.
  - It collects the test name, server configurations, optional mock/env/test blocks, extra files, a runner annotation and two header flags, and refuses anything out of place.
  - The reader is modelled as written: a state machine with its error checks in source order.
  - A separate declarative account describes the accepted documents. It says what each node contributes and what the state must admit, then proves that the reader succeeds exactly on those documents and returns exactly the spec the account describes.
- **Lint settings** (`lint.dfy`).
  - The four text cases and their display names.
  - The lint record with every setting optional, and its default.
  - Its serialised form under the renamed keys, with a round-trip proof against a small JSON model.

Collaborators the code calls but does not define are parameters:

- `IntoSchema.Evaluator`: the expression evaluator.
- `ExecutionSpecs.Decoders`: the language-tag parser (`Source::from_str`) and the JSON/YAML decoders of the mock, env and test payloads.

Each decoder yields `None` for a `null` payload, because the source decodes into `Option<…>`.

## Model

| member | source | states |
|---|---|---|
| TypeRefs.ToTypeRef | src/blueprint/into_schema.rs:13-31 | The reference is well formed (no `NonNull` directly inside a `NonNull`). It is non-null at the top exactly when the descriptor is. It keeps the descriptor's list depth, base name and number of non-null layers. |
| TypeRefs.FromTypeRef | src/blueprint/into_schema.rs:13-31 | The inverse reading of a reference as a descriptor is defined exactly on the well-formed references. |
| TypeRefs.FromToTypeRef | src/blueprint/into_schema.rs:13-31 | Reading back the reference built for any descriptor gives that descriptor. |
| TypeRefs.ToFromTypeRef | src/blueprint/into_schema.rs:13-31 | Every well-formed reference is built from the descriptor read from it, so the mapping is onto the well-formed references. |
| TypeRefs.ToTypeRefInjective | src/blueprint/into_schema.rs:13-31 | Distinct descriptors give distinct references. |
| TypeRefs.NonNullWrapsOuter | src/blueprint/into_schema.rs:16-28 | A layer's non-null flag adds exactly one outer `NonNull` and changes nothing inside it. |
| IntoSchema.ToInputValue | src/blueprint/into_schema.rs:69-72 | An argument keeps its name, and its type reference reads back as its descriptor. |
| IntoSchema.ToInputValues | src/blueprint/into_schema.rs:92-101 | One input value per input field, in order, each declaring that field. |
| IntoSchema.ToObjectField | src/blueprint/into_schema.rs:38-73 | The object field keeps the name, its type reads back as the descriptor, and it has one argument per declared argument in order. Its resolver closes over the field's name, its expression and the schema definition. |
| IntoSchema.ToInterfaceField | src/blueprint/into_schema.rs:83-88 | An interface field keeps its name, and its type reads back as the descriptor. |
| IntoSchema.ToType | src/blueprint/into_schema.rs:33-125 | Each kind of definition compiles to the schema type of the same kind and name, with its members in declared order. The members are fields, arguments, interfaces, enum items or union members; a scalar carries its description. |
| IntoSchema.Create | src/blueprint/into_schema.rs:127-137 | The builder takes the blueprint's query and mutation root names and has no subscription. It registers exactly one type per definition, in order, each compiled from its definition and carrying its name. |
| IntoSchema.Project | src/blueprint/into_schema.rs:50-55 | The projection is present exactly when the parent is an object holding the field's name, and it is that entry. |
| IntoSchema.EvaluationContextFor | src/blueprint/into_schema.rs:57-61 | It keeps the resolver's request, parent and arguments. The environment is the first schema directive's arguments, or the request's own when there is no directive. |
| IntoSchema.Resolve | src/blueprint/into_schema.rs:48-66 | A field without an expression never fails and yields the projection. A field with an expression yields the evaluator's value, or fails with the evaluator's own error. |
| IntoSchema.CompiledProjectionField | src/blueprint/into_schema.rs:42-55 | A compiled field without an expression reads its name out of an object parent and never fails. Its result does not depend on the evaluator. |
| IntoSchema.CompiledResolverField | src/blueprint/into_schema.rs:56-65 | A compiled field with an expression fails exactly when its evaluation fails, with the same error. It evaluates in the first directive's environment. |
| IntoSchema.OnlyFirstDirectiveMatters | src/blueprint/into_schema.rs:58-61 | Two schemas that agree on the first directive's arguments, or both have no directive, resolve every field alike. |
| Lint.Display | src/config/lint.rs:13-22 | Each text case displays as a string that parses back to that case. |
| Lint.DisplayInjective | src/config/lint.rs:13-22 | Distinct text cases display differently, and a string parses only when it is the display of the case it parses to. |
| Lint.KeyName | src/config/lint.rs:30-55 | Each setting's serialised key reads back as that setting. |
| Lint.KeyNamesDistinct | src/config/lint.rs:30-55 | The five serialised keys are pairwise distinct. |
| Lint.Serialize | src/config/lint.rs:25-55 | Serialisation gives an object with exactly the five renamed keys, and deserialising it gives back the same settings. |
| Lint.Default | src/config/lint.rs:25-31 | The default leaves every setting unset, the same as deserialising an empty object. |
| Lint.DeserializeIgnoresUnknownKeys | src/config/lint.rs:25-26 | Adding any number of keys that name no setting does not change what an object deserialises to. |
| Lint.AbsentIsNull | src/config/lint.rs:30-55 | A setting's key left out reads the same as that key set to `null`. |
| Lint.ArrayMatchesObject | src/config/lint.rs:25-55 | The derived deserialiser also takes the settings as an array. An array of five values reads as the object holding them under the five keys in declaration order; any other length is refused. |
| Lint.UnitVariantObject | src/config/lint.rs:5-11 | A text case reads the same written as its variant name and as an object holding that name with a `null` value. |
| Lint.ObjectTextCase | src/config/lint.rs:5-11 | An object is read as a text case exactly when it holds one variant name with a `null` value. |
| Lint.ArrayRoundTrip | src/config/lint.rs:25-55 | The settings written as an array in declaration order read back as the same settings. |
| Strings.Contains | tests/executionspec/parse.rs:87-90 | `contains` holds exactly when the substring occurs at some index. |
| Strings.SplitOnce | tests/executionspec/parse.rs:84-86 | `splitn(2, ':')` gives two parts exactly when the text has a `:`. The first part has no `:`, and the parts around that `:` rebuild the text. |
| Strings.StripPrefix | tests/executionspec/parse.rs:150 | `strip_prefix` succeeds exactly when the text starts with the prefix, and the prefix followed by the rest rebuilds the text. |
| Strings.RemoveAll | tests/executionspec/parse.rs:147-148 | Dropping every `@` leaves no `@` and keeps every other character's count. |
| Strings.RemoveAllSingle | tests/executionspec/parse.rs:148 | A single character is dropped exactly when it is the removed one, and kept otherwise. |
| Strings.RemoveAllAppend | tests/executionspec/parse.rs:148 | Removal works piece by piece over a concatenation. With the single-character case, this pins the result: the kept characters stay in their original order. |
| Strings.RemoveAllAbsent | tests/executionspec/parse.rs:147-148 | Dropping a character the text does not contain changes nothing, so cleaning a name twice is cleaning it once. |
| ExecutionSpecs.FromSource | tests/executionspec/parse.rs:239-263 | A spec that is returned has at least one server block and the file name as its safe name. |
| ExecutionSpecProperties.TitleAccepts | tests/executionspec/parse.rs:59-77 | A level-1 heading is accepted exactly when no title is set and its first child is text. It then names the test. |
| ExecutionSpecProperties.AnnotationAccepts | tests/executionspec/parse.rs:82-100 | A level-2 heading with text is accepted exactly when the text has a `:`, and it then sets both flags from that text. One without text is passed over. |
| ExecutionSpecProperties.RunnerAccepts | tests/executionspec/parse.rs:101-127 | A level-5 heading is accepted exactly when no runner is set and its text is `skip`, and it then sets the runner to skip. |
| ExecutionSpecProperties.HeadingAccepts | tests/executionspec/parse.rs:58-137 | Headings of level 1, 2 and 5 behave as above. Level 4 is passed over, and every other level is refused. |
| ExecutionSpecProperties.FileAccepts | tests/executionspec/parse.rs:150-157 | A `file:` block is accepted exactly when its file is not yet present, and it then adds the file. |
| ExecutionSpecProperties.ComponentStepAccepts | tests/executionspec/parse.rs:169-215 | A server block is always appended. A mock, env or test block is accepted exactly when its slot is empty, its format is JSON or YAML and it decodes; the slot then takes the decoded payload. |
| ExecutionSpecProperties.ComponentAccepts | tests/executionspec/parse.rs:158-216 | A component block is refused without a language, with an unknown language or with an unknown component name. Otherwise it is accepted as the component dispatch accepts it. |
| ExecutionSpecProperties.NamedCodeAccepts | tests/executionspec/parse.rs:147-216 | A named code block is accepted exactly when it passes its own checks and the state admits its contribution, and it then moves to the state that contribution leads to. |
| ExecutionSpecProperties.StepAccepts | tests/executionspec/parse.rs:56-236 | The same holds for every node. Definitions and thematic breaks contribute nothing, and every other node kind is refused. |
| ExecutionSpecTheorems.SlotFoldAppend | tests/executionspec/parse.rs:174-205 | Reading a component's blocks in two parts is reading the first part, then the second from the slot the first left. |
| ExecutionSpecTheorems.FilesAppend | tests/executionspec/parse.rs:150-157 | Files read in two parts are fresh exactly when each part is fresh for the map before it. Inserting them in two parts gives the same map. |
| ExecutionSpecTheorems.FitsAppend | tests/executionspec/parse.rs:46-237 | A state admits two contributions in sequence exactly when it admits their concatenation, and both readings end in the same state. |
| ExecutionSpecTheorems.Unfold | tests/executionspec/parse.rs:78-81 | What the document contributes from a node on is that node's contribution followed by the document's from the next node read. A skipped description paragraph contributes nothing. |
| ExecutionSpecTheorems.AllowedUnfold | tests/executionspec/parse.rs:78-81 | Every node from a position on is acceptable exactly when that node passes its checks and every node from the next read position on is acceptable. |
| ExecutionSpecTheorems.RunAccepts | tests/executionspec/parse.rs:56-237 | The reading loop succeeds exactly on documents the declarative account accepts, and then ends in the state it describes. |
| ExecutionSpecTheorems.RunNeverMissingServer | tests/executionspec/parse.rs:56-237 | The loop never reports a missing server; only the final check does. |
| ExecutionSpecTheorems.FromSourceAccepts | tests/executionspec/parse.rs:38-264 | The reader succeeds exactly on accepted documents. It reports a missing server exactly when all else is acceptable and no block is a server block. |
| ExecutionSpecTheorems.FromSourceResult | tests/executionspec/parse.rs:239-263 | The spec read from an accepted document has: the title as its name (the file name when there is none), the file name as safe name, and every server block in order. Each once-only component holds its decoded payload, the files are inserted in order, the runner is skip exactly when annotated, and both flags come from the last header annotation. |
| ExecutionSpecTheorems.SlotFoldFull | tests/executionspec/parse.rs:175-183 | A mock, env or test slot that holds a value refuses any further block. |
| ExecutionSpecTheorems.SlotFoldFromEmpty | tests/executionspec/parse.rs:174-205 | The blocks of a once-only component read without error exactly when every block is JSON or YAML, decodes, and all but the last decode to `null`. The slot then holds the last block's payload. |
| ExecutionSpecTheorems.InsertFilesContents | tests/executionspec/parse.rs:150-157 | Inserting fresh files gains exactly their names as keys. Each name maps to its content, and the keys already present keep their values. |
| ExecutionSpecTheorems.FromSourceFiles | tests/executionspec/parse.rs:147-157 | An accepted document's files map has exactly the names of its `file:` blocks, each mapped to that block's content. |
| ExecutionSpecTheorems.RunSuffix | tests/executionspec/parse.rs:56-81 | What the loop does from a position depends only on the nodes from that position on. |
| ExecutionSpecTheorems.DescriptionSkipped | tests/executionspec/parse.rs:78-81 | A paragraph right after the title is passed over. The document reads exactly as it would without it, provided no second paragraph follows. |
| ExecutionSpecTheorems.UntitledParagraphRefused | tests/executionspec/parse.rs:235 | A document that opens with a paragraph, with no title before it, is refused as an unexpected node. |
| ExecutionSpecTheorems.AtName | tests/executionspec/parse.rs:147-149 | A meta written `@` followed by a name without `@` names exactly that name. |

## Left out

- The markdown parser (`markdown::to_mdast`) is left out. The model starts from the document's top-level nodes. The panic on a document without children is not modelled.
- `Source::from_str` and the `serde_json`/`serde_yaml` decoders of mock, env and test payloads are parameters (`Decoders`). The shapes of `Mock`, `APIRequest` and `APIResponse` are kept only as far as the spec stores them.
- Error messages are not modelled. Each error is a `ParseError` variant, and the path and debug dumps in the messages are dropped.
- The `tracing::info!` log of a definition's title is left out; the definition is accepted and contributes nothing.
- `path.file_name().unwrap()` is left out. `SpecPath` carries the file name, so the panic on a path without one is not modelled.
- The files map is a `BTreeMap` in the source. It is a Dafny `map`, so iteration order is not modelled.
- `ExecutionSpec::app_context` and the rest of the test harness are outside this model, and so are `src/cli/tc.rs` and `src/http/mod.rs`. The shapes of `ExecutionSpec`, `Mock`, `APIRequest` and `APIResponse` from `tests/executionspec/model.rs` are kept. Its serde defaults and its harness types (`MockHttpClient`, `MockFileSystem`, `Env`) are left out.
- The expression language and its evaluator are the `Evaluator` parameter. `RequestContext` is an opaque handle, so the data loader, caches and the `unwrap` of the request data are not modelled.
- Async execution (`FieldFuture`) is not modelled. A resolver is a pure function of its context.
- The schema library's builder is modelled only as its registered types and root names.
  - Its checks when the schema is finished are left out: unknown type names and duplicate registrations.
  - Its name-keyed storage is left out: a later type with the same name replaces the earlier one.
- Within one definition, names are assumed distinct, as the blueprint that produces the definitions guarantees. This covers an object's or interface's fields, a field's arguments, an input object's fields, enum items, union members and implemented interfaces. The schema library keys all of these by name, so a repeated name would keep one entry there. The model keeps them as sequences with one entry per declaration.
- `Blueprint::query()` and `Blueprint::mutation()` are taken to return the schema definition's query and mutation names. Their code is not part of this model.
- Object values are a Dafny `map`, so the insertion order of an object's fields is not modelled.
- Lint's `schemars::JsonSchema`, `Debug`, `Clone` and `PartialEq` derives are not modelled. Serde is modelled on a minimal JSON value with serde's defaults: absent or `null` is `None`, unknown keys are ignored, and a text case serialises as its variant name. A text case is read from its variant name either as a string or as an object holding that one name with a `null` value (`serde_json`'s map form of a unit variant). The derived deserialiser also accepts an array of the five values in declaration order; as with `serde_json`, an array of any other length is refused. Error texts are placeholders.
- ExecutionSpecs.FromSource: its own contract states only that a returned spec has a server block and the file name as its safe name. The full characterisation is `ExecutionSpecTheorems.FromSourceAccepts` and `ExecutionSpecTheorems.FromSourceResult`.
