/** The execution-spec reader: a single pass over the top-level nodes of a
    markdown test file that collects the test's name, its server
    configurations, optional mock, env and test blocks, extra files, a runner
    annotation and two header flags, rejecting anything out of place. */
module ExecutionSpecs {
  import opened Wrappers
  import opened Strings

  // ---------------------------------------------------------------------
  // Input: the markdown document
  // ---------------------------------------------------------------------

  /** A markdown node, as far as the reader tells them apart. `Other` stands
      for every remaining node kind (lists, block quotes, HTML, tables, ...). */
  datatype Node =
    | Heading(depth: nat, children: seq<Node>)
    | Text(value: string)
    | Paragraph(children: seq<Node>)
    | Code(content: string, lang: Option<string>, meta: Option<string>)
    | Definition(title: Option<string>)
    | ThematicBreak
    | Other(kind: string)

  /** The configuration format named by a code block's language tag. */
  datatype Source = Json | Yml | GraphQL

  datatype Annotation = Skip

  /** The shapes of the mock, env and test payloads. */
  datatype APIRequest = APIRequest(
    httpMethod: string,
    url: string,
    headers: map<string, string>,
    body: string,
    testTraces: bool,
    testMetrics: bool)

  datatype APIResponse = APIResponse(
    status: nat,
    headers: map<string, string>,
    body: string,
    textBody: Option<string>)

  datatype Mock = Mock(request: APIRequest, response: APIResponse, expectedHits: nat)

  /** The collaborators the reader calls but does not define: the language
      tag parser and the JSON/YAML decoders of the three payload kinds. A
      decoder yields `None` for a payload that is `null`. Decoders are only
      ever given `Json` or `Yml`. */
  datatype Decoders = Decoders(
    sourceOf: string -> Result<Source, string>,
    mocks: (Source, string) -> Result<Option<seq<Mock>>, string>,
    env: (Source, string) -> Result<Option<map<string, string>>, string>,
    tests: (Source, string) -> Result<Option<seq<APIRequest>>, string>)

  /** The file being read: its path and the path's file name. */
  datatype SpecPath = SpecPath(path: string, fileName: string)

  // ---------------------------------------------------------------------
  // Output: the execution spec, and the errors
  // ---------------------------------------------------------------------

  datatype ExecutionSpec = ExecutionSpec(
    path: string,
    name: string,
    safeName: string,
    server: seq<(Source, string)>,
    mock: Option<seq<Mock>>,
    env: Option<map<string, string>>,
    test: Option<seq<APIRequest>>,
    files: map<string, string>,
    runner: Option<Annotation>,
    checkIdentity: bool,
    sdlError: bool)

  datatype ParseError =
    | BadTitle
    | DuplicateTitle
    | BadHeaderAnnotation(text: string)
    | BadRunnerAnnotation(text: string)
    | BadRunnerHeading
    | DuplicateRunner
    | BadHeadingLevel(depth: nat)
    | DuplicateFile(name: string)
    | MissingLanguage
    | UnknownSource(message: string)
    | DecodeFailed(message: string)
    | UnsupportedLanguage(component: Component)
    | DuplicateComponent(component: Component)
    | UnknownComponent(name: string)
    | BadCodeMeta
    | UnexpectedNode
    | MissingServer

  // ---------------------------------------------------------------------
  // The reader
  // ---------------------------------------------------------------------

  /** What the reader has collected so far. */
  datatype State = State(
    name: Option<string>,
    server: seq<(Source, string)>,
    mock: Option<seq<Mock>>,
    env: Option<map<string, string>>,
    files: map<string, string>,
    test: Option<seq<APIRequest>>,
    runner: Option<Annotation>,
    checkIdentity: bool,
    sdlError: bool)

  const Initial := State(None, [], None, None, map[], None, None, false, false)

  /** The text of a heading's first child, when that child is a text node. */
  function FirstText(children: seq<Node>): Option<string> {
    if |children| > 0 && children[0].Text? then Some(children[0].value) else None
  }

  /** A header annotation `a:b` sets a flag when `a` mentions the flag's key
      and `b` ends with `true`. */
  function Flag(text: string, key: string): bool {
    match SplitOnce(text, ':')
    case Some((a, b)) => Contains(a, key) && EndsWith(b, "true")
    case None => false
  }

  function HeadingStep(st: State, depth: nat, children: seq<Node>): Result<State, ParseError> {
    if depth == 1 then
      if st.name.Some? then Failure(DuplicateTitle)
      else if FirstText(children).Some? then Success(st.(name := FirstText(children)))
      else Failure(BadTitle)
    else if depth == 2 then
      match FirstText(children)
      case None => Success(st)
      case Some(text) =>
        if ':' in text then
          Success(st.(checkIdentity := Flag(text, "check_identity"),
                      sdlError := Flag(text, "expect_validation_error")))
        else
          Failure(BadHeaderAnnotation(text))
    else if depth == 5 then
      if st.runner.Some? then Failure(DuplicateRunner)
      else
        match FirstText(children)
        case None => Failure(BadRunnerHeading)
        case Some(text) =>
          if text == "skip" then Success(st.(runner := Some(Skip)))
          else Failure(BadRunnerAnnotation(text))
    else if depth == 4 then Success(st)
    else Failure(BadHeadingLevel(depth))
  }

  /** One block of a component that may appear once: a second block while
      the slot holds a value is refused, and so is a language other than JSON
      or YAML; otherwise the slot becomes the decoded payload. */
  function SlotStep<T>(slot: Option<T>, block: (Source, string),
                       decode: (Source, string) -> Result<Option<T>, string>,
                       component: Component): Result<Option<T>, ParseError>
  {
    if slot.Some? then Failure(DuplicateComponent(component))
    else if block.0 != Json && block.0 != Yml then Failure(UnsupportedLanguage(component))
    else
      match decode(block.0, block.1)
      case Success(v) => Success(v)
      case Failure(e) => Failure(DecodeFailed(e))
  }

  /** The component name of a code block: its meta with every `@` removed,
      provided the meta contains an `@`. */
  function CodeName(meta: Option<string>): Option<string> {
    if meta.Some? && '@' in meta.value then Some(RemoveAll(meta.value, '@')) else None
  }

  /** The components a non-file code block may name. */
  datatype Component = Server | MockBlock | EnvBlock | TestBlock

  function ComponentOf(name: string): Option<Component> {
    if name == "server" then Some(Server)
    else if name == "mock" then Some(MockBlock)
    else if name == "env" then Some(EnvBlock)
    else if name == "test" then Some(TestBlock)
    else None
  }

  /** A block of the component `name`, in the format `source`: server blocks
      accumulate; mock, env and test each fill a once-only slot. */
  function ComponentStep(st: State, name: string, source: Source, content: string,
                         dec: Decoders): Result<State, ParseError>
  {
    match ComponentOf(name)
    case None => Failure(UnknownComponent(name))
    case Some(Server) =>
      Success(st.(server := st.server + [(source, content)]))
    case Some(MockBlock) =>
      var m :- SlotStep(st.mock, (source, content), dec.mocks, MockBlock);
      Success(st.(mock := m))
    case Some(EnvBlock) =>
      var e :- SlotStep(st.env, (source, content), dec.env, EnvBlock);
      Success(st.(env := e))
    case Some(TestBlock) =>
      var t :- SlotStep(st.test, (source, content), dec.tests, TestBlock);
      Success(st.(test := t))
  }

  /** A code block whose meta names it `name`: either an extra file
      `file:<n>`, or a block of a component in the format its language tag
      names. */
  function NamedCodeStep(st: State, name: string, content: string, lang: Option<string>,
                         dec: Decoders): Result<State, ParseError>
  {
    match StripPrefix(name, "file:")
    case Some(file) =>
      if file in st.files then Failure(DuplicateFile(file))
      else Success(st.(files := st.files[file := content]))
    case None =>
      if lang.None? then Failure(MissingLanguage)
      else
        match dec.sourceOf(lang.value)
        case Failure(e) => Failure(UnknownSource(e))
        case Success(source) => ComponentStep(st, name, source, content, dec)
  }

  function CodeStep(st: State, content: string, lang: Option<string>, meta: Option<string>,
                    dec: Decoders): Result<State, ParseError>
  {
    match CodeName(meta)
    case None => Failure(BadCodeMeta)
    case Some(name) => NamedCodeStep(st, name, content, lang, dec)
  }

  /** One top-level node. */
  function Step(st: State, node: Node, dec: Decoders): Result<State, ParseError> {
    match node
    case Heading(depth, children) => HeadingStep(st, depth, children)
    case Code(content, lang, meta) => CodeStep(st, content, lang, meta, dec)
    case Definition(_) => Success(st)
    case ThematicBreak => Success(st)
    case _ => Failure(UnexpectedNode)
  }

  predicate IsTitle(node: Node) {
    node.Heading? && node.depth == 1
  }

  /** The index after `nodes[i]`: a paragraph right after a level-1 heading
      is the test's description and is passed over. */
  function Next(nodes: seq<Node>, i: nat): (k: nat)
    requires i < |nodes|
    ensures i < k <= |nodes|
  {
    if IsTitle(nodes[i]) && i + 1 < |nodes| && nodes[i + 1].Paragraph? then i + 2 else i + 1
  }

  /** The node-by-node loop from index `i`. */
  function Run(nodes: seq<Node>, i: nat, st: State, dec: Decoders): Result<State, ParseError>
    requires i <= |nodes|
    decreases |nodes| - i
  {
    if i == |nodes| then Success(st)
    else
      var st' :- Step(st, nodes[i], dec);
      Run(nodes, Next(nodes, i), st', dec)
  }

  /** `ExecutionSpec::from_source` on the top-level nodes of the document. */
  function FromSource(path: SpecPath, nodes: seq<Node>, dec: Decoders): (r: Result<ExecutionSpec, ParseError>)
    ensures r.Success? ==> |r.value.server| > 0 && r.value.safeName == path.fileName
  {
    var st :- Run(nodes, 0, Initial, dec);
    if |st.server| == 0 then Failure(MissingServer)
    else
      Success(ExecutionSpec(
        path.path,
        if st.name.Some? then st.name.value else path.fileName,
        path.fileName,
        st.server, st.mock, st.env, st.test, st.files,
        st.runner, st.checkIdentity, st.sdlError))
  }
}
