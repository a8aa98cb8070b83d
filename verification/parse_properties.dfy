/** A declarative account of the execution-spec reader: which documents it
    accepts and what it returns for them, stated per component of the
    document rather than as a state machine. The step lemmas here relate one
    node's step of the reader to that account; the loop is treated in
    `ExecutionSpecTheorems`. */
module ExecutionSpecProperties {
  import opened Wrappers
  import opened Strings
  import opened ExecutionSpecs

  // ---------------------------------------------------------------------
  // What a node, or a stretch of the document, contributes
  // ---------------------------------------------------------------------

  /** What some nodes contribute to the spec, component by component, in
      document order. */
  datatype Contribution = Contribution(
    titles: seq<string>,
    runners: seq<string>,
    annotations: seq<string>,
    files: seq<(string, string)>,
    server: seq<(Source, string)>,
    mock: seq<(Source, string)>,
    env: seq<(Source, string)>,
    test: seq<(Source, string)>)

  const NoContribution := Contribution([], [], [], [], [], [], [], [])

  function Append(a: Contribution, b: Contribution): Contribution {
    Contribution(a.titles + b.titles, a.runners + b.runners, a.annotations + b.annotations,
                 a.files + b.files, a.server + b.server, a.mock + b.mock, a.env + b.env, a.test + b.test)
  }

  /** A heading with a text first child contributes that text: as the
      title at level 1, as a runner annotation at level 5 and as a header
      annotation at level 2. */
  function HeadingContribution(depth: nat, children: seq<Node>): Contribution {
    match FirstText(children)
    case None => NoContribution
    case Some(text) =>
      NoContribution.(
        titles := if depth == 1 then [text] else [],
        runners := if depth == 5 then [text] else [],
        annotations := if depth == 2 then [text] else [])
  }

  /** A code block named `file:<n>` contributes the file `<n>`; one named
      after a component, with a known language, contributes its format and
      content to that component. */
  function CodeContribution(name: string, content: string, lang: Option<string>, dec: Decoders): Contribution {
    match StripPrefix(name, "file:")
    case Some(file) => NoContribution.(files := [(file, content)])
    case None =>
      if lang.None? || dec.sourceOf(lang.value).Failure? || ComponentOf(name).None? then NoContribution
      else
        var block := [(dec.sourceOf(lang.value).value, content)];
        var c := ComponentOf(name).value;
        NoContribution.(
          server := if c == Server then block else [],
          mock := if c == MockBlock then block else [],
          env := if c == EnvBlock then block else [],
          test := if c == TestBlock then block else [])
  }

  function ContributionOf(node: Node, dec: Decoders): Contribution {
    match node
    case Heading(depth, children) => HeadingContribution(depth, children)
    case Code(content, lang, meta) =>
      if CodeName(meta).Some? then CodeContribution(CodeName(meta).value, content, lang, dec)
      else NoContribution
    case _ => NoContribution
  }

  /** What the document from index `i` on contributes. Every node is
      counted, including one the reader passes over (which contributes
      nothing). */
  function ContributionFrom(nodes: seq<Node>, i: nat, dec: Decoders): Contribution
    decreases |nodes| - i
  {
    if i >= |nodes| then NoContribution
    else Append(ContributionOf(nodes[i], dec), ContributionFrom(nodes, i + 1, dec))
  }

  // ---------------------------------------------------------------------
  // Which contributions a state admits, and the state they lead to
  // ---------------------------------------------------------------------

  /** The checks the reader makes of a node on its own. Paragraphs are judged
      by position (see `AllowedAt`). */
  predicate NodeAllowed(node: Node, dec: Decoders) {
    match node
    case Heading(depth, children) =>
      && (depth == 1 || depth == 2 || depth == 4 || depth == 5)
      && (depth == 1 ==> FirstText(children).Some?)
      && (depth == 2 && FirstText(children).Some? ==> ':' in FirstText(children).value)
      && (depth == 5 ==> FirstText(children) == Some("skip"))
    case Code(_, lang, meta) => CodeName(meta).Some? && CodeAllowed(CodeName(meta).value, lang, dec)
    case Definition(_) => true
    case ThematicBreak => true
    case _ => false
  }

  /** A code block named `name` other than a file needs a known language
      and a known component. */
  predicate CodeAllowed(name: string, lang: Option<string>, dec: Decoders) {
    StripPrefix(name, "file:").None? ==>
      lang.Some? && dec.sourceOf(lang.value).Success? && ComponentOf(name).Some?
  }

  /** Node `j` is acceptable to a reading that starts at `i`: a paragraph
      only as the description right after a level-1 heading read in the
      same pass. */
  predicate AllowedAt(nodes: seq<Node>, i: nat, j: nat, dec: Decoders)
    requires i <= j < |nodes|
  {
    if nodes[j].Paragraph? then i < j && IsTitle(nodes[j - 1]) else NodeAllowed(nodes[j], dec)
  }

  /** The blocks of a once-only component, read in order from `slot`. */
  function SlotFold<T>(slot: Option<T>, blocks: seq<(Source, string)>,
                       decode: (Source, string) -> Result<Option<T>, string>,
                       component: Component): Result<Option<T>, ParseError>
    decreases |blocks|
  {
    if |blocks| == 0 then Success(slot)
    else
      var s :- SlotStep(slot, blocks[0], decode, component);
      SlotFold(s, blocks[1..], decode, component)
  }

  /** File names are pairwise distinct and none is already taken. */
  predicate FreshFiles(entries: seq<(string, string)>, taken: set<string>) {
    && (forall k :: 0 <= k < |entries| ==> entries[k].0 !in taken)
    && (forall k, l :: 0 <= k < l < |entries| ==> entries[k].0 != entries[l].0)
  }

  /** The files map after inserting `entries` in order. */
  function InsertFiles(files: map<string, string>, entries: seq<(string, string)>): map<string, string>
    decreases |entries|
  {
    if |entries| == 0 then files else InsertFiles(files[entries[0].0 := entries[0].1], entries[1..])
  }

  function Last<T>(s: seq<T>): T
    requires |s| > 0
  {
    s[|s| - 1]
  }

  /** `st` admits contribution `k`: at most one title and one runner
      annotation (none if already set), no file twice or already present,
      and each once-only component's blocks read without error. */
  predicate Fits(st: State, k: Contribution, dec: Decoders) {
    && |k.titles| <= (if st.name.Some? then 0 else 1)
    && |k.runners| <= (if st.runner.Some? then 0 else 1)
    && FreshFiles(k.files, st.files.Keys)
    && SlotFold(st.mock, k.mock, dec.mocks, MockBlock).Success?
    && SlotFold(st.env, k.env, dec.env, EnvBlock).Success?
    && SlotFold(st.test, k.test, dec.tests, TestBlock).Success?
  }

  /** The state `st` becomes once contribution `k` is read: the title names
      the test, server blocks accumulate, once-only components take their
      decoded payload, files are added, a runner annotation means skip, and
      the last header annotation sets both flags. */
  function Apply(st: State, k: Contribution, dec: Decoders): State
    requires Fits(st, k, dec)
  {
    State(
      if |k.titles| > 0 then Some(k.titles[0]) else st.name,
      st.server + k.server,
      SlotFold(st.mock, k.mock, dec.mocks, MockBlock).value,
      SlotFold(st.env, k.env, dec.env, EnvBlock).value,
      InsertFiles(st.files, k.files),
      SlotFold(st.test, k.test, dec.tests, TestBlock).value,
      if |k.runners| > 0 then Some(Skip) else st.runner,
      if |k.annotations| > 0 then Flag(Last(k.annotations), "check_identity") else st.checkIdentity,
      if |k.annotations| > 0 then Flag(Last(k.annotations), "expect_validation_error") else st.sdlError)
  }

  /** A reading from index `i` in state `st` succeeds: every node is
      acceptable where it stands and `st` admits what the nodes contribute. */
  predicate AcceptsFrom(nodes: seq<Node>, i: nat, st: State, dec: Decoders)
    requires i <= |nodes|
  {
    && (forall j :: i <= j < |nodes| ==> AllowedAt(nodes, i, j, dec))
    && Fits(st, ContributionFrom(nodes, i, dec), dec)
  }

  /** The state an accepted reading from `i` ends in. */
  function Expected(nodes: seq<Node>, i: nat, st: State, dec: Decoders): State
    requires i <= |nodes|
    requires AcceptsFrom(nodes, i, st, dec)
  {
    Apply(st, ContributionFrom(nodes, i, dec), dec)
  }

  /** A whole document is accepted: the reading from the start succeeds and
      there is at least one server block. */
  predicate Accepts(nodes: seq<Node>, dec: Decoders) {
    AcceptsFrom(nodes, 0, Initial, dec) && |ContributionFrom(nodes, 0, dec).server| > 0
  }

  // ---------------------------------------------------------------------
  // Small facts
  // ---------------------------------------------------------------------

  lemma SlotFoldSingle<T>(slot: Option<T>, block: (Source, string),
                          decode: (Source, string) -> Result<Option<T>, string>, component: Component)
    ensures SlotFold(slot, [], decode, component) == Success(slot)
    ensures SlotFold(slot, [block], decode, component) == SlotStep(slot, block, decode, component)
  {
    assert [block][1..] == [];
  }

  lemma FreshFilesSingle(entry: (string, string), taken: set<string>)
    ensures FreshFiles([], taken)
    ensures FreshFiles([entry], taken) <==> entry.0 !in taken
  {
    assert [entry][0] == entry;
  }

  lemma InsertFilesSingle(entry: (string, string), files: map<string, string>)
    ensures InsertFiles(files, []) == files
    ensures InsertFiles(files, [entry]) == files[entry.0 := entry.1]
  {
    assert [entry][1..] == [];
  }

  // ---------------------------------------------------------------------
  // One step of the reader
  // ---------------------------------------------------------------------

  /** The reader accepts a node exactly when the node passes its own checks
      and the state admits what it contributes. */
  predicate StepOk(st: State, node: Node, dec: Decoders) {
    NodeAllowed(node, dec) && Fits(st, ContributionOf(node, dec), dec)
  }

  /** The facts about empty contributions every heading case uses. */
  lemma EmptyParts(st: State, dec: Decoders)
    ensures FreshFiles([], st.files.Keys) && InsertFiles(st.files, []) == st.files
    ensures SlotFold(st.mock, [], dec.mocks, MockBlock) == Success(st.mock)
    ensures SlotFold(st.env, [], dec.env, EnvBlock) == Success(st.env)
    ensures SlotFold(st.test, [], dec.tests, TestBlock) == Success(st.test)
  {
    FreshFilesSingle(("", ""), st.files.Keys);
    InsertFilesSingle(("", ""), st.files);
    SlotFoldSingle(st.mock, (Json, ""), dec.mocks, MockBlock);
    SlotFoldSingle(st.env, (Json, ""), dec.env, EnvBlock);
    SlotFoldSingle(st.test, (Json, ""), dec.tests, TestBlock);
  }

  /** A level-1 heading: refused when a title is already set or it has no text. */
  lemma TitleAccepts(st: State, children: seq<Node>, dec: Decoders)
    ensures HeadingStep(st, 1, children).Success? <==> StepOk(st, Heading(1, children), dec)
    ensures HeadingStep(st, 1, children).Success? ==>
              HeadingStep(st, 1, children).value == Apply(st, HeadingContribution(1, children), dec)
  {
    EmptyParts(st, dec);
  }

  /** A level-2 heading: refused when its text has no `:`. */
  lemma AnnotationAccepts(st: State, children: seq<Node>, dec: Decoders)
    ensures HeadingStep(st, 2, children).Success? <==> StepOk(st, Heading(2, children), dec)
    ensures HeadingStep(st, 2, children).Success? ==>
              HeadingStep(st, 2, children).value == Apply(st, HeadingContribution(2, children), dec)
  {
    EmptyParts(st, dec);
  }

  /** A level-5 heading: refused when a runner is already set or its text is
      not `skip`. */
  lemma RunnerAccepts(st: State, children: seq<Node>, dec: Decoders)
    ensures HeadingStep(st, 5, children).Success? <==> StepOk(st, Heading(5, children), dec)
    ensures HeadingStep(st, 5, children).Success? ==>
              HeadingStep(st, 5, children).value == Apply(st, HeadingContribution(5, children), dec)
  {
    EmptyParts(st, dec);
  }

  /** A heading: level 4 is passed over and levels other than 1, 2, 4 and 5
      are refused. */
  lemma HeadingAccepts(st: State, depth: nat, children: seq<Node>, dec: Decoders)
    ensures HeadingStep(st, depth, children).Success? <==> StepOk(st, Heading(depth, children), dec)
    ensures HeadingStep(st, depth, children).Success? ==>
              HeadingStep(st, depth, children).value == Apply(st, HeadingContribution(depth, children), dec)
  {
    if depth == 1 {
      TitleAccepts(st, children, dec);
    } else if depth == 2 {
      AnnotationAccepts(st, children, dec);
    } else if depth == 5 {
      RunnerAccepts(st, children, dec);
    } else {
      EmptyParts(st, dec);
    }
  }

  /** A file block: refused when the file is already present. */
  lemma FileAccepts(st: State, name: string, content: string, lang: Option<string>, dec: Decoders, file: string)
    requires StripPrefix(name, "file:") == Some(file)
    ensures NamedCodeStep(st, name, content, lang, dec).Success? <==>
              CodeAllowed(name, lang, dec) && Fits(st, CodeContribution(name, content, lang, dec), dec)
    ensures NamedCodeStep(st, name, content, lang, dec).Success? ==>
              NamedCodeStep(st, name, content, lang, dec).value == Apply(st, CodeContribution(name, content, lang, dec), dec)
  {
    FreshFilesSingle((file, content), st.files.Keys);
    InsertFilesSingle((file, content), st.files);
    SlotFoldSingle(st.mock, (Json, ""), dec.mocks, MockBlock);
    SlotFoldSingle(st.env, (Json, ""), dec.env, EnvBlock);
    SlotFoldSingle(st.test, (Json, ""), dec.tests, TestBlock);
  }

  /** The component dispatch succeeds exactly for a known component whose
      once-only slot accepts the block, and then reads the block into it. */
  lemma ComponentStepAccepts(st: State, name: string, source: Source, content: string, dec: Decoders)
    requires ComponentOf(name).Some?
    ensures var c := ComponentOf(name).value;
            var block := [(source, content)];
            var k := NoContribution.(
                       server := if c == Server then block else [],
                       mock := if c == MockBlock then block else [],
                       env := if c == EnvBlock then block else [],
                       test := if c == TestBlock then block else []);
            && (ComponentStep(st, name, source, content, dec).Success? <==> Fits(st, k, dec))
            && (ComponentStep(st, name, source, content, dec).Success? ==>
                  ComponentStep(st, name, source, content, dec).value == Apply(st, k, dec))
  {
    var block := (source, content);
    FreshFilesSingle(("", ""), st.files.Keys);
    InsertFilesSingle(("", ""), st.files);
    SlotFoldSingle(st.mock, block, dec.mocks, MockBlock);
    SlotFoldSingle(st.env, block, dec.env, EnvBlock);
    SlotFoldSingle(st.test, block, dec.tests, TestBlock);
  }

  /** A component block: refused without a known language or component, or
      when its once-only slot is taken or its payload does not decode. */
  lemma ComponentAccepts(st: State, name: string, content: string, lang: Option<string>, dec: Decoders)
    requires StripPrefix(name, "file:").None?
    ensures NamedCodeStep(st, name, content, lang, dec).Success? <==>
              CodeAllowed(name, lang, dec) && Fits(st, CodeContribution(name, content, lang, dec), dec)
    ensures NamedCodeStep(st, name, content, lang, dec).Success? ==>
              NamedCodeStep(st, name, content, lang, dec).value == Apply(st, CodeContribution(name, content, lang, dec), dec)
  {
    if lang.Some? && dec.sourceOf(lang.value).Success? && ComponentOf(name).Some? {
      ComponentStepAccepts(st, name, dec.sourceOf(lang.value).value, content, dec);
    }
  }

  lemma NamedCodeAccepts(st: State, name: string, content: string, lang: Option<string>, dec: Decoders)
    ensures NamedCodeStep(st, name, content, lang, dec).Success? <==>
              CodeAllowed(name, lang, dec) && Fits(st, CodeContribution(name, content, lang, dec), dec)
    ensures NamedCodeStep(st, name, content, lang, dec).Success? ==>
              NamedCodeStep(st, name, content, lang, dec).value == Apply(st, CodeContribution(name, content, lang, dec), dec)
  {
    match StripPrefix(name, "file:")
    case Some(file) => FileAccepts(st, name, content, lang, dec, file);
    case None => ComponentAccepts(st, name, content, lang, dec);
  }

  /** The reader's step on one node succeeds exactly when the node passes
      its checks and the state admits its contribution, and then moves to
      the state that contribution leads to. */
  lemma StepAccepts(st: State, node: Node, dec: Decoders)
    ensures Step(st, node, dec).Success? <==> StepOk(st, node, dec)
    ensures Step(st, node, dec).Success? ==> Step(st, node, dec).value == Apply(st, ContributionOf(node, dec), dec)
  {
    match node
    case Heading(depth, children) => HeadingAccepts(st, depth, children, dec);
    case Code(content, lang, meta) =>
      if CodeName(meta).Some? {
        NamedCodeAccepts(st, CodeName(meta).value, content, lang, dec);
      }
    case _ => EmptyParts(st, dec);
  }
}
