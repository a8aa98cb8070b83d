/** The execution-spec reader agrees with its declarative account: it
    succeeds exactly on the documents `Accepts` describes, and returns the
    spec the document's contribution describes. */
module ExecutionSpecTheorems {
  import opened Wrappers
  import opened Strings
  import opened ExecutionSpecs
  import opened ExecutionSpecProperties

  // ---------------------------------------------------------------------
  // Reading a contribution in two parts
  // ---------------------------------------------------------------------

  /** Reading the blocks `a + b` is reading `a`, then `b` from where `a` left
      the slot. */
  lemma {:induction false} SlotFoldAppend<T>(slot: Option<T>, a: seq<(Source, string)>, b: seq<(Source, string)>,
                                             decode: (Source, string) -> Result<Option<T>, string>,
                                             component: Component)
    ensures SlotFold(slot, a + b, decode, component) ==
              (match SlotFold(slot, a, decode, component)
               case Failure(e) => Failure(e)
               case Success(s) => SlotFold(s, b, decode, component))
    decreases |a|
  {
    if |a| == 0 {
      assert a + b == b;
    } else {
      assert (a + b)[0] == a[0];
      assert (a + b)[1..] == a[1..] + b;
      match SlotStep(slot, a[0], decode, component)
      case Failure(_) =>
      case Success(s) => SlotFoldAppend(s, a[1..], b, decode, component);
    }
  }

  lemma {:induction false} InsertFilesAppend(files: map<string, string>, a: seq<(string, string)>,
                                             b: seq<(string, string)>)
    ensures InsertFiles(files, a + b) == InsertFiles(InsertFiles(files, a), b)
    decreases |a|
  {
    if |a| == 0 {
      assert a + b == b;
    } else {
      assert (a + b)[0] == a[0];
      assert (a + b)[1..] == a[1..] + b;
      InsertFilesAppend(files[a[0].0 := a[0].1], a[1..], b);
    }
  }

  lemma FreshFilesConsIntro(e: (string, string), rest: seq<(string, string)>, taken: set<string>)
    requires e.0 !in taken && FreshFiles(rest, taken + {e.0})
    ensures FreshFiles([e] + rest, taken)
  {
    var all := [e] + rest;
    forall k, l | 0 <= k < l < |all| ensures all[k].0 != all[l].0 {
      assert all[l] == rest[l - 1];
      if k > 0 {
        assert all[k] == rest[k - 1];
      }
    }
    forall k | 0 <= k < |all| ensures all[k].0 !in taken {
      if k > 0 {
        assert all[k] == rest[k - 1];
      }
    }
  }

  lemma FreshFilesConsElim(e: (string, string), rest: seq<(string, string)>, taken: set<string>)
    requires FreshFiles([e] + rest, taken)
    ensures e.0 !in taken && FreshFiles(rest, taken + {e.0})
  {
    var all := [e] + rest;
    assert all[0] == e;
    forall k | 0 <= k < |rest| ensures rest[k].0 !in taken + {e.0} {
      assert all[k + 1] == rest[k];
      assert all[0].0 != all[k + 1].0;
    }
    forall k, l | 0 <= k < l < |rest| ensures rest[k].0 != rest[l].0 {
      assert all[k + 1] == rest[k] && all[l + 1] == rest[l];
    }
  }

  /** Files read in two parts: fresh exactly when each part is fresh for the
      map the part before it left, and inserted as the two parts in turn. */
  lemma {:induction false} FilesAppend(files: map<string, string>, a: seq<(string, string)>,
                                       b: seq<(string, string)>)
    ensures FreshFiles(a + b, files.Keys) <==>
              FreshFiles(a, files.Keys) && FreshFiles(b, InsertFiles(files, a).Keys)
    ensures InsertFiles(files, a + b) == InsertFiles(InsertFiles(files, a), b)
    decreases |a|
  {
    InsertFilesAppend(files, a, b);
    if |a| == 0 {
      assert a + b == b;
      FreshFilesSingle(("", ""), files.Keys);
    } else {
      var e := a[0];
      var rest := a[1..];
      assert a == [e] + rest;
      assert a + b == [e] + (rest + b);
      var files' := files[e.0 := e.1];
      assert files'.Keys == files.Keys + {e.0};
      assert InsertFiles(files, a) == InsertFiles(files', rest);
      FilesAppend(files', rest, b);
      if FreshFiles(a + b, files.Keys) {
        FreshFilesConsElim(e, rest + b, files.Keys);
        FreshFilesConsIntro(e, rest, files.Keys);
      }
      if FreshFiles(a, files.Keys) && FreshFiles(b, InsertFiles(files, a).Keys) {
        FreshFilesConsElim(e, rest, files.Keys);
        FreshFilesConsIntro(e, rest + b, files.Keys);
      }
    }
  }

  lemma LastAppend<T>(a: seq<T>, b: seq<T>)
    requires |a + b| > 0
    ensures Last(a + b) == if |b| > 0 then Last(b) else Last(a)
  {
  }

  /** A state admits `a` followed by `b` exactly when it admits `a` and the
      state `a` leads to admits `b`; it then leads where reading `a` and
      then `b` leads. */
  lemma FitsAppend(st: State, a: Contribution, b: Contribution, dec: Decoders)
    ensures Fits(st, Append(a, b), dec) <==> Fits(st, a, dec) && Fits(Apply(st, a, dec), b, dec)
    ensures Fits(st, Append(a, b), dec) ==> Apply(st, Append(a, b), dec) == Apply(Apply(st, a, dec), b, dec)
  {
    FilesAppend(st.files, a.files, b.files);
    SlotFoldAppend(st.mock, a.mock, b.mock, dec.mocks, MockBlock);
    SlotFoldAppend(st.env, a.env, b.env, dec.env, EnvBlock);
    SlotFoldAppend(st.test, a.test, b.test, dec.tests, TestBlock);
    if |a.annotations + b.annotations| > 0 {
      LastAppend(a.annotations, b.annotations);
    }
  }

  // ---------------------------------------------------------------------
  // One turn of the loop
  // ---------------------------------------------------------------------

  lemma AppendNothing(k: Contribution)
    ensures Append(NoContribution, k) == k
  {
  }

  /** The document from `i` contributes what node `i` does followed by what
      the document from the next visited index does: a description
      paragraph passed over contributes nothing. */
  lemma Unfold(nodes: seq<Node>, i: nat, dec: Decoders)
    requires i < |nodes|
    ensures ContributionFrom(nodes, i, dec) ==
              Append(ContributionOf(nodes[i], dec), ContributionFrom(nodes, Next(nodes, i), dec))
  {
    if Next(nodes, i) == i + 2 {
      var rest := ContributionFrom(nodes, i + 2, dec);
      assert ContributionOf(nodes[i + 1], dec) == NoContribution;
      AppendNothing(rest);
      assert ContributionFrom(nodes, i + 1, dec) == Append(NoContribution, rest);
    }
  }

  /** Every node from `i` on is acceptable exactly when node `i` passes its
      own checks and every node from the next visited index on is. A
      description paragraph that is passed over is acceptable. */
  lemma AllowedUnfold(nodes: seq<Node>, i: nat, dec: Decoders)
    requires i < |nodes|
    ensures (forall j :: i <= j < |nodes| ==> AllowedAt(nodes, i, j, dec)) <==>
              && NodeAllowed(nodes[i], dec)
              && (forall j :: Next(nodes, i) <= j < |nodes| ==> AllowedAt(nodes, Next(nodes, i), j, dec))
  {
    var k := Next(nodes, i);
    assert AllowedAt(nodes, i, i, dec) <==> NodeAllowed(nodes[i], dec);
    forall j | k <= j < |nodes| ensures AllowedAt(nodes, i, j, dec) == AllowedAt(nodes, k, j, dec) {
      if j == k && nodes[j].Paragraph? {
        assert !IsTitle(nodes[j - 1]);
      }
    }
    if k == i + 2 {
      assert AllowedAt(nodes, i, i + 1, dec);
    }
  }

  /** The end of the document: nothing left to check or read. */
  lemma RunEnd(nodes: seq<Node>, st: State, dec: Decoders)
    ensures AcceptsFrom(nodes, |nodes|, st, dec)
    ensures Expected(nodes, |nodes|, st, dec) == st
  {
    EmptyParts(st, dec);
  }

  /** The loop from index `i` succeeds exactly when the document from `i` is
      acceptable to state `st`, and then ends in the state its contribution
      leads to. */
  lemma {:induction false} RunAccepts(nodes: seq<Node>, i: nat, st: State, dec: Decoders)
    requires i <= |nodes|
    ensures Run(nodes, i, st, dec).Success? <==> AcceptsFrom(nodes, i, st, dec)
    ensures Run(nodes, i, st, dec).Success? ==> Run(nodes, i, st, dec).value == Expected(nodes, i, st, dec)
    decreases |nodes| - i
  {
    if i == |nodes| {
      RunEnd(nodes, st, dec);
    } else {
      var k := Next(nodes, i);
      var a := ContributionOf(nodes[i], dec);
      var b := ContributionFrom(nodes, k, dec);
      Unfold(nodes, i, dec);
      AllowedUnfold(nodes, i, dec);
      FitsAppend(st, a, b, dec);
      StepAccepts(st, nodes[i], dec);
      if Step(st, nodes[i], dec).Success? {
        RunAccepts(nodes, k, Step(st, nodes[i], dec).value, dec);
      }
    }
  }

  // ---------------------------------------------------------------------
  // The whole document
  // ---------------------------------------------------------------------

  /** The reader succeeds exactly on accepted documents; it reports a
      missing server exactly when everything else is acceptable but there is
      no server block. */
  lemma FromSourceAccepts(path: SpecPath, nodes: seq<Node>, dec: Decoders)
    ensures FromSource(path, nodes, dec).Success? <==> Accepts(nodes, dec)
    ensures FromSource(path, nodes, dec) == Failure(MissingServer) <==>
              AcceptsFrom(nodes, 0, Initial, dec) && |ContributionFrom(nodes, 0, dec).server| == 0
  {
    var r := Run(nodes, 0, Initial, dec);
    var k := ContributionFrom(nodes, 0, dec);
    RunAccepts(nodes, 0, Initial, dec);
    RunNeverMissingServer(nodes, 0, Initial, dec);
    if r.Success? {
      assert Initial.server + k.server == k.server;
      assert r.value.server == k.server;
    }
  }

  /** The loop itself never reports a missing server; only the final check
      does. */
  lemma {:induction false} RunNeverMissingServer(nodes: seq<Node>, i: nat, st: State, dec: Decoders)
    requires i <= |nodes|
    ensures Run(nodes, i, st, dec) != Failure(MissingServer)
    decreases |nodes| - i
  {
    if i < |nodes| && Step(st, nodes[i], dec).Success? {
      RunNeverMissingServer(nodes, Next(nodes, i), Step(st, nodes[i], dec).value, dec);
    } else if i < |nodes| {
      StepNeverMissingServer(st, nodes[i], dec);
    }
  }

  lemma StepNeverMissingServer(st: State, node: Node, dec: Decoders)
    ensures Step(st, node, dec) != Failure(MissingServer)
  {
    match node
    case Heading(depth, children) =>
    case Code(content, lang, meta) =>
      if CodeName(meta).Some? {
        var name := CodeName(meta).value;
        if StripPrefix(name, "file:").None? && lang.Some? && dec.sourceOf(lang.value).Success? {
          ComponentStepNeverMissingServer(st, name, dec.sourceOf(lang.value).value, content, dec);
        }
      }
    case _ =>
  }

  lemma ComponentStepNeverMissingServer(st: State, name: string, source: Source, content: string, dec: Decoders)
    ensures ComponentStep(st, name, source, content, dec) != Failure(MissingServer)
  {
    var block := (source, content);
    match ComponentOf(name)
    case None =>
    case Some(c) =>
      SlotStepNeverMissingServer(st.mock, block, dec.mocks, MockBlock);
      SlotStepNeverMissingServer(st.env, block, dec.env, EnvBlock);
      SlotStepNeverMissingServer(st.test, block, dec.tests, TestBlock);
  }

  lemma SlotStepNeverMissingServer<T>(slot: Option<T>, block: (Source, string),
                                      decode: (Source, string) -> Result<Option<T>, string>, component: Component)
    ensures SlotStep(slot, block, decode, component) != Failure(MissingServer)
  {
  }

  /** What an accepted document reads as: its title (or the file name) as
      the name, every server block in order, each once-only component's
      decoded payload, the extra files, skip when a runner annotation is
      present, and the flags of the last header annotation. */
  lemma FromSourceResult(path: SpecPath, nodes: seq<Node>, dec: Decoders)
    requires Accepts(nodes, dec)
    ensures FromSource(path, nodes, dec).Success?
    ensures var spec := FromSource(path, nodes, dec).value;
            var k := ContributionFrom(nodes, 0, dec);
            && spec.path == path.path
            && spec.name == (if |k.titles| > 0 then k.titles[0] else path.fileName)
            && spec.safeName == path.fileName
            && spec.server == k.server
            && Success(spec.mock) == SlotFold(None, k.mock, dec.mocks, MockBlock)
            && Success(spec.env) == SlotFold(None, k.env, dec.env, EnvBlock)
            && Success(spec.test) == SlotFold(None, k.test, dec.tests, TestBlock)
            && spec.files == InsertFiles(map[], k.files)
            && spec.runner == (if |k.runners| > 0 then Some(Skip) else None)
            && spec.checkIdentity == (|k.annotations| > 0 && Flag(Last(k.annotations), "check_identity"))
            && spec.sdlError == (|k.annotations| > 0 && Flag(Last(k.annotations), "expect_validation_error"))
  {
    FromSourceAccepts(path, nodes, dec);
    RunAccepts(nodes, 0, Initial, dec);
  }

  // ---------------------------------------------------------------------
  // The once-only components and the files, stated directly
  // ---------------------------------------------------------------------

  /** Blocks a once-only component can take, read from an empty slot: each
      in JSON or YAML and decoding, and every one before the last decoding to
      `null` (a `null` payload leaves the slot empty, so another block may
      follow it). */
  predicate OnceOnly<T>(blocks: seq<(Source, string)>, decode: (Source, string) -> Result<Option<T>, string>) {
    forall k :: 0 <= k < |blocks| ==>
      && (blocks[k].0 == Json || blocks[k].0 == Yml)
      && decode(blocks[k].0, blocks[k].1).Success?
      && (k < |blocks| - 1 ==> decode(blocks[k].0, blocks[k].1).value.None?)
  }

  /** A slot that holds a value refuses every further block. */
  lemma SlotFoldFull<T>(x: T, blocks: seq<(Source, string)>,
                        decode: (Source, string) -> Result<Option<T>, string>, component: Component)
    ensures SlotFold(Some(x), blocks, decode, component).Success? <==> |blocks| == 0
  {
  }

  /** A once-only component reads without error exactly when its blocks are
      `OnceOnly`, and then holds the last block's payload. */
  lemma {:induction false} SlotFoldFromEmpty<T>(blocks: seq<(Source, string)>,
                                                decode: (Source, string) -> Result<Option<T>, string>,
                                                component: Component)
    ensures SlotFold(None, blocks, decode, component).Success? <==> OnceOnly(blocks, decode)
    ensures SlotFold(None, blocks, decode, component).Success? ==>
              SlotFold(None, blocks, decode, component).value ==
                (if |blocks| == 0 then None else decode(Last(blocks).0, Last(blocks).1).value)
    decreases |blocks|
  {
    if |blocks| > 0 {
      var b := blocks[0];
      var rest := blocks[1..];
      assert forall k :: 0 <= k < |rest| ==> rest[k] == blocks[k + 1];
      if (b.0 == Json || b.0 == Yml) && decode(b.0, b.1).Success? {
        match decode(b.0, b.1).value
        case Some(x) =>
          SlotFoldFull(x, rest, decode, component);
        case None =>
          SlotFoldFromEmpty(rest, decode, component);
          if |rest| > 0 {
            assert Last(rest) == Last(blocks);
          }
          if OnceOnly(rest, decode) {
            forall k | 0 <= k < |blocks|
              ensures && (blocks[k].0 == Json || blocks[k].0 == Yml)
                      && decode(blocks[k].0, blocks[k].1).Success?
                      && (k < |blocks| - 1 ==> decode(blocks[k].0, blocks[k].1).value.None?)
            {
              if k > 0 {
                assert blocks[k] == rest[k - 1];
              }
            }
          }
      } else {
        assert !OnceOnly(blocks, decode) by {
          assert blocks[0] == b;
        }
      }
    }
  }

  /** The names of some files. */
  function Names(entries: seq<(string, string)>): set<string> {
    set k | 0 <= k < |entries| :: entries[k].0
  }

  /** Fresh files inserted into a map: its keys gain exactly their names,
      each maps to its content, and the keys already present keep theirs. */
  lemma {:induction false} InsertFilesContents(files: map<string, string>, entries: seq<(string, string)>)
    requires FreshFiles(entries, files.Keys)
    ensures InsertFiles(files, entries).Keys == files.Keys + Names(entries)
    ensures forall key :: key in files ==> InsertFiles(files, entries)[key] == files[key]
    ensures forall k :: 0 <= k < |entries| ==> InsertFiles(files, entries)[entries[k].0] == entries[k].1
    decreases |entries|
  {
    if |entries| > 0 {
      var e := entries[0];
      var rest := entries[1..];
      assert entries == [e] + rest;
      FreshFilesConsElim(e, rest, files.Keys);
      var files' := files[e.0 := e.1];
      assert files'.Keys == files.Keys + {e.0};
      InsertFilesContents(files', rest);
      assert forall k :: 0 <= k < |rest| ==> rest[k] == entries[k + 1];
      assert Names(entries) == {e.0} + Names(rest) by {
        forall n | n in Names(entries) ensures n in {e.0} + Names(rest) {
          var k :| 0 <= k < |entries| && entries[k].0 == n;
          if k > 0 {
            assert entries[k] == rest[k - 1];
          }
        }
        forall n | n in Names(rest) ensures n in Names(entries) {
          var k :| 0 <= k < |rest| && rest[k].0 == n;
          assert entries[k + 1] == rest[k];
        }
      }
      forall k | 0 <= k < |entries| ensures InsertFiles(files, entries)[entries[k].0] == entries[k].1 {
        if k > 0 {
          assert entries[k] == rest[k - 1];
        }
      }
    }
  }

  /** The extra files of an accepted document: one per `file:` block, each
      under its name with its content. */
  lemma FromSourceFiles(path: SpecPath, nodes: seq<Node>, dec: Decoders)
    requires Accepts(nodes, dec)
    ensures var files := ContributionFrom(nodes, 0, dec).files;
            && FromSource(path, nodes, dec).Success?
            && FromSource(path, nodes, dec).value.files.Keys == Names(files)
            && forall k :: 0 <= k < |files| ==> FromSource(path, nodes, dec).value.files[files[k].0] == files[k].1
  {
    FromSourceResult(path, nodes, dec);
    InsertFilesContents(map[], ContributionFrom(nodes, 0, dec).files);
  }

  // ---------------------------------------------------------------------
  // Reading positions, and small documents
  // ---------------------------------------------------------------------

  /** Reading from a position depends only on the nodes from there on. */
  lemma {:induction false} RunSuffix(a: seq<Node>, b: seq<Node>, i: nat, st: State, dec: Decoders)
    requires i <= |b|
    ensures Run(a + b, |a| + i, st, dec) == Run(b, i, st, dec)
    decreases |b| - i
  {
    var nodes := a + b;
    if i < |b| {
      assert nodes[|a| + i] == b[i];
      if i + 1 < |b| {
        assert nodes[|a| + i + 1] == b[i + 1];
      }
      assert Next(nodes, |a| + i) == |a| + Next(b, i);
      if Step(st, b[i], dec).Success? {
        RunSuffix(a, b, Next(b, i), Step(st, b[i], dec).value, dec);
      }
    }
  }

  /** A description paragraph right after the title is passed over: the
      document reads as it would without it, provided no second paragraph
      follows (that one would be read as a description in its place). */
  lemma DescriptionSkipped(path: SpecPath, title: string, about: seq<Node>, rest: seq<Node>, dec: Decoders)
    requires |rest| == 0 || !rest[0].Paragraph?
    ensures FromSource(path, [Heading(1, [Text(title)]), Paragraph(about)] + rest, dec) ==
              FromSource(path, [Heading(1, [Text(title)])] + rest, dec)
  {
    var title1 := [Heading(1, [Text(title)])];
    var described := [Heading(1, [Text(title)]), Paragraph(about)];
    var st := Initial.(name := Some(title));
    assert Step(Initial, Heading(1, [Text(title)]), dec) == Success(st);
    assert Next(described + rest, 0) == 2;
    assert Next(title1 + rest, 0) == 1;
    RunSuffix(described, rest, 0, st, dec);
    RunSuffix(title1, rest, 0, st, dec);
  }

  /** A paragraph that does not follow a title is refused. */
  lemma UntitledParagraphRefused(path: SpecPath, about: seq<Node>, rest: seq<Node>, dec: Decoders)
    ensures FromSource(path, [Paragraph(about)] + rest, dec) == Failure(UnexpectedNode)
  {
  }

  /** A meta written `@` followed by a name without `@` names that name. */
  lemma AtName(name: string)
    requires '@' !in name
    ensures CodeName(Some("@" + name)) == Some(name)
  {
    var meta := "@" + name;
    assert meta[0] == '@' && meta[1..] == name;
    assert RemoveAll(meta, '@') == RemoveAll(name, '@');
    RemoveAllAbsent(name, '@');
  }
}
