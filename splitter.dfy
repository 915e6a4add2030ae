/**
 * `Splitter.split_docs`: builds a `SpacyTextSplitter` from the options the
 * caller set, then splits a text, one document or a list of documents
 * according to the mode. The splitter itself (spaCy sentence chunking) is
 * opaque: it is passed in as functions of its keyword arguments.
 */
module Splitter {
  import opened Python

  /** The `target` of `split_docs` as Python sees it: a string, a document, or a list of targets. */
  datatype SplitInput = TextInput(text: string) | DocInput(doc: Document) | ListInput(items: seq<SplitInput>)

  /** What `split_docs` returns: chunk documents, chunk texts, or `None` for an unknown mode. */
  datatype SplitResult = Chunks(docs: seq<Document>) | Texts(texts: seq<string>) | NoResult

  /**
   * `SpacyTextSplitter`: whether building it from its keyword arguments
   * raises, and what `split_text` and `split_documents` return or raise.
   */
  datatype SpacyLib = SpacyLib(
    construct: Options -> Option<string>,
    splitText: (Options, SplitInput) -> Outcome<seq<string>>,
    splitDocuments: (Options, SplitInput) -> Outcome<seq<Document>>)

  /** The keyword arguments of `split_docs` other than the target and the mode. */
  datatype SplitParams = SplitParams(
    separator: Option<string>,
    pipeline: Option<string>,
    maxLength: Option<int>,
    chunkSize: Option<int>,
    chunkOverlap: Option<int>,
    stripWhitespace: bool)

  /** The keys the splitter `kargs` dictionary may hold. */
  const SplitterOptionalKeys: set<string> := {"separator", "pipeline", "max_length", "chunk_size", "chunk_overlap"}

  /**
   * The splitter `kargs` dictionary: each of the five options is present,
   * with the caller's value, exactly when that value is truthy; a zero size
   * or overlap, or an empty string, is left to the library default.
   */
  function SplitterKargs(p: SplitParams): (kargs: Options)
    ensures kargs.Keys <= SplitterOptionalKeys
    ensures "separator" in kargs <==> StrTruthy(p.separator)
    ensures "pipeline" in kargs <==> StrTruthy(p.pipeline)
    ensures "max_length" in kargs <==> IntTruthy(p.maxLength)
    ensures "chunk_size" in kargs <==> IntTruthy(p.chunkSize)
    ensures "chunk_overlap" in kargs <==> IntTruthy(p.chunkOverlap)
    ensures "separator" in kargs ==> kargs["separator"] == Str(p.separator.value)
    ensures "pipeline" in kargs ==> kargs["pipeline"] == Str(p.pipeline.value)
    ensures "max_length" in kargs ==> kargs["max_length"] == Int(p.maxLength.value)
    ensures "chunk_size" in kargs ==> kargs["chunk_size"] == Int(p.chunkSize.value)
    ensures "chunk_overlap" in kargs ==> kargs["chunk_overlap"] == Int(p.chunkOverlap.value)
  {
    var k1: Options := if StrTruthy(p.separator) then map["separator" := Str(p.separator.value)] else map[];
    var k2 := if StrTruthy(p.pipeline) then k1["pipeline" := Str(p.pipeline.value)] else k1;
    var k3 := if IntTruthy(p.maxLength) then k2["max_length" := Int(p.maxLength.value)] else k2;
    var k4 := if IntTruthy(p.chunkSize) then k3["chunk_size" := Int(p.chunkSize.value)] else k3;
    if IntTruthy(p.chunkOverlap) then k4["chunk_overlap" := Int(p.chunkOverlap.value)] else k4
  }

  /** `kargs = {}` followed by the five conditional insertions of `split_docs`, in source order. */
  method BuildSplitterKargs(p: SplitParams) returns (kargs: Options)
    ensures kargs == SplitterKargs(p)
  {
    kargs := map[];
    if StrTruthy(p.separator) {
      kargs := kargs["separator" := Str(p.separator.value)];
    }
    if StrTruthy(p.pipeline) {
      kargs := kargs["pipeline" := Str(p.pipeline.value)];
    }
    if IntTruthy(p.maxLength) {
      kargs := kargs["max_length" := Int(p.maxLength.value)];
    }
    if IntTruthy(p.chunkSize) {
      kargs := kargs["chunk_size" := Int(p.chunkSize.value)];
    }
    if IntTruthy(p.chunkOverlap) {
      kargs := kargs["chunk_overlap" := Int(p.chunkOverlap.value)];
    }
  }

  /** The defaults of `split_docs`: no option set, `strip_whitespace=True`. */
  const DefaultSplitParams := SplitParams(None, None, None, None, None, true)

  /**
   * Everything `SpacyTextSplitter` receives: `strip_whitespace` with the
   * caller's value, and every `kargs` entry unchanged.
   */
  function SplitterArgs(p: SplitParams, kargs: Options): (args: Options)
    requires "strip_whitespace" !in kargs
    ensures args.Keys == {"strip_whitespace"} + kargs.Keys
    ensures args["strip_whitespace"] == Bool(p.stripWhitespace)
    ensures forall k :: k in kargs ==> args[k] == kargs[k]
  {
    map["strip_whitespace" := Bool(p.stripWhitespace)] + kargs
  }

  /**
   * `strip_whitespace` always reaches the splitter with the caller's value,
   * whatever it is; the other keys are exactly the truthy options, with
   * their values.
   */
  lemma SplitterArgsForwarded(p: SplitParams)
    ensures "strip_whitespace" !in SplitterKargs(p)
    ensures var args := SplitterArgs(p, SplitterKargs(p));
            && args.Keys == {"strip_whitespace"} + SplitterKargs(p).Keys
            && args["strip_whitespace"] == Bool(p.stripWhitespace)
            && (forall k :: k in SplitterKargs(p) ==> args[k] == SplitterKargs(p)[k])
  {
    assert SplitterKargs(p).Keys <= SplitterOptionalKeys;
  }

  /** With every default, the splitter receives `strip_whitespace=True` and nothing else. */
  lemma DefaultSplitterArgs()
    ensures SplitterKargs(DefaultSplitParams) == map[]
    ensures SplitterArgs(DefaultSplitParams, SplitterKargs(DefaultSplitParams)) == map["strip_whitespace" := Bool(true)]
  {
  }

  /**
   * A zero `chunk_size` or `chunk_overlap` is dropped: the splitter is
   * built exactly as if the option had not been given, so the library
   * defaults apply.
   */
  lemma ZeroSizesAreDropped(p: SplitParams)
    ensures SplitterKargs(p.(chunkSize := Some(0))) == SplitterKargs(p.(chunkSize := None))
    ensures SplitterKargs(p.(chunkOverlap := Some(0))) == SplitterKargs(p.(chunkOverlap := None))
    ensures SplitterKargs(p.(maxLength := Some(0))) == SplitterKargs(p.(maxLength := None))
  {
  }

  /**
   * `split_docs`: build the splitter (an exception propagates, whatever the
   * mode), then mode "text" splits the raw target, "doc" splits the
   * one-element list `[target]`, "docs" (the default) splits the target as
   * it is, and any other mode returns `None` without calling the splitter.
   */
  function SplitOutcome(target: SplitInput, lib: SpacyLib, mode: string := "docs", p: SplitParams := DefaultSplitParams)
    : (r: Outcome<SplitResult>)
    ensures var args := SplitterArgs(p, SplitterKargs(p));
            && (lib.construct(args).Some? ==> r == Raised(lib.construct(args).value))
            && (lib.construct(args).None? ==>
                  && (mode == "text" ==> r == TextsOf(lib.splitText(args, target)))
                  && (mode == "doc" ==> r == ChunksOf(lib.splitDocuments(args, ListInput([target]))))
                  && (mode == "docs" ==> r == ChunksOf(lib.splitDocuments(args, target)))
                  && (mode !in {"text", "doc", "docs"} ==> r == Returned(NoResult)))
  {
    SplitWith(target, lib, mode, SplitterArgs(p, SplitterKargs(p)))
  }

  /** The mode dispatch of `split_docs` once the splitter's arguments are known. */
  function SplitWith(target: SplitInput, lib: SpacyLib, mode: string, args: Options): Outcome<SplitResult> {
    match lib.construct(args)
    case Some(e) => Raised(e)
    case None =>
      if mode == "text" then TextsOf(lib.splitText(args, target))
      else if mode == "doc" then ChunksOf(lib.splitDocuments(args, ListInput([target])))
      else if mode == "docs" then ChunksOf(lib.splitDocuments(args, target))
      else Returned(NoResult)
  }

  /**
   * Called without a mode, `split_docs` is in mode "docs": it hands the
   * target as it is to `split_documents`; with every option left out, the
   * splitter gets only `strip_whitespace=True`.
   */
  lemma DefaultModeIsDocs(target: SplitInput, lib: SpacyLib, p: SplitParams)
    ensures var args := SplitterArgs(p, SplitterKargs(p));
            lib.construct(args).None? ==>
              SplitOutcome(target, lib, p := p) == ChunksOf(lib.splitDocuments(args, target))
    ensures var args := map["strip_whitespace" := Bool(true)];
            lib.construct(args).None? ==>
              SplitOutcome(target, lib) == ChunksOf(lib.splitDocuments(args, target))
  {
    DefaultSplitterArgs();
  }

  /** `split_docs` step by step, as the source runs it. */
  method SplitDocs(target: SplitInput, lib: SpacyLib, mode: string := "docs", p: SplitParams := DefaultSplitParams)
    returns (r: Outcome<SplitResult>)
    ensures r == SplitOutcome(target, lib, mode, p)
  {
    var kargs := BuildSplitterKargs(p);
    var args := SplitterArgs(p, kargs);
    var failure := lib.construct(args);
    if failure.Some? {
      return Raised(failure.value);
    }
    if mode == "text" {
      var texts := lib.splitText(args, target);
      r := if texts.Returned? then Returned(Texts(texts.value)) else Raised(texts.error);
    } else if mode == "doc" {
      var docs := lib.splitDocuments(args, ListInput([target]));
      r := if docs.Returned? then Returned(Chunks(docs.value)) else Raised(docs.error);
    } else if mode == "docs" {
      var docs := lib.splitDocuments(args, target);
      r := if docs.Returned? then Returned(Chunks(docs.value)) else Raised(docs.error);
    } else {
      r := Returned(NoResult);
    }
  }

  /** The outcome of `split_text` as a `split_docs` result. */
  function TextsOf(o: Outcome<seq<string>>): (r: Outcome<SplitResult>)
    ensures r.Returned? <==> o.Returned?
    ensures o.Returned? ==> r.value == Texts(o.value)
  {
    match o
    case Returned(ts) => Returned(Texts(ts))
    case Raised(e) => Raised(e)
  }

  /** The outcome of `split_documents` as a `split_docs` result. */
  function ChunksOf(o: Outcome<seq<Document>>): (r: Outcome<SplitResult>)
    ensures r.Returned? <==> o.Returned?
    ensures o.Returned? ==> r.value == Chunks(o.value)
  {
    match o
    case Returned(ds) => Returned(Chunks(ds))
    case Raised(e) => Raised(e)
  }
}
