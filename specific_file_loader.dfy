/**
 * `SpecificFileLoader`: PDF files through `PDFMinerLoader` and JSON files
 * through `JSONLoader`, each with its keyword arguments assembled from the
 * caller's options, a default/lazy/async mode switch, and a directory walk
 * that concatenates the documents of every matching file.
 *
 * The LangChain loaders and the image-caption model are opaque: they are
 * passed in as functions of the keyword arguments they receive.
 */
module SpecificFileLoader {
  import opened Python
  import opened PosixPath
  import opened BatchFold

  /**
   * What a loader call returns: the documents of `load()`, or a tag for
   * the generator of `lazy_load()` or the coroutine of `aload()`, carrying
   * the arguments the loader was built with.
   */
  datatype Loaded = Eager(docs: seq<Document>) | LazyIterator(args: Options) | Awaitable(args: Options)

  /**
   * A LangChain document loader: whether building it from its keyword
   * arguments raises (`Some(error)`), and what its `load()` returns or raises.
   */
  datatype LoaderLib = LoaderLib(construct: Options -> Option<string>, load: Options -> Outcome<seq<Document>>)

  /** `LLMImageBlobParser(model=ChatOpenAI(model=m))`: the parser object, or the exception building it raises. */
  type ImageParserLib = string -> Outcome<Value>

  /** The mode switch shared by `pdf_load_file` and `json_load_file`. */
  function LoadMethod(mode: string, lib: LoaderLib, args: Options): (r: Outcome<Loaded>)
    ensures mode == "default" ==> r == (match lib.load(args) case Returned(ds) => Returned(Eager(ds)) case Raised(e) => Raised(e))
    ensures mode == "lazy" ==> r == Returned(LazyIterator(args))
    ensures mode == "async" ==> r == Returned(Awaitable(args))
    ensures mode !in {"default", "lazy", "async"} ==> r.Raised?
  {
    match mode
    case "default" => (match lib.load(args) case Returned(ds) => Returned(Eager(ds)) case Raised(e) => Raised(e))
    case "lazy" => Returned(LazyIterator(args))
    case "async" => Returned(Awaitable(args))
    case _ => Raised("invalid load mode: " + mode)
  }

  /** Build the loader from `args`, then call it as `mode` says; a constructor exception propagates. */
  function BuildAndLoad(mode: string, lib: LoaderLib, args: Options): (r: Outcome<Option<Loaded>>)
    ensures r != Returned(None)
    ensures lib.construct(args).Some? ==> r == Raised(lib.construct(args).value)
    ensures lib.construct(args).None? ==>
              r == match LoadMethod(mode, lib, args) case Returned(l) => Returned(Some(l)) case Raised(e) => Raised(e)
  {
    match lib.construct(args)
    case Some(e) => Raised(e)
    case None =>
      match LoadMethod(mode, lib, args)
      case Returned(l) => Returned(Some(l))
      case Raised(e) => Raised(e)
  }

  // ---------------------------------------------------------------- PDF

  /** The keyword arguments of `pdf_load_file` other than the path and the call mode. */
  datatype PdfParams = PdfParams(
    fromWeb: Option<map<string, string>>,
    password: Option<string>,
    loadMode: string,
    singleDelimiter: Option<string>,
    includeImg: bool,
    imgModel: Option<string>,
    imgFormat: Option<string>)

  /** The defaults of `pdf_load_file`: no headers, no password, page mode "single", no images. */
  const DefaultPdfParams := PdfParams(None, None, "single", None, false, None, None)

  /** The keys the PDF `kargs` dictionary may hold. */
  const PdfOptionalKeys: set<string> := {"pages_delimiter", "images_parser", "images_inner_format"}

  /** The keys `pdf_load_file` always passes to `PDFMinerLoader`. */
  const PdfFixedKeys: set<string> := {"file_path", "headers", "password", "mode", "extract_images"}

  /**
   * The PDF `kargs` dictionary: each optional key is present exactly when
   * its condition holds. Building the image parser may raise.
   */
  function PdfKargs(p: PdfParams, imageParser: ImageParserLib): (r: Outcome<Options>)
    ensures r.Raised? <==> p.includeImg && StrTruthy(p.imgModel) && imageParser(p.imgModel.value).Raised?
    ensures r.Returned? ==> r.value.Keys <= PdfOptionalKeys
    ensures r.Returned? ==> r.value.Keys !! PdfFixedKeys
    ensures r.Returned? ==>
              ("pages_delimiter" in r.value <==> StrTruthy(p.singleDelimiter) && p.loadMode == "single")
    ensures r.Returned? ==> ("images_parser" in r.value <==> p.includeImg && StrTruthy(p.imgModel))
    ensures r.Returned? ==> ("images_inner_format" in r.value <==> p.includeImg && StrTruthy(p.imgFormat))
    ensures r.Returned? && "pages_delimiter" in r.value ==> r.value["pages_delimiter"] == Str(p.singleDelimiter.value)
    ensures r.Returned? && "images_parser" in r.value ==> r.value["images_parser"] == imageParser(p.imgModel.value).value
    ensures r.Returned? && "images_inner_format" in r.value ==> r.value["images_inner_format"] == Str(p.imgFormat.value)
  {
    var k1: Options :=
      if StrTruthy(p.singleDelimiter) && p.loadMode == "single"
      then map["pages_delimiter" := Str(p.singleDelimiter.value)] else map[];
    if p.includeImg && StrTruthy(p.imgModel) && imageParser(p.imgModel.value).Raised? then
      Raised(imageParser(p.imgModel.value).error)
    else
      var k2 := if p.includeImg && StrTruthy(p.imgModel) then k1["images_parser" := imageParser(p.imgModel.value).value] else k1;
      var k3 := if p.includeImg && StrTruthy(p.imgFormat) then k2["images_inner_format" := Str(p.imgFormat.value)] else k2;
      Returned(k3)
  }

  /** `kargs = {}` followed by the conditional insertions of `pdf_load_file`, in source order. */
  method BuildPdfKargs(p: PdfParams, imageParser: ImageParserLib) returns (r: Outcome<Options>)
    ensures r == PdfKargs(p, imageParser)
  {
    var kargs: Options := map[];
    if StrTruthy(p.singleDelimiter) && p.loadMode == "single" {
      kargs := kargs["pages_delimiter" := Str(p.singleDelimiter.value)];
    }
    if p.includeImg {
      if StrTruthy(p.imgModel) {
        var parser := imageParser(p.imgModel.value);
        if parser.Raised? {
          return Raised(parser.error);
        }
        kargs := kargs["images_parser" := parser.value];
      }
      if StrTruthy(p.imgFormat) {
        kargs := kargs["images_inner_format" := Str(p.imgFormat.value)];
      }
    }
    return Returned(kargs);
  }

  /**
   * Everything `PDFMinerLoader` receives: the path, headers, password, page
   * mode and `extract_images` as the caller gave them, and every `kargs`
   * entry unchanged.
   */
  function PdfLoaderArgs(filePath: string, p: PdfParams, kargs: Options): (args: Options)
    requires kargs.Keys !! PdfFixedKeys
    ensures args.Keys == PdfFixedKeys + kargs.Keys
    ensures args["file_path"] == Str(filePath)
    ensures args["headers"] == OptDict(p.fromWeb)
    ensures args["password"] == OptStr(p.password)
    ensures args["mode"] == Str(p.loadMode)
    ensures args["extract_images"] == Bool(p.includeImg)
    ensures forall k :: k in kargs ==> args[k] == kargs[k]
  {
    map[
      "file_path" := Str(filePath),
      "headers" := OptDict(p.fromWeb),
      "password" := OptStr(p.password),
      "mode" := Str(p.loadMode),
      "extract_images" := Bool(p.includeImg)] + kargs
  }

  /**
   * What `PDFMinerLoader` receives: the caller's path, headers, password
   * and page mode; `extract_images` always equal to `include_img`; and the
   * optional keys exactly when their conditions hold. No key of `kargs`
   * clashes with a fixed one, so the call never gets a keyword twice.
   */
  lemma PdfLoaderArgsForwarded(filePath: string, p: PdfParams, imageParser: ImageParserLib)
    requires PdfKargs(p, imageParser).Returned?
    ensures var args := PdfLoaderArgs(filePath, p, PdfKargs(p, imageParser).value);
            && PdfKargs(p, imageParser).value.Keys !! PdfFixedKeys
            && args.Keys == PdfFixedKeys + PdfKargs(p, imageParser).value.Keys
            && args["file_path"] == Str(filePath)
            && args["headers"] == OptDict(p.fromWeb)
            && args["password"] == OptStr(p.password)
            && args["mode"] == Str(p.loadMode)
            && args["extract_images"] == Bool(p.includeImg)
            && ("pages_delimiter" in args <==> StrTruthy(p.singleDelimiter) && p.loadMode == "single")
            && ("images_parser" in args <==> p.includeImg && StrTruthy(p.imgModel))
            && ("images_inner_format" in args <==> p.includeImg && StrTruthy(p.imgFormat))
            && (forall k :: k in PdfKargs(p, imageParser).value ==> args[k] == PdfKargs(p, imageParser).value[k])
  {
    var kargs := PdfKargs(p, imageParser).value;
    assert kargs.Keys <= PdfOptionalKeys;
  }

  /**
   * `pdf_load_file`: `None` for a path whose lower-cased extension is not
   * ".pdf", before anything is built; otherwise the outcome of building
   * the parser and the loader and calling it as `mode` says. A mode other
   * than default/lazy/async raises.
   */
  function PdfFileResult(filePath: string, imageParser: ImageParserLib, lib: LoaderLib,
                         mode: string := "default", p: PdfParams := DefaultPdfParams)
    : (r: Outcome<Option<Loaded>>)
    ensures Ext(Lower(filePath)) != ".pdf" ==> r == Returned(None)
    ensures Ext(Lower(filePath)) == ".pdf" ==> r != Returned(None)
    ensures Ext(Lower(filePath)) == ".pdf" && mode !in {"default", "lazy", "async"} ==> r.Raised?
    ensures mode == "default" && r.Returned? && r.value.Some? ==> r.value.value.Eager?
  {
    if Ext(Lower(filePath)) != ".pdf" then Returned(None)
    else
      match PdfKargs(p, imageParser)
      case Raised(e) => Raised(e)
      case Returned(kargs) => BuildAndLoad(mode, lib, PdfLoaderArgs(filePath, p, kargs))
  }

  /** `pdf_load_file` step by step, as the source runs it. */
  method PdfLoadFile(filePath: string, imageParser: ImageParserLib, lib: LoaderLib,
                     mode: string := "default", p: PdfParams := DefaultPdfParams)
    returns (r: Outcome<Option<Loaded>>)
    ensures r == PdfFileResult(filePath, imageParser, lib, mode, p)
  {
    var (_, ext) := Splitext(Lower(filePath));
    if ext != ".pdf" {
      return Returned(None);
    }
    var kargs := BuildPdfKargs(p, imageParser);
    if kargs.Raised? {
      return Raised(kargs.error);
    }
    var args := PdfLoaderArgs(filePath, p, kargs.value);
    var failure := lib.construct(args);
    if failure.Some? {
      return Raised(failure.value);
    }
    match mode {
      case "default" =>
        var docs := lib.load(args);
        r := if docs.Returned? then Returned(Some(Eager(docs.value))) else Raised(docs.error);
      case "lazy" =>
        r := Returned(Some(LazyIterator(args)));
      case "async" =>
        r := Returned(Some(Awaitable(args)));
      case _ =>
        r := Raised("invalid load mode: " + mode);
    }
  }

  /** The options of `pdf_load_dir`; it passes no headers and no password. */
  datatype PdfDirParams = PdfDirParams(
    mode: string,
    singleDelimiter: Option<string>,
    imgIncluded: bool,
    imgModel: Option<string>,
    imgFormat: Option<string>)

  /** The defaults of `pdf_load_dir`: page mode "single", no delimiter, no images. */
  const DefaultPdfDirParams := PdfDirParams("single", None, false, None, None)

  /** The `pdf_load_file` options `pdf_load_dir` passes for every file. */
  function PdfFileParams(d: PdfDirParams): PdfParams {
    PdfParams(None, None, d.mode, d.singleDelimiter, d.imgIncluded, d.imgModel, d.imgFormat)
  }

  /** `pdf_load_dir` called with the path alone calls `pdf_load_file` with that function's own defaults. */
  lemma PdfDirDefaultsAreFileDefaults()
    ensures PdfFileParams(DefaultPdfDirParams) == DefaultPdfParams
  {
  }

  /**
   * `pdf_load_file` called with the path alone: no optional key, a
   * `PDFMinerLoader` with no headers, no password, page mode "single" and
   * no image extraction, and mode "default", which returns `load()`.
   */
  lemma PdfDefaultCall(filePath: string, imageParser: ImageParserLib, lib: LoaderLib)
    requires IsPdfName(filePath)
    ensures PdfKargs(DefaultPdfParams, imageParser) == Returned(map[])
    ensures var args := PdfLoaderArgs(filePath, DefaultPdfParams, map[]);
            && args == map["file_path" := Str(filePath), "headers" := NoneValue, "password" := NoneValue,
                           "mode" := Str("single"), "extract_images" := Bool(false)]
            && (lib.construct(args).None? ==>
                  PdfFileResult(filePath, imageParser, lib)
                  == match lib.load(args) case Returned(ds) => Returned(Some(Eager(ds))) case Raised(e) => Raised(e))
  {
    var args := PdfLoaderArgs(filePath, DefaultPdfParams, map[]);
    assert args.Keys == PdfFixedKeys;
  }

  /** Whether a listed name is a PDF by its own lower-cased extension. */
  predicate IsPdfName(name: string) {
    Ext(Lower(name)) == ".pdf"
  }

  /**
   * What one listed name contributes to `pdf_load_dir`: nothing for a
   * non-PDF name (it is skipped) or for a file whose load raised (the
   * exception is caught); otherwise the documents `pdf_load_file` returned.
   */
  function PdfDirEntry(path: string, d: PdfDirParams, imageParser: ImageParserLib, lib: LoaderLib, name: string)
    : (docs: seq<Document>)
    ensures !IsPdfName(name) ==> docs == []
    ensures IsPdfName(name) ==>
              var r := PdfFileResult(Join(path, name), imageParser, lib, "default", PdfFileParams(d));
              (r.Raised? || r == Returned(None) ==> docs == []) &&
              (r.Returned? && r.value.Some? ==> r.value.value.Eager? && docs == r.value.value.docs)
  {
    if !IsPdfName(name) then []
    else
      match PdfFileResult(Join(path, name), imageParser, lib, "default", PdfFileParams(d))
      case Returned(Some(Eager(ds))) => ds
      case Returned(None) => []
      case Returned(Some(_)) => assert false; []
      case Raised(_) => []
  }

  function PdfDirEntryIn(path: string, d: PdfDirParams, imageParser: ImageParserLib, lib: LoaderLib): string -> seq<Document> {
    name => PdfDirEntry(path, d, imageParser, lib, name)
  }

  /**
   * `pdf_load_dir` over the listing `files` of `path`: the in-order
   * concatenation of the documents of the PDF entries.
   */
  method PdfLoadDir(path: string, files: seq<string>, imageParser: ImageParserLib, lib: LoaderLib,
                    d: PdfDirParams := DefaultPdfDirParams)
    returns (docs: seq<Document>)
    ensures docs == Extended(PerFile(files, PdfDirEntryIn(path, d, imageParser, lib)))
  {
    ghost var rs := PerFile(files, PdfDirEntryIn(path, d, imageParser, lib));
    docs := [];
    var i := 0;
    while i < |files|
      invariant 0 <= i <= |files|
      invariant docs == Extended(rs[..i])
    {
      ExtendedStep(rs, i);
      var name := files[i];
      var (_, ext) := Splitext(Lower(name));
      if ext == ".pdf" {
        var temp := PdfLoadFile(Join(path, name), imageParser, lib, "default", PdfFileParams(d));
        if temp.Returned? && temp.value.Some? && |temp.value.value.docs| > 0 {
          docs := docs + temp.value.value.docs;
        }
      }
      i := i + 1;
    }
    assert rs[..|files|] == rs;
  }

  /**
   * `pdf_load_file` never turns down a name `pdf_load_dir` let through: a
   * listed name (no separator) keeps its extension once joined to the
   * directory, so every attempted file has an answer other than `None`.
   */
  lemma PdfDirAttemptsAreLoaded(path: string, name: string, d: PdfDirParams, imageParser: ImageParserLib, lib: LoaderLib)
    requires '/' !in name
    requires IsPdfName(name)
    ensures PdfFileResult(Join(path, name), imageParser, lib, "default", PdfFileParams(d)) != Returned(None)
  {
    JoinedNameKeepsExtension(path, name);
  }

  /**
   * `pdf_load_dir` attempts only PDF names: a name of another extension can
   * be dropped from the listing without changing the result.
   */
  lemma PdfDirSkipsNonPdf(path: string, a: seq<string>, name: string, b: seq<string>, d: PdfDirParams, imageParser: ImageParserLib, lib: LoaderLib)
    requires !IsPdfName(name)
    ensures Extended(PerFile(a + [name] + b, PdfDirEntryIn(path, d, imageParser, lib)))
         == Extended(PerFile(a + b, PdfDirEntryIn(path, d, imageParser, lib)))
  {
    ExtendedSkipsEmpty(a, name, b, PdfDirEntryIn(path, d, imageParser, lib));
  }

  /**
   * One file raising does not take documents from the others: the result
   * for a listing with a failing file is the result without it, and is the
   * concatenation of the results for the files before and after it.
   */
  lemma PdfDirIsolatesFailures(path: string, a: seq<string>, name: string, b: seq<string>, d: PdfDirParams, imageParser: ImageParserLib, lib: LoaderLib)
    requires PdfFileResult(Join(path, name), imageParser, lib, "default", PdfFileParams(d)).Raised?
    ensures Extended(PerFile(a + [name] + b, PdfDirEntryIn(path, d, imageParser, lib)))
         == Extended(PerFile(a, PdfDirEntryIn(path, d, imageParser, lib)))
          + Extended(PerFile(b, PdfDirEntryIn(path, d, imageParser, lib)))
  {
    var load := PdfDirEntryIn(path, d, imageParser, lib);
    assert load(name) == [];
    ExtendedSkipsEmpty(a, name, b, load);
    PerFileConcat(a, b, load);
    ExtendedConcat(PerFile(a, load), PerFile(b, load));
  }

  // ---------------------------------------------------------------- JSON

  /** The keyword arguments of `json_load_file` other than the path and the call mode. */
  datatype JsonParams = JsonParams(
    jqSchema: Option<string>,
    contentKey: Option<string>,
    contentParsable: Option<bool>,
    textContent: bool,
    metadataFunc: Option<FuncRef>,
    jsonLines: bool)

  /** The defaults of `json_load_file` and of `json_load_dir`: nothing set, both flags false. */
  const DefaultJsonParams := JsonParams(None, None, None, false, None, false)

  /** The keys the JSON `kargs` dictionary may hold. */
  const JsonOptionalKeys: set<string> := {"jq_schema", "content_key", "is_content_key_jq_parsable", "metadata_func"}

  /** The keys `json_load_file` always passes to `JSONLoader`. */
  const JsonFixedKeys: set<string> := {"file_path", "text_content", "json_lines"}

  /**
   * The JSON `kargs` dictionary: `jq_schema` always (the caller's if
   * truthy, else ".[]"), `content_key` when truthy, the parsable flag only
   * with a truthy content key and a true flag, `metadata_func` when given.
   */
  function JsonKargs(p: JsonParams): (kargs: Options)
    ensures kargs.Keys <= JsonOptionalKeys
    ensures kargs.Keys !! JsonFixedKeys
    ensures "jq_schema" in kargs
    ensures kargs["jq_schema"] == if StrTruthy(p.jqSchema) then Str(p.jqSchema.value) else Str(".[]")
    ensures "content_key" in kargs <==> StrTruthy(p.contentKey)
    ensures "is_content_key_jq_parsable" in kargs <==> StrTruthy(p.contentKey) && BoolTruthy(p.contentParsable)
    ensures "metadata_func" in kargs <==> p.metadataFunc.Some?
    ensures "content_key" in kargs ==> kargs["content_key"] == Str(p.contentKey.value)
    ensures "is_content_key_jq_parsable" in kargs ==> kargs["is_content_key_jq_parsable"] == Bool(true)
    ensures "metadata_func" in kargs ==> kargs["metadata_func"] == Callable(p.metadataFunc.value)
  {
    var k1: Options := map["jq_schema" := if StrTruthy(p.jqSchema) then Str(p.jqSchema.value) else Str(".[]")];
    var k2 := if StrTruthy(p.contentKey) then k1["content_key" := Str(p.contentKey.value)] else k1;
    var k3 := if StrTruthy(p.contentKey) && BoolTruthy(p.contentParsable) then k2["is_content_key_jq_parsable" := Bool(true)] else k2;
    if p.metadataFunc.Some? then k3["metadata_func" := Callable(p.metadataFunc.value)] else k3
  }

  /** `kargs = {}` followed by the conditional insertions of `json_load_file`, in source order. */
  method BuildJsonKargs(p: JsonParams) returns (kargs: Options)
    ensures kargs == JsonKargs(p)
  {
    kargs := map[];
    if StrTruthy(p.jqSchema) {
      kargs := kargs["jq_schema" := Str(p.jqSchema.value)];
    } else {
      kargs := kargs["jq_schema" := Str(".[]")];
    }
    if StrTruthy(p.contentKey) {
      kargs := kargs["content_key" := Str(p.contentKey.value)];
      if BoolTruthy(p.contentParsable) {
        kargs := kargs["is_content_key_jq_parsable" := Bool(p.contentParsable.value)];
      }
    }
    if p.metadataFunc.Some? {
      kargs := kargs["metadata_func" := Callable(p.metadataFunc.value)];
    }
  }

  /**
   * Everything `JSONLoader` receives: the path, `text_content` and
   * `json_lines` as the caller gave them, and every `kargs` entry unchanged.
   */
  function JsonLoaderArgs(filePath: string, p: JsonParams, kargs: Options): (args: Options)
    requires kargs.Keys !! JsonFixedKeys
    ensures args.Keys == JsonFixedKeys + kargs.Keys
    ensures args["file_path"] == Str(filePath)
    ensures args["text_content"] == Bool(p.textContent)
    ensures args["json_lines"] == Bool(p.jsonLines)
    ensures forall k :: k in kargs ==> args[k] == kargs[k]
  {
    map[
      "file_path" := Str(filePath),
      "text_content" := Bool(p.textContent),
      "json_lines" := Bool(p.jsonLines)] + kargs
  }

  /**
   * What `JSONLoader` receives: the caller's path, and `text_content` and
   * `json_lines` always forwarded, beside the `kargs` keys; no keyword twice.
   */
  lemma JsonLoaderArgsForwarded(filePath: string, p: JsonParams)
    ensures var args := JsonLoaderArgs(filePath, p, JsonKargs(p));
            && JsonKargs(p).Keys !! JsonFixedKeys
            && args.Keys == JsonFixedKeys + JsonKargs(p).Keys
            && args["file_path"] == Str(filePath)
            && args["text_content"] == Bool(p.textContent)
            && args["json_lines"] == Bool(p.jsonLines)
            && args["jq_schema"] == JsonKargs(p)["jq_schema"]
            && ("is_content_key_jq_parsable" in args ==> "content_key" in args)
            && (forall k :: k in JsonKargs(p) ==> args[k] == JsonKargs(p)[k])
  {
    var kargs := JsonKargs(p);
    assert kargs.Keys <= JsonOptionalKeys;
  }

  /**
   * `json_load_file`: `None` for a path whose lower-cased extension is not
   * ".json", before anything is built; otherwise the outcome of building
   * the loader and calling it as `mode` says. A mode other than
   * default/lazy/async raises.
   */
  function JsonFileResult(filePath: string, lib: LoaderLib, mode: string := "default", p: JsonParams := DefaultJsonParams)
    : (r: Outcome<Option<Loaded>>)
    ensures Ext(Lower(filePath)) != ".json" ==> r == Returned(None)
    ensures Ext(Lower(filePath)) == ".json" ==> r != Returned(None)
    ensures Ext(Lower(filePath)) == ".json" && mode !in {"default", "lazy", "async"} ==> r.Raised?
    ensures mode == "default" && r.Returned? && r.value.Some? ==> r.value.value.Eager?
  {
    if Ext(Lower(filePath)) != ".json" then Returned(None)
    else BuildAndLoad(mode, lib, JsonLoaderArgs(filePath, p, JsonKargs(p)))
  }

  /** `json_load_file` step by step, as the source runs it. */
  method JsonLoadFile(filePath: string, lib: LoaderLib, mode: string := "default", p: JsonParams := DefaultJsonParams)
    returns (r: Outcome<Option<Loaded>>)
    ensures r == JsonFileResult(filePath, lib, mode, p)
  {
    var (_, ext) := Splitext(Lower(filePath));
    if ext != ".json" {
      return Returned(None);
    }
    var kargs := BuildJsonKargs(p);
    var args := JsonLoaderArgs(filePath, p, kargs);
    var failure := lib.construct(args);
    if failure.Some? {
      return Raised(failure.value);
    }
    match mode {
      case "default" =>
        var docs := lib.load(args);
        r := if docs.Returned? then Returned(Some(Eager(docs.value))) else Raised(docs.error);
      case "lazy" =>
        r := Returned(Some(LazyIterator(args)));
      case "async" =>
        r := Returned(Some(Awaitable(args)));
      case _ =>
        r := Raised("invalid load mode: " + mode);
    }
  }

  /**
   * `json_load_file` (and `json_load_dir` per file) with every default:
   * `JSONLoader` gets the path, `jq_schema=".[]"` and both flags false, and
   * mode "default" returns `load()`.
   */
  lemma JsonDefaultCall(filePath: string, lib: LoaderLib)
    requires IsJsonName(filePath)
    ensures JsonKargs(DefaultJsonParams) == map["jq_schema" := Str(".[]")]
    ensures var args := JsonLoaderArgs(filePath, DefaultJsonParams, JsonKargs(DefaultJsonParams));
            && args == map["file_path" := Str(filePath), "text_content" := Bool(false),
                           "json_lines" := Bool(false), "jq_schema" := Str(".[]")]
            && (lib.construct(args).None? ==>
                  JsonFileResult(filePath, lib)
                  == match lib.load(args) case Returned(ds) => Returned(Some(Eager(ds))) case Raised(e) => Raised(e))
  {
    assert JsonKargs(DefaultJsonParams).Keys == {"jq_schema"};
    var args := JsonLoaderArgs(filePath, DefaultJsonParams, JsonKargs(DefaultJsonParams));
    assert args.Keys == JsonFixedKeys + {"jq_schema"};
  }

  /** Whether a listed name is a JSON file by its own lower-cased extension. */
  predicate IsJsonName(name: string) {
    Ext(Lower(name)) == ".json"
  }

  /**
   * What one listed name contributes to `json_load_dir` (whose
   * `content_string` is the `text_content` of `p`): nothing for a non-JSON
   * name or a file whose load raised; otherwise its documents.
   */
  function JsonDirEntry(path: string, p: JsonParams, lib: LoaderLib, name: string): (docs: seq<Document>)
    ensures !IsJsonName(name) ==> docs == []
    ensures IsJsonName(name) ==>
              var r := JsonFileResult(Join(path, name), lib, "default", p);
              (r.Raised? || r == Returned(None) ==> docs == []) &&
              (r.Returned? && r.value.Some? ==> r.value.value.Eager? && docs == r.value.value.docs)
  {
    if !IsJsonName(name) then []
    else
      match JsonFileResult(Join(path, name), lib, "default", p)
      case Returned(Some(Eager(ds))) => ds
      case Returned(None) => []
      case Returned(Some(_)) => assert false; []
      case Raised(_) => []
  }

  function JsonDirEntryIn(path: string, p: JsonParams, lib: LoaderLib): string -> seq<Document> {
    name => JsonDirEntry(path, p, lib, name)
  }

  /**
   * `json_load_dir` over the listing `files` of `path`: the in-order
   * concatenation of the documents of the JSON entries.
   */
  method JsonLoadDir(path: string, files: seq<string>, lib: LoaderLib, p: JsonParams := DefaultJsonParams)
    returns (docs: seq<Document>)
    ensures docs == Extended(PerFile(files, JsonDirEntryIn(path, p, lib)))
  {
    ghost var rs := PerFile(files, JsonDirEntryIn(path, p, lib));
    docs := [];
    var i := 0;
    while i < |files|
      invariant 0 <= i <= |files|
      invariant docs == Extended(rs[..i])
    {
      ExtendedStep(rs, i);
      var name := files[i];
      var (_, ext) := Splitext(Lower(name));
      if ext == ".json" {
        var temp := JsonLoadFile(Join(path, name), lib, "default", p);
        if temp.Returned? && temp.value.Some? && |temp.value.value.docs| > 0 {
          docs := docs + temp.value.value.docs;
        }
      }
      i := i + 1;
    }
    assert rs[..|files|] == rs;
  }

  /** `json_load_file` never turns down a name `json_load_dir` let through. */
  lemma JsonDirAttemptsAreLoaded(path: string, name: string, p: JsonParams, lib: LoaderLib)
    requires '/' !in name
    requires IsJsonName(name)
    ensures JsonFileResult(Join(path, name), lib, "default", p) != Returned(None)
  {
    JoinedNameKeepsExtension(path, name);
  }

  /** `json_load_dir` attempts only JSON names. */
  lemma JsonDirSkipsNonJson(path: string, a: seq<string>, name: string, b: seq<string>, p: JsonParams, lib: LoaderLib)
    requires !IsJsonName(name)
    ensures Extended(PerFile(a + [name] + b, JsonDirEntryIn(path, p, lib)))
         == Extended(PerFile(a + b, JsonDirEntryIn(path, p, lib)))
  {
    ExtendedSkipsEmpty(a, name, b, JsonDirEntryIn(path, p, lib));
  }

  /** One JSON file raising does not take documents from the others. */
  lemma JsonDirIsolatesFailures(path: string, a: seq<string>, name: string, b: seq<string>, p: JsonParams, lib: LoaderLib)
    requires JsonFileResult(Join(path, name), lib, "default", p).Raised?
    ensures Extended(PerFile(a + [name] + b, JsonDirEntryIn(path, p, lib)))
         == Extended(PerFile(a, JsonDirEntryIn(path, p, lib))) + Extended(PerFile(b, JsonDirEntryIn(path, p, lib)))
  {
    var load := JsonDirEntryIn(path, p, lib);
    assert load(name) == [];
    ExtendedSkipsEmpty(a, name, b, load);
    PerFileConcat(a, b, load);
    ExtendedConcat(PerFile(a, load), PerFile(b, load));
  }
}
