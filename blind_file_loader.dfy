/**
 * `BlindFileLoader`: picks a loader for a file from its lower-cased
 * extension, collapses every failure into an empty list, and walks a
 * directory listing collecting each file's document list.
 *
 * The seven `MultiFileLoader` methods and the Unstructured API loader are
 * opaque: they are passed in as functions from the call they receive to
 * the outcome it has.
 */
module BlindFileLoader {
  import opened Python
  import opened PosixPath
  import opened BatchFold

  /** The seven `MultiFileLoader` methods `load_file` can choose. */
  datatype LoadKind = Text | Csv | Json | Pdf | Docx | Excel | Markdown

  /** A call of one `MultiFileLoader` method: which one, the path, the keyword arguments. */
  datatype LoaderCall = LoaderCall(kind: LoadKind, path: string, options: Options)

  /** The opaque `MultiFileLoader` methods: what each call returns or raises. */
  type Loaders = LoaderCall -> Outcome<seq<Document>>

  /** The opaque `load_any_file` back end: `UnstructuredLoader(file, api_key=key).load()`. */
  type ApiLoader = (string, Option<string>) -> Outcome<seq<Document>>

  /** The keyword arguments of `load_file` other than the path. */
  datatype LoadParams = LoadParams(encoding: string, mode: string, password: Option<string>)

  /** The defaults of `load_file` and `load_dir`. */
  const DefaultParams := LoadParams("utf-8", "single", None)

  /** The dispatch table as a table: extension to loader. */
  const ExtensionTable: map<string, LoadKind> := map[
    ".txt" := Text, ".csv" := Csv, ".json" := Json, ".pdf" := Pdf, ".docx" := Docx,
    ".xlsx" := Excel, ".xls" := Excel, ".md" := Markdown, ".markdown" := Markdown]

  /** The if/elif chain of `load_file` on the extension; it agrees with the table, which is closed. */
  function Route(ext: string): (r: Option<LoadKind>)
    ensures r.Some? <==> ext in ExtensionTable
    ensures r.Some? ==> r.value == ExtensionTable[ext]
  {
    if ext == ".txt" then Some(Text)
    else if ext == ".csv" then Some(Csv)
    else if ext == ".json" then Some(Json)
    else if ext == ".pdf" then Some(Pdf)
    else if ext == ".docx" then Some(Docx)
    else if ext in [".xlsx", ".xls"] then Some(Excel)
    else if ext in [".md", ".markdown"] then Some(Markdown)
    else None
  }

  /** The loader `load_file` picks for a path: the route of `splitext(path.lower())[1]`. */
  function KindOf(path: string): Option<LoadKind> {
    Route(Ext(Lower(path)))
  }

  /**
   * The call `load_file` makes once it has picked a loader: the original
   * (not lower-cased) path, and of the options only the one that loader takes.
   */
  function Forward(kind: LoadKind, path: string, p: LoadParams): (c: LoaderCall)
    ensures c.kind == kind && c.path == path
    ensures c.options.Keys <= {"encoding", "password", "mode"}
    ensures "encoding" in c.options <==> kind == Text
    ensures "password" in c.options <==> kind == Pdf
    ensures "mode" in c.options <==> kind in {Docx, Excel, Markdown}
    ensures "encoding" in c.options ==> c.options["encoding"] == Str(p.encoding)
    ensures "password" in c.options ==> c.options["password"] == OptStr(p.password)
    ensures "mode" in c.options ==> c.options["mode"] == Str(p.mode)
  {
    var options: Options :=
      match kind
      case Text => map["encoding" := Str(p.encoding)]
      case Csv => map[]
      case Json => map[]
      case Pdf => map["password" := OptStr(p.password)]
      case Docx => map["mode" := Str(p.mode)]
      case Excel => map["mode" := Str(p.mode)]
      case Markdown => map["mode" := Str(p.mode)];
    LoaderCall(kind, path, options)
  }

  /** The `try` body of `load_file`: the chosen loader's outcome, or the `ValueError` for an unknown extension. */
  function Dispatch(path: string, p: LoadParams, loaders: Loaders): (r: Outcome<seq<Document>>)
    ensures KindOf(path).None? ==> r.Raised?
    ensures KindOf(path).Some? ==> r == loaders(Forward(KindOf(path).value, path, p))
  {
    var ext := Ext(Lower(path));
    match Route(ext)
    case None => Raised("unknown file type: " + ext)
    case Some(kind) => loaders(Forward(kind, path, p))
  }

  /**
   * `load_file`: never raises. Its documents are those the routed loader
   * returned; an unknown extension or any exception gives `[]`.
   */
  function LoadFile(path: string, loaders: Loaders, p: LoadParams := DefaultParams): (docs: seq<Document>)
    ensures KindOf(path).None? ==> docs == []
    ensures KindOf(path).Some? ==>
              var outcome := loaders(Forward(KindOf(path).value, path, p));
              docs == if outcome.Returned? then outcome.value else []
  {
    match Dispatch(path, p, loaders)
    case Returned(d) => d
    case Raised(_) => []
  }

  /**
   * What the defaults of `load_file` and `load_dir` forward: text files
   * are read as "utf-8", PDFs with no password, and docx, Excel and
   * Markdown files in mode "single".
   */
  lemma DefaultsForwarded(path: string)
    ensures Forward(Text, path, DefaultParams).options == map["encoding" := Str("utf-8")]
    ensures Forward(Pdf, path, DefaultParams).options == map["password" := NoneValue]
    ensures forall kind :: kind in {Docx, Excel, Markdown} ==>
              Forward(kind, path, DefaultParams).options == map["mode" := Str("single")]
    ensures Forward(Csv, path, DefaultParams).options == map[]
    ensures Forward(Json, path, DefaultParams).options == map[]
  {
  }

  /** The routing is case-insensitive: it looks only at the lower-cased extension of the path. */
  lemma KindOfLowerExtension(path: string)
    ensures KindOf(path) == Route(Lower(Ext(path)))
    ensures KindOf(path) == KindOf(Lower(path))
  {
    ExtOfLower(path);
    LowerIdempotent(path);
  }

  /** Upper-case extensions route like lower-case ones. */
  lemma UpperCasePdfRoutesAsPdf()
    ensures KindOf("A.PDF") == Some(Pdf)
  {
    assert Lower("A.PDF") == "a.pdf";
    assert Ext("a.pdf") == ".pdf" by {
      assert IsExtensionAt("a.pdf", 1) by {
        assert NoSeparatorBetween("a.pdf", 0, 1);
      }
      ExtensionCharacterised("a.pdf");
      assert "a.pdf"[1..] == ".pdf";
    }
  }

  /** A name made only of a leading dot and a suffix has no extension. */
  lemma DotPdfIsUnsupported()
    ensures KindOf(".pdf") == None
  {
    assert Lower(".pdf") == ".pdf";
    assert Ext(".pdf") == "" by {
      assert forall i :: !IsExtensionAt(".pdf", i);
      ExtensionCharacterised(".pdf");
    }
  }

  /** Only the final suffix counts. */
  lemma BackupOfPdfIsUnsupported()
    ensures KindOf("x.pdf.bak") == None
  {
    assert Lower("x.pdf.bak") == "x.pdf.bak";
    assert Ext("x.pdf.bak") == ".bak" by {
      assert IsExtensionAt("x.pdf.bak", 5) by {
        assert NoSeparatorBetween("x.pdf.bak", 4, 5);
      }
      ExtensionCharacterised("x.pdf.bak");
      assert "x.pdf.bak"[5..] == ".bak";
    }
  }

  /** A suffix of a directory component is not an extension of the file. */
  lemma PdfDirectoryIsNotPdf()
    ensures KindOf("docs.pdf/readme") == None
  {
    assert Lower("docs.pdf/readme") == "docs.pdf/readme";
    assert Ext("docs.pdf/readme") == "" by {
      assert "docs.pdf/readme"[8] == '/';
      assert forall i :: !IsExtensionAt("docs.pdf/readme", i);
      ExtensionCharacterised("docs.pdf/readme");
    }
  }

  /** `load_any_file` on one path: the Unstructured API's documents, or `[]` when it raises. */
  function LoadAnyFile(path: string, key: Option<string>, api: ApiLoader): (docs: seq<Document>)
    ensures api(path, key).Returned? ==> docs == api(path, key).value
    ensures api(path, key).Raised? ==> docs == []
  {
    match api(path, key)
    case Returned(d) => d
    case Raised(_) => []
  }

  /** `load_file` on an entry of the directory `dir`. */
  function LoadFileIn(dir: string, p: LoadParams, loaders: Loaders): string -> seq<Document> {
    name => LoadFile(Join(dir, name), loaders, p)
  }

  /** `load_any_file` on an entry of the directory `dir`. */
  function LoadAnyFileIn(dir: string, key: Option<string>, api: ApiLoader): string -> seq<Document> {
    name => LoadAnyFile(Join(dir, name), key, api)
  }

  /**
   * `load_dir` over the listing `files` of `dir`: one entry per file whose
   * `load_file` result is non-empty, that file's whole document list, in
   * listing order (nested, not concatenated). `load_file` never raises, so
   * the loop's `except` clause is never taken.
   */
  method LoadDir(dir: string, files: seq<string>, loaders: Loaders, p: LoadParams := DefaultParams)
    returns (docs: seq<seq<Document>>)
    ensures docs == Appended(PerFile(files, LoadFileIn(dir, p, loaders)))
  {
    ghost var rs := PerFile(files, LoadFileIn(dir, p, loaders));
    docs := [];
    var i := 0;
    while i < |files|
      invariant 0 <= i <= |files|
      invariant docs == Appended(rs[..i])
    {
      var temp := LoadFile(Join(dir, files[i]), loaders, p);
      assert temp == rs[i];
      AppendedStep(rs, i);
      if |temp| > 0 {
        docs := docs + [temp];
      }
      i := i + 1;
    }
    assert rs[..|files|] == rs;
  }

  /**
   * `load_every_file`: the same walk with `load_any_file` as the per-file
   * loader; one entry per file the API returned documents for.
   */
  method LoadEveryFile(dir: string, files: seq<string>, key: Option<string>, api: ApiLoader)
    returns (docs: seq<seq<Document>>)
    ensures docs == Appended(PerFile(files, LoadAnyFileIn(dir, key, api)))
  {
    ghost var rs := PerFile(files, LoadAnyFileIn(dir, key, api));
    docs := [];
    var i := 0;
    while i < |files|
      invariant 0 <= i <= |files|
      invariant docs == Appended(rs[..i])
    {
      var temp := LoadAnyFile(Join(dir, files[i]), key, api);
      assert temp == rs[i];
      AppendedStep(rs, i);
      if |temp| > 0 {
        docs := docs + [temp];
      }
      i := i + 1;
    }
    assert rs[..|files|] == rs;
  }

  /**
   * A listed file with an unsupported extension contributes nothing:
   * removing it from the listing leaves the result of `load_dir` unchanged.
   */
  lemma LoadDirSkipsUnsupported(dir: string, a: seq<string>, name: string, b: seq<string>, p: LoadParams, loaders: Loaders)
    requires '/' !in name
    requires KindOf(name).None?
    ensures Appended(PerFile(a + [name] + b, LoadFileIn(dir, p, loaders)))
         == Appended(PerFile(a + b, LoadFileIn(dir, p, loaders)))
  {
    JoinedNameKeepsExtension(dir, name);
    assert LoadFileIn(dir, p, loaders)(name) == [];
    AppendedSkipsEmpty(a, name, b, LoadFileIn(dir, p, loaders));
  }

  /**
   * The shape of `load_dir`'s result: at most one entry per listed file,
   * each a non-empty document list that `load_file` returned for some
   * listed file; if every file loads, exactly one entry per file, in order.
   */
  lemma LoadDirShape(dir: string, files: seq<string>, p: LoadParams, loaders: Loaders)
    ensures var docs := Appended(PerFile(files, LoadFileIn(dir, p, loaders)));
            && |docs| <= |files|
            && (forall k :: 0 <= k < |docs| ==>
                  |docs[k]| > 0 && exists j :: 0 <= j < |files| && docs[k] == LoadFile(Join(dir, files[j]), loaders, p))
            && ((forall j :: 0 <= j < |files| ==> |LoadFile(Join(dir, files[j]), loaders, p)| > 0) ==>
                  docs == PerFile(files, LoadFileIn(dir, p, loaders)))
  {
    AppendedShape(files, LoadFileIn(dir, p, loaders));
  }
}
