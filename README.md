# Document loading and splitting core of a RAG toolkit

This project models the part of the toolkit that decides, by itself, what happens to a file before any library parses it. The modules follow the source.

- `BlindFileLoader` (`src/components/doc_loader.py`) takes a path and routes it to one of seven `MultiFileLoader` methods. It decides by the lower-cased `os.path.splitext` extension of the path, forwards only the option that method takes, and turns every failure into `[]`.
  - `load_dir` walks a directory listing and appends each non-empty result. `load_every_file` does the same with the Unstructured API loader. Both give a nested list: one list of documents per file.
  - `load_any_file` returns `[]` when the API loader raises.
- `SpecificFileLoader` (same file) covers `pdf_load_file` and `json_load_file`.
  - Each returns `None` for a wrong extension.
  - Otherwise each builds its `kargs` dictionary by conditional insertion, builds the LangChain loader, and calls `load()`, `lazy_load()` or `aload()` according to `mode`. Any other mode raises `ValueError`.
  - `pdf_load_dir` and `json_load_dir` filter a listing by suffix, catch each file's exception, and extend one flat list.
- `Splitter` (`src/components/doc_splitter.py`) covers `split_docs`.
  - Each of five options is forwarded to `SpacyTextSplitter` only when it is truthy. `strip_whitespace` is always forwarded.
  - Mode `"text"`, `"doc"` or `"docs"` picks `split_text(target)`, `split_documents([target])` or `split_documents(target)`. Any other mode returns `None`.

Supporting modules:
- `Python` holds `Option`, an `Outcome` for "returned or raised", LangChain `Document`, keyword-argument values, and Python truthiness of optional arguments.
- `PosixPath` holds `str.lower`, `os.path.splitext` and `os.path.join` for `/`-separated paths.
  - `Splitext` follows CPython's `_splitext`: the last dot after the last separator, unless only dots precede it in that component.
  - `IsExtensionAt` is an independent description of where an extension starts. `ExtensionCharacterised` proves the two agree in both directions.
- `BatchFold` holds the two loop shapes of the directory walks as functions of the per-file results:
  - `Appended` for `if temp: docs.append(temp)`;
  - `Extended` for `if temp: docs.extend(temp)`.

  Each walk is a `while` loop proved equal to one of them. The lemmas about the functions state order, skipping and failure isolation.

Every library the core calls is a function-valued parameter of the operation that calls it:
- each `MultiFileLoader` method;
- `UnstructuredLoader`;
- `PDFMinerLoader` and `JSONLoader`, for both construction and `load()`;
- `LLMImageBlobParser`/`ChatOpenAI`;
- `SpacyTextSplitter`.

The parameter maps the keyword arguments the library receives to `Returned(value)` or `Raised(message)`. The directory listing `os.listdir(dir)` is an input sequence.

Three behaviours of the code worth noting:
- `load_dir` *appends* (`src/components/doc_loader.py:307-308`), so its result is a list of per-file document lists, not the one flat list its `List[Document]` annotation (`src/components/doc_loader.py:284`, `:294`) announces. `BatchFold.FlattenAppended` proves that flattening the nested result gives what extending would have given.
- `load_file` on an unsupported extension returns `[]`. The `raise ValueError` of its `else` branch (`src/components/doc_loader.py:271-273`) is caught by its own `except` (`:274-276`), so single-file loading never raises on an unknown extension.
- Only `.json` routes to the JSON loader.

Every default of the modelled Python signatures is a default-valued parameter of the Dafny operation:
- `split_docs` is in mode `"docs"` with `strip_whitespace=True`;
- `load_file` and `load_dir` use `encoding="utf-8"`, `mode="single"` and no password;
- `pdf_load_file`, `json_load_file`, `pdf_load_dir` and `json_load_dir` use mode `"default"` and their keyword defaults.

The constants `DefaultParams`, `DefaultPdfParams`, `DefaultPdfDirParams`, `DefaultJsonParams` and `DefaultSplitParams` hold them. Lemmas state what a call with the defaults hands the library.

## Model

| member | source | states |
|---|---|---|
| PosixPath.Lower | src/components/doc_loader.py:254 | lower-casing keeps the length of the path |
| PosixPath.LowerChars | src/components/doc_loader.py:254 | at every position an ASCII upper-case letter becomes its lower-case letter, every other character is kept, and no upper-case letter is left |
| PosixPath.Splitext | src/components/doc_loader.py:254 | `splitext` splits the path into root plus extension; they concatenate back to the path, and the extension is empty or starts with a dot |
| PosixPath.ExtensionCharacterised | src/components/doc_loader.py:254 | the extension is non-empty iff some dot has no dot or `/` after it and a non-dot character before it in the same component; it then runs from that dot to the end |
| PosixPath.ExtOfLower | src/components/doc_loader.py:254 | the extension of the lower-cased path is the lower-cased extension of the path |
| PosixPath.Join | src/components/doc_loader.py:299 | an absolute name replaces the directory |
| PosixPath.JoinShape | src/components/doc_loader.py:299 | the joined path ends with the name; for a relative name it starts with the directory, and a non-empty directory is followed by a `/` before the name |
| PosixPath.ExtOfJoin | src/components/doc_loader.py:299 | joining a directory and a listed name (no `/` in it) keeps the name's extension |
| PosixPath.JoinedNameKeepsExtension | src/components/doc_loader.py:416-418 | after lower-casing, the joined path and the bare listed name have the same extension, so the name filter of the directory walks and the path test of the per-file loader agree |
| BlindFileLoader.Route | src/components/doc_loader.py:257-273 | the if/elif chain routes an extension exactly when it is a key of the nine-entry table (`.txt .csv .json .pdf .docx .xlsx .xls .md .markdown`), to that entry's loader kind |
| BlindFileLoader.Forward | src/components/doc_loader.py:257-270 | the chosen loader gets the original path and only its own option: `encoding` iff text, `password` iff PDF, `mode` iff docx/excel/markdown, each with the caller's value; CSV and JSON get no option |
| BlindFileLoader.DefaultsForwarded | src/components/doc_loader.py:235-240 | with the defaults of `load_file`, text files get `encoding="utf-8"`, PDFs `password=None`, docx, Excel and Markdown files `mode="single"`, CSV and JSON nothing |
| BlindFileLoader.Dispatch | src/components/doc_loader.py:254-273 | an unknown lower-cased extension raises; a known one gives the routed loader's outcome on the forwarded call |
| BlindFileLoader.LoadFile | src/components/doc_loader.py:254-276 | `load_file` never raises: `[]` for an unknown extension or a raising loader, otherwise the loader's documents |
| BlindFileLoader.KindOfLowerExtension | src/components/doc_loader.py:254 | routing depends only on the lower-cased extension, and a path routes like its lower-cased form |
| BlindFileLoader.UpperCasePdfRoutesAsPdf | src/components/doc_loader.py:254-264 | "A.PDF" routes to the PDF loader |
| BlindFileLoader.DotPdfIsUnsupported | src/components/doc_loader.py:254 | a file named ".pdf" has no extension and is unsupported |
| BlindFileLoader.BackupOfPdfIsUnsupported | src/components/doc_loader.py:254 | "x.pdf.bak" has extension ".bak" and is unsupported |
| BlindFileLoader.PdfDirectoryIsNotPdf | src/components/doc_loader.py:254 | a suffix of a directory component ("docs.pdf/readme") is not the file's extension |
| BlindFileLoader.LoadAnyFile | src/components/doc_loader.py:196-206 | `load_any_file` returns the API loader's documents, or `[]` when it raises |
| BlindFileLoader.LoadDir | src/components/doc_loader.py:296-311 | the loop over the listing ends with the appending fold of the per-file `load_file` results, in listing order |
| BlindFileLoader.LoadEveryFile | src/components/doc_loader.py:222-232 | the loop ends with the appending fold of the per-file `load_any_file` results, in listing order |
| BlindFileLoader.LoadDirSkipsUnsupported | src/components/doc_loader.py:296-311 | removing a listed name with an unsupported extension from the listing leaves the `load_dir` result unchanged |
| BlindFileLoader.LoadDirShape | src/components/doc_loader.py:296-311 | `load_dir` has at most one entry per listed file, each a non-empty whole document list `load_file` returned for a listed file; if every file yields documents, exactly one entry per file in order |
| BatchFold.AppendedStep | src/components/doc_loader.py:307-308 | one more file appends its result to the nested list exactly when the result is non-empty; `Appended` is this fold |
| BatchFold.ExtendedStep | src/components/doc_loader.py:430-431 | one more file extends the flat list by its result exactly when the result is non-empty; `Extended` is this fold |
| BatchFold.AppendedEntries | src/components/doc_loader.py:307-308 | every entry of the appending fold is non-empty and equal to one of the per-file results |
| BatchFold.AppendedLength | src/components/doc_loader.py:307-308 | the appending fold has no more entries than there are files |
| BatchFold.AppendedAllNonEmpty | src/components/doc_loader.py:307-308 | the appending fold has one entry per file iff every per-file result is non-empty, and is then the list of results itself |
| BatchFold.AppendedConcat | src/components/doc_loader.py:298-308 | the appending fold works file by file: the entries for `a + b` are those for `a` followed by those for `b` |
| BatchFold.ExtendedConcat | src/components/doc_loader.py:415-431 | the extending fold works file by file: the documents for `a + b` are those for `a` followed by those for `b` |
| BatchFold.ExtendedIsFlatten | src/components/doc_loader.py:430-431 | the `if temp:` test does not change what extending yields: it is the plain concatenation of all per-file results |
| BatchFold.FlattenAppended | src/components/doc_loader.py:307-308 | concatenating the nested result of appending gives the flat result of extending |
| BatchFold.AppendedSkipsEmpty | src/components/doc_loader.py:307-308 | a file with an empty result contributes no entry: the listing without it gives the same nested result |
| BatchFold.ExtendedSkipsEmpty | src/components/doc_loader.py:430-431 | a file with an empty result contributes no document: the listing without it gives the same flat result |
| BatchFold.AppendedEntriesAreLoaded | src/components/doc_loader.py:222-232 | each entry of an appending walk is the non-empty result of some listed file |
| BatchFold.AppendedAllLoaded | src/components/doc_loader.py:222-232 | if every listed file yields documents, the appending walk keeps every result in listing order |
| BatchFold.AppendedShape | src/components/doc_loader.py:222-232 | bound, entries and all-loaded case of an appending walk, stated over the listing |
| SpecificFileLoader.LoadMethod | src/components/doc_loader.py:376-384 | mode "default" gives `load()`'s documents or its exception, "lazy" and "async" give the lazy and awaitable tags, and any other mode raises |
| SpecificFileLoader.BuildAndLoad | src/components/doc_loader.py:367-384 | a loader constructor exception propagates; otherwise the result is the mode dispatch's; never `None` |
| SpecificFileLoader.PdfKargs | src/components/doc_loader.py:356-365 | `pages_delimiter` iff a truthy delimiter with load mode "single"; `images_parser` iff `include_img` and a truthy model; `images_inner_format` iff `include_img` and a truthy format; each with the caller's value; no other key; raises iff building the image parser raises |
| SpecificFileLoader.BuildPdfKargs | src/components/doc_loader.py:356-365 | the in-place insertions build exactly the dictionary `PdfKargs` describes |
| SpecificFileLoader.PdfLoaderArgs | src/components/doc_loader.py:367-374 | the `PDFMinerLoader` keywords are the five fixed ones with the caller's values plus every `kargs` entry with its value |
| SpecificFileLoader.PdfLoaderArgsForwarded | src/components/doc_loader.py:367-374 | `PDFMinerLoader` gets the path, headers, password and mode as given, `extract_images` equal to `include_img`, and the optional keys iff their conditions hold, each with its `kargs` value; no keyword is passed twice |
| SpecificFileLoader.PdfDefaultCall | src/components/doc_loader.py:319-329 | called with a ".pdf" path and every default, `pdf_load_file` builds no `kargs`, hands `PDFMinerLoader` the path, no headers, no password, mode "single" and no images, and returns `load()`'s documents |
| SpecificFileLoader.PdfFileResult | src/components/doc_loader.py:351-384 | `None` for a non-".pdf" lower-cased extension; never `None` for ".pdf"; a ".pdf" path with a mode outside default/lazy/async raises; mode "default" yields documents |
| SpecificFileLoader.PdfLoadFile | src/components/doc_loader.py:351-384 | the statement-by-statement `pdf_load_file` returns or raises exactly what `PdfFileResult` gives |
| SpecificFileLoader.PdfLoadDir | src/components/doc_loader.py:413-434 | the loop ends with the in-order concatenation of what each listed name contributes: nothing for a non-PDF name or a raising file, the documents otherwise |
| SpecificFileLoader.PdfDirEntry | src/components/doc_loader.py:417-433 | a listed name contributes nothing when it is not a PDF or its load raises, and otherwise the documents its load returned |
| SpecificFileLoader.PdfDirDefaultsAreFileDefaults | src/components/doc_loader.py:387-393 | the defaults of `pdf_load_dir`, forwarded to `pdf_load_file`, are exactly the defaults of `pdf_load_file` |
| SpecificFileLoader.PdfDirAttemptsAreLoaded | src/components/doc_loader.py:416-429 | a name that passes the directory walk's ".pdf" test is never turned down by `pdf_load_file` |
| SpecificFileLoader.PdfDirSkipsNonPdf | src/components/doc_loader.py:418-420 | a listed non-PDF name can be removed without changing the `pdf_load_dir` result |
| SpecificFileLoader.PdfDirIsolatesFailures | src/components/doc_loader.py:421-433 | with one raising file, `pdf_load_dir` returns the documents of the files before it followed by those of the files after it |
| SpecificFileLoader.JsonKargs | src/components/doc_loader.py:476-486 | `jq_schema` always, the caller's if truthy else ".[]"; `content_key` iff truthy; `is_content_key_jq_parsable` (True) iff a truthy content key and a true flag; `metadata_func` iff given; no other key |
| SpecificFileLoader.BuildJsonKargs | src/components/doc_loader.py:476-486 | the in-place insertions build exactly the dictionary `JsonKargs` describes |
| SpecificFileLoader.JsonLoaderArgs | src/components/doc_loader.py:488-493 | the `JSONLoader` keywords are the three fixed ones with the caller's values plus every `kargs` entry with its value |
| SpecificFileLoader.JsonLoaderArgsForwarded | src/components/doc_loader.py:488-493 | `JSONLoader` gets the path, `text_content` and `json_lines` as given, `jq_schema` always, the parsable flag only with a content key, each with its `kargs` value; no keyword is passed twice |
| SpecificFileLoader.JsonDefaultCall | src/components/doc_loader.py:437-446 | called with a ".json" path and every default, `json_load_file` hands `JSONLoader` the path, `jq_schema=".[]"` and both flags false, and returns `load()`'s documents |
| SpecificFileLoader.JsonFileResult | src/components/doc_loader.py:471-503 | `None` for a non-".json" lower-cased extension; never `None` for ".json"; a ".json" path with a mode outside default/lazy/async raises; mode "default" yields documents |
| SpecificFileLoader.JsonLoadFile | src/components/doc_loader.py:471-503 | the statement-by-statement `json_load_file` returns or raises exactly what `JsonFileResult` gives |
| SpecificFileLoader.JsonLoadDir | src/components/doc_loader.py:532-554 | the loop ends with the in-order concatenation of what each listed name contributes: nothing for a non-JSON name or a raising file, the documents otherwise |
| SpecificFileLoader.JsonDirEntry | src/components/doc_loader.py:536-553 | a listed name contributes nothing when it is not a JSON file or its load raises, and otherwise the documents its load returned |
| SpecificFileLoader.JsonDirAttemptsAreLoaded | src/components/doc_loader.py:535-549 | a name that passes the directory walk's ".json" test is never turned down by `json_load_file` |
| SpecificFileLoader.JsonDirSkipsNonJson | src/components/doc_loader.py:537-539 | a listed non-JSON name can be removed without changing the `json_load_dir` result |
| SpecificFileLoader.JsonDirIsolatesFailures | src/components/doc_loader.py:540-553 | with one raising file, `json_load_dir` returns the documents of the files before it followed by those of the files after it |
| Splitter.SplitterKargs | src/components/doc_splitter.py:50-60 | each of `separator`, `pipeline`, `max_length`, `chunk_size`, `chunk_overlap` is present iff truthy, with the caller's value; no other key |
| Splitter.BuildSplitterKargs | src/components/doc_splitter.py:50-60 | the five in-place insertions build exactly the dictionary `SplitterKargs` describes |
| Splitter.SplitterArgs | src/components/doc_splitter.py:61-64 | `SpacyTextSplitter` gets `strip_whitespace` with the caller's value plus every `kargs` entry with its value |
| Splitter.SplitterArgsForwarded | src/components/doc_splitter.py:61-64 | `strip_whitespace` always reaches `SpacyTextSplitter` with the caller's value, beside exactly the `kargs` keys and their values, with no clash |
| Splitter.DefaultSplitterArgs | src/components/doc_splitter.py:20-25 | with every option left at its default, the splitter gets `strip_whitespace=True` and nothing else |
| Splitter.ZeroSizesAreDropped | src/components/doc_splitter.py:55-60 | a zero `chunk_size`, `chunk_overlap` or `max_length` builds the same splitter as leaving it out, so the library default applies |
| Splitter.SplitOutcome | src/components/doc_splitter.py:17-70 | a splitter constructor exception propagates whatever the mode; then "text" gives `split_text(target)`, "doc" gives `split_documents([target])`, "docs" (the default) gives `split_documents(target)`, and any other mode gives `None` without a split call |
| Splitter.DefaultModeIsDocs | src/components/doc_splitter.py:19-25 | called without a mode, `split_docs` splits the target itself with `split_documents`; with every default, the splitter gets only `strip_whitespace=True` |
| Splitter.SplitDocs | src/components/doc_splitter.py:50-70 | the statement-by-statement `split_docs`, called with or without a mode and options, returns or raises exactly what `SplitOutcome` gives |

## Left out

- Parsing is not modelled. The text, CSV, JSON, PDF, docx, Excel, Markdown, PDFMiner, JSON, Unstructured and spaCy libraries are opaque function parameters.
- Network calls are not modelled: the Unstructured API and the `ChatOpenAI` image captioning.
- `print` logging is left out.
- Environment-variable defaults (`UNSTRUCTURED_API_KEY`) are left out. The key is an explicit `Option<string>` argument.
- `os.listdir` is not modelled. The listing is an input sequence, and a missing directory, which raises, is not covered.
- `PosixPath.Lower` lower-cases ASCII `A`-`Z` only. Python's `str.lower` also folds other Unicode letters.
- `PosixPath.Splitext` and `PosixPath.Join` use the POSIX `/` separator only. `Join` takes two arguments, as every call site does.
- `BlindFileLoader.LoadAnyFile` takes one path. The list-of-paths form of the `file` argument is never used by `load_every_file`.
- The `except` clauses of `load_dir` and `load_every_file` are not modelled separately. `load_file` and `load_any_file` catch every exception of their loaders, so the outer `except` sees only a failure of the inner handler's `print`. The file then contributes nothing, which is also what the model gives, so the result is the same.
- Lazy and async results (`lazy_load()`, `aload()`) are modelled only as tags carrying the loader's arguments. The directory walks always call mode "default", so they see documents only.
- Exception messages are plain strings in English. No property depends on their text.
- src/components/vector_db.py, src/components/embeddings.py, demo.py and src/components/__init__.py are not part of this model. They are thin wrappers over Chroma, HuggingFace downloads and LLM chains.
