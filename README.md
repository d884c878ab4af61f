# UTBK RAG Tutor — a Dafny model of its own logic

The UTBK RAG Tutor is a small retrieval-augmented tutoring app. It reads PDF study
material into a vector index. For a question it retrieves passages and asks a hosted chat
model to solve it. For a topic it asks the model to generate one multiple-choice item as JSON.
Almost all of the work is done by libraries (PDF loader, text splitter, embeddings, vector
store, chat API, web UI). This project models the deterministic logic the app adds around them:

- **Context and prompt assembly** (`rag.py`, module `Rag`). `format_context` renders each
  retrieved document as `[source p.page] text` and joins the parts with `"\n\n---\n\n"`.
  `solve_question` and `generate_item` build a two-message prompt (a fixed system instruction,
  then a user message wrapping the query or topic and the context). They return the model's
  text together with the retrieved documents. The retriever and the chat model are
  function-typed parameters.
- **Page tagging during ingestion** (`ingest.py`, module `Ingest`). The loop of `build_store`
  keeps names whose lower-cased form ends in `.pdf` and loads `data/<name>`. It sets `source`
  to the bare name and `page` to its existing value or else `i + 1`. It concatenates all pages
  in listing order. The directory listing and the PDF loader are parameters.
- **UI-side checks** (`app.py`, module `App`). The `strip()` blank-input guards of both tabs
  decide whether the pipeline runs. The consistency check of a generated item follows
  Python's evaluation order and gives valid, inconsistent, or the error branch.
  `json.loads` is a parameter returning `None` when it raises.
- Supporting modules: `Options`; `Decimal` (Python's `str(int)`, with a parser as its inverse);
  `PyText` (Python's `join`, `strip`, `lower`, `endswith` and substring `in`); `Documents`
  (metadata values, `dict.get`, `str()` of a value); `Prompts` (the two system instructions,
  kept character for character).

`FormatContext` and `CollectPages` are methods with loops, because the source builds
`parts` and `docs` step by step. Each is proved equal to a specification function
(`FormattedContext` and `Collected`), and the functions carry the properties as lemmas.

Two places where the program checks less than its own text suggests:

- The generation instruction asks for five labelled options and a key among them
  (prompts.py:20-21, 25). The check at app.py:55 only tests that `options` is a list and that
  `answer_key` is a substring of the options joined with no separator. Neither the option count
  nor the key's label is tested (`App.CheckItemIgnoresShape`).
- ingest.py:22 sets `page` to `i + 1` only when the loader gave none. A page that already has a
  `page` keeps it (`Ingest.TagPage`). PyPDFLoader normally supplies a 0-based `page`, so in
  practice the loader's number is kept.

## Model

| member | source | states |
|---|---|---|
| Decimal.NatToString | rag.py:29 | the rendering of a page number is a non-empty run of decimal digits, with no leading zero; zero renders as exactly `0` |
| Decimal.NatToStringValue | rag.py:29 | the digits read back as the number rendered |
| Decimal.IntToString | rag.py:29 | `str(int)`: the digits of a non-negative number, or a minus sign followed by the digits of the magnitude |
| Decimal.IntToStringRoundTrip | rag.py:29 | parsing the rendering gives the integer back, so distinct page numbers render differently |
| Decimal.IntToStringInjective | rag.py:29 | two integers with the same rendering are equal |
| Documents.Get | rag.py:27-28 | `metadata.get(key)` is the stored value when the key is present and `None` when it is absent |
| Documents.GetOr | ingest.py:22 | `metadata.get(key, default)` is the stored value when the key is present and the default otherwise |
| Documents.Render | rag.py:29 | `str()` of a metadata value: `None` as `None`, a string as itself, a boolean as `True`/`False`, an integer as a numeral that parses back to it |
| PyText.JoinStartsWithFirst | rag.py:30 | a join begins with its first part |
| PyText.JoinSplit | rag.py:30 | cutting the parts at k cuts the joined string at exactly one separator |
| PyText.JoinAt | rag.py:30 | part k sits between the join of the parts before it and the join of the parts after it, one separator on each side |
| PyText.JoinLength | rag.py:30 | n parts joined have the parts' total length plus n - 1 separators |
| PyText.JoinChars | app.py:55 | every character of a join comes from a part or the separator |
| PyText.LStrip | app.py:28 | lstrip removes exactly the leading whitespace and leaves a suffix not starting with whitespace |
| PyText.RStrip | app.py:28 | rstrip removes exactly the trailing whitespace and leaves a prefix not ending with whitespace |
| PyText.Strip | app.py:28 | `s.strip()` is a slice of s with only whitespace before and after it, and when non-empty starts and ends with a non-whitespace character |
| PyText.StripEmptyIff | app.py:28 | `s.strip()` is empty exactly when every character of s is whitespace |
| PyText.Lower | ingest.py:16 | keeps the length, maps A-Z to a-z and leaves every other character unchanged |
| PyText.IsSubstring | app.py:55 | `needle in hay` can hold only when the needle is no longer than the haystack |
| PyText.OccursInConcat | app.py:55 | the middle piece of a concatenation is a substring of it |
| PyText.SubstringIff | app.py:55 | `needle in hay` holds exactly when hay is some a + needle + b |
| PyText.EmptyIsSubstring | app.py:55 | `"" in s` holds for every string |
| PyText.OneCharSubstring | app.py:55 | a one-character needle is `in` a string exactly when the character occurs in it |
| Prompts.SolveSysHasFallback | prompts.py:1-12 | the solve instruction contains `Konteks belum memadai.` and ends with it, quoted |
| Rag.Tag | rag.py:27-29 | a tag begins with `[` and ends with the document's text unchanged |
| Rag.TagLayout | rag.py:27-29 | a tag is `[`, the rendered source, ` p.`, the rendered page, `] ` and the text, each at its offset |
| Rag.Parts | rag.py:25-29 | one part per retrieved document |
| Rag.FormatContext | rag.py:24-30 | the loop builds the parts in retrieval order and returns their separator join; empty exactly for no documents |
| Rag.ContextEmptyIff | rag.py:25-30 | the context is the empty string exactly when no document was retrieved |
| Rag.SingleDocumentContext | rag.py:30 | one document yields its tag with no separator |
| Rag.PartsSlices | rag.py:26-29 | the parts of a slice of the documents are the slice of the parts |
| Rag.ContextSplit | rag.py:30 | splitting the documents at k splits the context at one separator |
| Rag.ContextAt | rag.py:26-30 | document k's tag sits between the context of the documents before it and those after it, one separator on each side; nothing is reordered, dropped or merged |
| Rag.ContextUncons | rag.py:26-30 | the context is the first tag, then a separator and the context of the rest |
| Rag.ContextLength | rag.py:30 | n documents give their tags' total length plus n - 1 separators |
| Rag.MissingKeysRenderNone | rag.py:27-29 | a missing `source` or `page` key renders as `None` inside the tag and does not fail |
| Rag.Prompt | rag.py:35-46 | two messages; the system message is the instruction verbatim; the user message is the lead, the query, the context header and the context, each recoverable at its offset |
| Rag.SolveMessages | rag.py:35-38 | two messages: the system message is `SOLVE_SYS` verbatim; the user message is exactly `[SOAL]: `, the query, `\n\n[KONTEKS]:\n` and the context, each at its offset |
| Rag.GenerateMessages | rag.py:44-47 | two messages: the system message is `GEN_SYS` verbatim; the user message is exactly `Topik: `, the topic, `\n\n[KONTEKS]:\n` and the context, each at its offset |
| Rag.SolveQuestion | rag.py:32-39 | returns the model's reply to the solve messages, with exactly the documents the retriever returned for the query |
| Rag.GenerateItem | rag.py:41-48 | returns the model's reply to the generate messages, with exactly the documents the retriever returned for the topic |
| Rag.SolvePromptCarriesFallback | rag.py:36 | whatever is retrieved, the solve system message contains the fallback sentence verbatim |
| Rag.EmptyRetrievalPrompt | rag.py:37 | with no documents, the user message ends right after `[KONTEKS]:` and a newline (both paths) |
| Rag.PromptInjective | rag.py:37 | equal prompts for equal-length subjects have equal subjects and equal contexts |
| Ingest.PathOf | ingest.py:17 | the loader path ends with the bare name and is longer than it |
| Ingest.IsPdfName | ingest.py:16 | an accepted name has at least four characters with `.` fourth from the end; names ending in `.pdf` or `.PDF` are accepted |
| Ingest.PdfNameIff | ingest.py:16 | a name is accepted exactly when its last four characters are `.pdf` in any letter case |
| Ingest.PdfNameExamples | ingest.py:16 | `X.PDF` and `kimia.Pdf` are accepted; `a.pdf.txt` and `pdf` are rejected |
| Ingest.TagPage | ingest.py:20-22 | page text unchanged; `source` is the bare name; `page` kept if present, else i + 1; every other key unchanged; no key lost |
| Ingest.TaggedPages | ingest.py:20-22 | tagging keeps the number of pages |
| Ingest.CollectPages | ingest.py:13-24 | the nested loops produce exactly the collected list: each accepted file's tagged pages, in listing order |
| Ingest.TagFilePages | ingest.py:20-22 | the inner loop updates each page in place and yields exactly the tagged pages of the file, in page order |
| Ingest.ConcatPagesAppend | ingest.py:15-24 | concatenating over a split listing concatenates the two results |
| Ingest.CollectedAppend | ingest.py:15-24 | collecting a listing in two halves gives the first half's pages followed by the second's |
| Ingest.CollectedAt | ingest.py:15-24 | a listed name's pages form one block between the pages of the names before and after it |
| Ingest.CollectedSingle | ingest.py:16-24 | a single name contributes its tagged pages if it is a PDF and nothing otherwise |
| Ingest.CollectedLength | ingest.py:24 | the collected length is the sum of the accepted files' page counts |
| Ingest.CollectedSources | ingest.py:17-21 | every collected page has a `source` equal to the bare name of a listed PDF |
| Ingest.LoaderSeesOnlyPdfs | ingest.py:16-19 | loaders that agree on the PDF paths give the same result; non-PDF names never reach the loader |
| App.IsBlank | app.py:28 | the guard `not q.strip()` holds exactly for whitespace-only input |
| App.JoinStrings | app.py:55 | `"".join(options)` succeeds exactly when every option is a string, and then adds no separator characters |
| App.CheckItem | app.py:53-58 | the decode error exactly when `json.loads` fails; AttributeError for a non-dict; valid only for a well-typed item |
| App.StringsOf | app.py:55 | the texts of the options, one per option |
| App.CheckItemValidIff | app.py:55-56 | valid iff a dict whose `options` is a list of strings, whose `answer_key` is a string, and whose key is a substring of the joined options |
| App.CheckItemInconsistentIff | app.py:55-56 | inconsistent iff a dict with missing or non-list `options` (short-circuit), or a well-typed item whose key does not occur |
| App.CheckItemErrorIff | app.py:53-58 | the error branch iff decoding fails, the value is not a dict, or the options list is not all strings or the key is missing or not a string |
| App.CheckItemOfItem | app.py:55 | for a dict of options and key: TypeError on a non-string option, else valid exactly when the key occurs in the joined options |
| App.ExampleOptionsTexts | app.py:55 | the example options are five strings |
| App.CheckItemKeyB | app.py:55 | with options `A) 1` … `E) 5`, key `B` is valid |
| App.CheckItemKeyF | app.py:55 | with the same options, key `F` is inconsistent |
| App.CheckItemEmptyKey | app.py:55 | an empty key is valid against any list of string options |
| App.CheckItemIgnoresShape | app.py:55 | two options and key `2` are valid: neither the count nor the label is checked |
| App.CheckItemFailureExamples | app.py:53-58 | missing options: inconsistent; top-level list: AttributeError; a numeric option: TypeError; undecodable text: decode error |
| App.SolveTab | app.py:27-32 | a warning exactly for whitespace-only questions; otherwise the model's answer and the retrieved documents for the unstripped question |
| App.GenerateTab | app.py:42-56 | a warning exactly for whitespace-only topics; otherwise the generated text, its check verdict and the retrieved documents |
| App.BlankQuestionSkipsPipeline | app.py:28-32 | for a blank question the result does not depend on the retriever or the model, so the pipeline is not used |
| App.BlankTopicSkipsPipeline | app.py:43-47 | for a blank topic the result does not depend on the retriever, the model or the parser |

## Left out

- Streamlit page setup, tabs, buttons, spinners and the rendering of answers, JSON and source
  lists: presentation only. The tab functions start from "the button was pressed".
- Environment and API-key warnings and `.env` loading: configuration I/O.
- Chroma, OpenAI embeddings and the similarity search: foreign library and network calls. The
  retriever is a function from query to documents, and its `k = 5` is opaque to it.
- `ChatOpenAI` and `llm.invoke`: a remote API, modelled as a function of the message list. The
  temperatures 0.2 and 0.4 are floats passed through and are not modelled. Errors are not
  modelled either.
- `ChatPromptTemplate` templating: the messages are modelled as literal `(role, text)` pairs.
  The library's treatment of `{` and `}`, including the braces in the generation
  instruction and any braces in a query or a document, is not modelled.
- `RecursiveCharacterTextSplitter`, embedding, persisting to the vector store and the final
  `print` of `build_store`: their algorithms are not part of this model. The model covers
  ingestion up to the collected page list.
- `os.listdir` (the listing is a parameter in its given order), PyPDFLoader text extraction (a
  function from path to pages) and load failures. Paths are joined POSIX-style as `data/<name>`.
- `Ingest.CollectPages`: models each page as a value; the in-place update of a shared metadata
  dict object (aliasing between the loader's list and `docs`) is not captured.
- `Decimal.IntToString`: renders integers of any size. CPython 3.11 and later raises ValueError
  when `str()` or an f-string converts an int of more than 4300 digits; that error path is not
  modelled, since page numbers never come near it.
- `PyText.Lower`: lower-cases only ASCII letters. No non-ASCII character lower-cases to `.`,
  `p`, `d` or `f`, so the `.pdf` test is unaffected.
- `json.loads` internals: a parameter returning `None` when it raises. JSON floats are not
  distinguished from integers (`App.Json`), because the check never looks at numbers.
- The text of the exception shown in the error message (`{e}`): the model keeps only the
  exception kind.
- Metadata values other than `None`, booleans, integers and strings (for instance floats)
  are not modelled.
