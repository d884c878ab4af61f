/**
 * Context and prompt assembly of the retrieval-augmented tutor. The retriever
 * (a similarity search returning documents for a query) and the chat model
 * (a function of the message list) are parameters.
 */
module Rag {
  import opened PyText
  import opened Documents
  import opened Prompts

  /** The separator placed between two rendered documents. */
  const SEPARATOR: string := "\n\n---\n\n"

  /** `f"[{src} p.{pg}] {d.page_content}"` with `src`, `pg` read by `metadata.get`. */
  function Tag(d: Document): (t: string)
    ensures |t| > |d.pageContent|
    ensures t[0] == '['
    ensures t[|t| - |d.pageContent|..] == d.pageContent
  {
    "[" + Render(Get(d.metadata, "source")) + " p." + Render(Get(d.metadata, "page")) + "] " + d.pageContent
  }

  /**
   * The layout of a tag: `[`, the rendered source, ` p.`, the rendered page,
   * `] ` and the page text, each at its offset.
   */
  lemma TagLayout(d: Document)
    ensures var src := Render(Get(d.metadata, "source"));
            var pg := Render(Get(d.metadata, "page"));
            var t := Tag(d);
            |t| == 6 + |src| + |pg| + |d.pageContent| &&
            t[..1] == "[" && t[1..1 + |src|] == src &&
            t[1 + |src|..4 + |src|] == " p." &&
            t[4 + |src|..4 + |src| + |pg|] == pg &&
            t[4 + |src| + |pg|..6 + |src| + |pg|] == "] " &&
            t[6 + |src| + |pg|..] == d.pageContent
  {
  }

  /** The rendered parts, one per document, in retrieval order. */
  function Parts(docs: seq<Document>): (parts: seq<string>)
    ensures |parts| == |docs|
  {
    seq(|docs|, i requires 0 <= i < |docs| => Tag(docs[i]))
  }

  /** The context block: the parts joined by the separator. */
  function FormattedContext(docs: seq<Document>): string {
    Join(SEPARATOR, Parts(docs))
  }

  /** `format_context(docs)`. */
  method FormatContext(docs: seq<Document>) returns (context: string)
    ensures context == FormattedContext(docs)
    ensures context == "" <==> docs == []
  {
    var parts: seq<string> := [];
    for i := 0 to |docs|
      invariant |parts| == i
      invariant forall k :: 0 <= k < i ==> parts[k] == Tag(docs[k])
    {
      var d := docs[i];
      var src := Get(d.metadata, "source");
      var pg := Get(d.metadata, "page");
      parts := parts + ["[" + Render(src) + " p." + Render(pg) + "] " + d.pageContent];
    }
    assert parts == Parts(docs);
    context := Join(SEPARATOR, parts);
    ContextEmptyIff(docs);
  }

  /** The context is empty exactly when no document was retrieved. */
  lemma ContextEmptyIff(docs: seq<Document>)
    ensures FormattedContext(docs) == "" <==> docs == []
  {
    if docs != [] {
      JoinStartsWithFirst(SEPARATOR, Parts(docs));
    }
  }

  /** One document gives its tag and no separator. */
  lemma SingleDocumentContext(d: Document)
    ensures FormattedContext([d]) == Tag(d)
  {
  }

  lemma PartsSlices(docs: seq<Document>, k: nat)
    requires k <= |docs|
    ensures Parts(docs)[..k] == Parts(docs[..k])
    ensures Parts(docs)[k..] == Parts(docs[k..])
  {
  }

  /** Cutting the retrieved list at `k` cuts the context at exactly one separator. */
  lemma ContextSplit(docs: seq<Document>, k: nat)
    requires 0 < k < |docs|
    ensures FormattedContext(docs) == FormattedContext(docs[..k]) + SEPARATOR + FormattedContext(docs[k..])
  {
    JoinSplit(SEPARATOR, Parts(docs), k);
    PartsSlices(docs, k);
  }

  /**
   * Document `k` is rendered in position `k`: after the context of the documents
   * before it and a separator, and followed by a separator and the context of the
   * documents after it. Nothing is dropped, reordered or merged.
   */
  lemma ContextAt(docs: seq<Document>, k: nat)
    requires k < |docs|
    ensures FormattedContext(docs) ==
      (if k == 0 then "" else FormattedContext(docs[..k]) + SEPARATOR)
      + Tag(docs[k])
      + (if k == |docs| - 1 then "" else SEPARATOR + FormattedContext(docs[k + 1..]))
  {
    JoinAt(SEPARATOR, Parts(docs), k);
    PartsSlices(docs, k);
    PartsSlices(docs, k + 1);
  }

  lemma ContextUncons(docs: seq<Document>)
    requires |docs| >= 1
    ensures FormattedContext(docs) ==
      Tag(docs[0]) + (if |docs| == 1 then "" else SEPARATOR + FormattedContext(docs[1..]))
  {
    PartsSlices(docs, 1);
  }

  /** n documents give their n tags plus n - 1 separators. */
  lemma ContextLength(docs: seq<Document>)
    requires |docs| >= 1
    ensures |FormattedContext(docs)| == TotalLength(Parts(docs)) + (|docs| - 1) * |SEPARATOR|
  {
    JoinLength(SEPARATOR, Parts(docs));
  }

  /** A missing `source` or `page` key is rendered as `None` inside the tag. */
  lemma MissingKeysRenderNone(d: Document)
    ensures "source" !in d.metadata ==>
      Tag(d) == "[None p." + Render(Get(d.metadata, "page")) + "] " + d.pageContent
    ensures "page" !in d.metadata ==>
      Tag(d) == "[" + Render(Get(d.metadata, "source")) + " p.None] " + d.pageContent
  {
  }

  datatype Role = System | User

  /** A role-tagged chat message, taken literally. */
  datatype Message = Message(role: Role, content: string)

  /** What both entry points return: the model's text and the documents used. */
  datatype Reply = Reply(content: string, docs: seq<Document>)

  const QUESTION_LEAD: string := "[SOAL]: "
  const TOPIC_LEAD: string := "Topik: "
  const CONTEXT_LEAD: string := "\n\n[KONTEKS]:\n"

  /** The system instruction followed by `lead + subject + CONTEXT_LEAD + context`. */
  function Prompt(system: string, lead: string, subject: string, docs: seq<Document>): (m: seq<Message>)
    ensures |m| == 2 && m[0].role == System && m[1].role == User
    ensures m[0].content == system
    ensures var u := m[1].content;
      && |u| == |lead| + |subject| + |CONTEXT_LEAD| + |FormattedContext(docs)|
      && u[..|lead|] == lead
      && u[|lead|..|lead| + |subject|] == subject
      && u[|lead| + |subject|..|lead| + |subject| + |CONTEXT_LEAD|] == CONTEXT_LEAD
      && u[|lead| + |subject| + |CONTEXT_LEAD|..] == FormattedContext(docs)
  {
    var u := lead + subject + CONTEXT_LEAD + FormattedContext(docs);
    assert u[|lead| + |subject| + |CONTEXT_LEAD|..] == FormattedContext(docs);
    [Message(System, system), Message(User, u)]
  }

  /** The messages `solve_question` sends for `query` and the retrieved `docs`. */
  function SolveMessages(query: string, docs: seq<Document>): (m: seq<Message>)
    ensures |m| == 2 && m[0] == Message(System, SOLVE_SYS) && m[1].role == User
    ensures var u, n := m[1].content, |QUESTION_LEAD| + |query|;
      && |u| == n + |CONTEXT_LEAD| + |FormattedContext(docs)|
      && u[..|QUESTION_LEAD|] == "[SOAL]: "
      && u[|QUESTION_LEAD|..n] == query
      && u[n..n + |CONTEXT_LEAD|] == "\n\n[KONTEKS]:\n"
      && u[n + |CONTEXT_LEAD|..] == FormattedContext(docs)
  {
    Prompt(SOLVE_SYS, QUESTION_LEAD, query, docs)
  }

  /** The messages `generate_item` sends for `topic` and the retrieved `docs`. */
  function GenerateMessages(topic: string, docs: seq<Document>): (m: seq<Message>)
    ensures |m| == 2 && m[0] == Message(System, GEN_SYS) && m[1].role == User
    ensures var u, n := m[1].content, |TOPIC_LEAD| + |topic|;
      && |u| == n + |CONTEXT_LEAD| + |FormattedContext(docs)|
      && u[..|TOPIC_LEAD|] == "Topik: "
      && u[|TOPIC_LEAD|..n] == topic
      && u[n..n + |CONTEXT_LEAD|] == "\n\n[KONTEKS]:\n"
      && u[n + |CONTEXT_LEAD|..] == FormattedContext(docs)
  {
    Prompt(GEN_SYS, TOPIC_LEAD, topic, docs)
  }

  /** `solve_question(query, retriever, llm)`. */
  function SolveQuestion(query: string, retriever: string -> seq<Document>, llm: seq<Message> -> string): (r: Reply)
    ensures r.docs == retriever(query)
    ensures r.content == llm(SolveMessages(query, r.docs))
  {
    var docs := retriever(query);
    Reply(llm(SolveMessages(query, docs)), docs)
  }

  /** `generate_item(topic_query, retriever, llm)`. */
  function GenerateItem(topic: string, retriever: string -> seq<Document>, llm: seq<Message> -> string): (r: Reply)
    ensures r.docs == retriever(topic)
    ensures r.content == llm(GenerateMessages(topic, r.docs))
  {
    var docs := retriever(topic);
    Reply(llm(GenerateMessages(topic, docs)), docs)
  }

  /** Whatever is retrieved, the solve prompt still carries the fallback sentence verbatim. */
  lemma SolvePromptCarriesFallback(query: string, docs: seq<Document>)
    ensures IsSubstring(FALLBACK, SolveMessages(query, docs)[0].content)
  {
    SolveSysHasFallback();
  }

  /** With nothing retrieved, the user message ends right after the context header. */
  lemma EmptyRetrievalPrompt(query: string)
    ensures SolveMessages(query, [])[1].content == QUESTION_LEAD + query + CONTEXT_LEAD
    ensures GenerateMessages(query, [])[1].content == TOPIC_LEAD + query + CONTEXT_LEAD
  {
    ContextEmptyIff([]);
  }

  /** Equal-length subjects give equal prompts only when the subjects and contexts are equal. */
  lemma PromptInjective(system: string, lead: string, s1: string, d1: seq<Document>, s2: string, d2: seq<Document>)
    requires |s1| == |s2|
    requires Prompt(system, lead, s1, d1) == Prompt(system, lead, s2, d2)
    ensures s1 == s2 && FormattedContext(d1) == FormattedContext(d2)
  {
  }
}
