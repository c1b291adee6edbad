/**
 * The generation endpoint (`POST /api/generate`): request validation,
 * context assembly from the selected search hits, de-duplication of their
 * sources, prompt construction from a template, recovery of the JSON object
 * from the model's text, and the placeholder fallback.
 *
 * The language-model call is a reply value supplied by the caller and
 * `JSON.parse` is the function parameter `parse`. A run records every prompt
 * actually sent, so "no model call was made" is an empty list of prompts.
 */
module GenerateRoute {
  import opened Wrappers
  import opened JsText
  import opened Types

  /** The request body; `entryType` is the raw wire value, so unknown kinds can be sent. */
  datatype GenerateRequest = GenerateRequest(
    entryType: string,
    templateId: Option<string>,
    topic: Option<string>,
    selectedResults: Option<seq<SearchResult>>,
    text: Option<string>,
    imageUrl: Option<string>)

  /** A client-visible error: HTTP status and message. */
  datatype ApiError = ApiError(status: nat, message: string)

  /** The contextual text for the prompt and the source labels gathered while building it. */
  datatype Context = Context(text: string, sources: seq<string>)

  /**
   * What the chat-completion endpoint did: the request threw, or it answered
   * with a status and the first choice's message content (absent when missing).
   */
  datatype LlmReply = LlmThrown | LlmReplied(status: int, content: Option<string>)

  datatype GenerateResponse =
    | Generated(content: map<string, string>, duration: nat, sources: seq<string>)
    | Rejected(error: ApiError)

  /** The response together with the prompts sent to the model, in order. */
  datatype GenerateRun = GenerateRun(response: GenerateResponse, prompts: seq<string>)

  /** The shortest pasted text accepted, in characters. */
  const MinTextLength: nat := 50

  // ---------------------------------------------------------------------------
  // Source de-duplication

  /** No value occurs twice. */
  predicate NoDuplicates(xs: seq<string>) {
    forall i, j | 0 <= i < j < |xs| :: xs[i] != xs[j]
  }

  /**
   * `Array.from(new Set(xs))`: each distinct value once, in the order of its
   * first occurrence.
   */
  function Dedup(xs: seq<string>): (r: seq<string>)
    ensures NoDuplicates(r)
    ensures forall x :: x in r <==> x in xs
    ensures |r| <= |xs|
  {
    if |xs| == 0 then []
    else
      var rest := Dedup(xs[..|xs| - 1]);
      assert forall x :: x in xs <==> x in xs[..|xs| - 1] || x == xs[|xs| - 1] by {
        assert xs == xs[..|xs| - 1] + [xs[|xs| - 1]];
      }
      if xs[|xs| - 1] in rest then rest else rest + [xs[|xs| - 1]]
  }

  /** The index of the first occurrence of `x` in `xs`. */
  function FirstPos(xs: seq<string>, x: string): (k: nat)
    requires x in xs
    ensures k < |xs| && xs[k] == x
    ensures forall j | 0 <= j < k :: xs[j] != x
  {
    if xs[0] == x then 0 else 1 + FirstPos(xs[1..], x)
  }

  lemma FirstPosSnoc(xs: seq<string>, y: string, x: string)
    requires x in xs
    ensures FirstPos(xs + [y], x) == FirstPos(xs, x)
  {
    var k := FirstPos(xs, x);
    assert (xs + [y])[k] == x;
    assert forall j | 0 <= j < k :: (xs + [y])[j] == xs[j];
  }

  /** The de-duplicated list keeps values in the order of their first occurrences. */
  lemma {:induction false} DedupKeepsFirstOccurrenceOrder(xs: seq<string>)
    ensures forall i, j | 0 <= i < j < |Dedup(xs)| :: FirstPos(xs, Dedup(xs)[i]) < FirstPos(xs, Dedup(xs)[j])
    decreases |xs|
  {
    if |xs| > 0 {
      var init := xs[..|xs| - 1];
      var y := xs[|xs| - 1];
      var rest := Dedup(init);
      DedupKeepsFirstOccurrenceOrder(init);
      assert xs == init + [y];
      var r := Dedup(xs);
      forall i, j | 0 <= i < j < |r| ensures FirstPos(xs, r[i]) < FirstPos(xs, r[j]) {
        assert r[i] == rest[i];
        FirstPosSnoc(init, y, r[i]);
        if j < |rest| {
          FirstPosSnoc(init, y, r[j]);
        } else {
          assert r[j] == y && y !in init;
          assert FirstPos(xs, y) == |init|;
        }
      }
    }
  }

  /**
   * The handler builds the de-duplicated list through an insertion-ordered
   * set; this loop does the same with a set of values already seen.
   */
  method UniqueSources(xs: seq<string>) returns (r: seq<string>)
    ensures r == Dedup(xs)
  {
    r := [];
    var seen: set<string> := {};
    var i := 0;
    while i < |xs|
      invariant 0 <= i <= |xs|
      invariant r == Dedup(xs[..i])
      invariant forall x :: x in seen <==> x in r
    {
      assert xs[..i + 1][..i] == xs[..i];
      if xs[i] !in seen {
        r := r + [xs[i]];
        seen := seen + {xs[i]};
      }
      i := i + 1;
    }
    assert xs[..|xs|] == xs;
  }

  // ---------------------------------------------------------------------------
  // Context assembly

  /** The block one selected hit contributes, numbered `n` (counting from 1). */
  function HitBlock(n: nat, h: SearchResult): string {
    NatToString(n) + ". " + h.title + "\n   " + h.snippet + "\n   来源：" + h.source + "\n\n"
  }

  /** The blocks the `forEach` over the selected hits appends, one after another. */
  function HitBlocks(hits: seq<SearchResult>): string {
    if |hits| == 0 then ""
    else HitBlocks(hits[..|hits| - 1]) + HitBlock(|hits|, hits[|hits| - 1])
  }

  /** The source label of each selected hit, in order, as `sources.push` collects them. */
  function SourcesOf(hits: seq<SearchResult>): (r: seq<string>)
    ensures |r| == |hits|
    ensures forall i | 0 <= i < |hits| :: r[i] == hits[i].source
  {
    seq(|hits|, i requires 0 <= i < |hits| => hits[i].source)
  }

  /** The blocks of the hits, the i-th numbered i + 1. */
  function NumberedBlocks(hits: seq<SearchResult>): (bs: seq<string>)
    ensures |bs| == |hits|
    ensures forall i | 0 <= i < |hits| :: bs[i] == HitBlock(i + 1, hits[i])
  {
    seq(|hits|, i requires 0 <= i < |hits| => HitBlock(i + 1, hits[i]))
  }

  /** The context text is one block per hit, in input order, the i-th numbered i + 1. */
  lemma {:induction false} HitBlocksNumbered(hits: seq<SearchResult>)
    ensures HitBlocks(hits) == Join(NumberedBlocks(hits), "")
    decreases |hits|
  {
    if |hits| > 0 {
      var init := hits[..|hits| - 1];
      var last := HitBlock(|hits|, hits[|hits| - 1]);
      HitBlocksNumbered(init);
      NumberedBlocksSnoc(hits);
      ConcatSnoc(NumberedBlocks(init), last);
    }
  }

  /** Every selected hit's numbered block appears in the reference section. */
  lemma HitBlocksContainEach(hits: seq<SearchResult>)
    ensures forall i | 0 <= i < |hits| :: Contains(HitBlocks(hits), HitBlock(i + 1, hits[i]))
  {
    HitBlocksNumbered(hits);
    JoinContainsEach(NumberedBlocks(hits), "");
  }

  /** The blocks of a non-empty list are those of all but its last hit, then the last hit's block. */
  lemma NumberedBlocksSnoc(hits: seq<SearchResult>)
    requires |hits| > 0
    ensures NumberedBlocks(hits)
         == NumberedBlocks(hits[..|hits| - 1]) + [HitBlock(|hits|, hits[|hits| - 1])]
  {
    var init := hits[..|hits| - 1];
    var a := NumberedBlocks(hits);
    var b := NumberedBlocks(init) + [HitBlock(|hits|, hits[|hits| - 1])];
    forall i | 0 <= i < |a| ensures a[i] == b[i] {
      if i < |init| {
        assert init[i] == hits[i];
      }
    }
  }

  /**
   * The `switch (entryType)` of the handler: validates the payload its kind
   * needs and produces the context text, or the 400 error for that kind.
   */
  function BuildContext(req: GenerateRequest): (r: Result<Context, ApiError>)
    ensures r.Err? ==> r.error.status == 400
    ensures ParseEntryType(req.entryType).None? ==> r == Err(ApiError(400, "无效的入口类型"))
    ensures ParseEntryType(req.entryType) == Some(Topic) ==> (r.Ok? <==> Truthy(req.topic))
    ensures ParseEntryType(req.entryType) == Some(Text) ==>
      (r.Ok? <==> req.text.Some? && |req.text.value| >= MinTextLength)
    ensures ParseEntryType(req.entryType) == Some(Image) ==> (r.Ok? <==> Truthy(req.imageUrl))
    ensures ParseEntryType(req.entryType) == Some(File) ==> r.Ok?
    ensures r.Ok? && ParseEntryType(req.entryType) != Some(Topic) ==> r.value.sources == []
    ensures ParseEntryType(req.entryType) == Some(Topic) && !Truthy(req.topic) ==> r == Err(ApiError(400, "请输入主题"))
    ensures ParseEntryType(req.entryType) == Some(Text) && !r.Ok? ==> r == Err(ApiError(400, "请输入至少50个字符"))
    ensures ParseEntryType(req.entryType) == Some(Image) && !Truthy(req.imageUrl) ==> r == Err(ApiError(400, "请上传图片"))
    ensures r.Ok? && ParseEntryType(req.entryType) == Some(Topic) ==>
      var hits := req.selectedResults.GetOr([]);
      && r.value.text == TopicHeader(req.topic.value) + (if |hits| > 0 then "参考数据：\n" + Join(NumberedBlocks(hits), "") else "")
      && r.value.sources == SourcesOf(hits)
    ensures r.Ok? && ParseEntryType(req.entryType) == Some(Text) ==>
      r.value.text == "用户提供的内容：\n" + req.text.value + "\n\n"
    ensures r.Ok? && ParseEntryType(req.entryType) == Some(Image) ==> r.value.text == ImageContext
    ensures r.Ok? && ParseEntryType(req.entryType) == Some(File) ==> r.value.text == FileContext
  {
    match ParseEntryType(req.entryType)
    case None => Err(ApiError(400, "无效的入口类型"))
    case Some(Topic) =>
      if !Truthy(req.topic) then Err(ApiError(400, "请输入主题"))
      else
        var header := TopicHeader(req.topic.value);
        var hits := req.selectedResults.GetOr([]);
        HitBlocksNumbered(hits);
        if |hits| > 0 then Ok(Context(header + "参考数据：\n" + HitBlocks(hits), SourcesOf(hits)))
        else
          assert header + "" == header;
          Ok(Context(header, []))
    case Some(Text) =>
      if req.text.None? || |req.text.value| < MinTextLength then Err(ApiError(400, "请输入至少50个字符"))
      else Ok(Context("用户提供的内容：\n" + req.text.value + "\n\n", []))
    case Some(Image) =>
      if !Truthy(req.imageUrl) then Err(ApiError(400, "请上传图片"))
      else Ok(Context(ImageContext, []))
    case Some(File) =>
      Ok(Context(FileContext, []))
  }

  /** The opening line of a topic's context. */
  function TopicHeader(topic: string): string {
    "主题：" + topic + "\n\n"
  }

  /** The fixed context for an uploaded picture. */
  const ImageContext := "用户上传了一张图片，请根据图片内容生成相关概念。\n\n"

  /** The fixed context for an uploaded document. */
  const FileContext := "用户上传了一份资料，请根据资料内容生成相关概念。\n\n"

  // ---------------------------------------------------------------------------
  // Prompt construction

  /** The content hint for one field: `- label：placeholder`. */
  function FieldLine(f: TemplateField): string {
    "- " + f.labelText + "：" + f.placeholder
  }

  /** One hint line per field, in field order. */
  function FieldLines(fields: seq<TemplateField>): (ls: seq<string>)
    ensures |ls| == |fields|
    ensures forall i | 0 <= i < |fields| :: ls[i] == FieldLine(fields[i])
  {
    seq(|fields|, i requires 0 <= i < |fields| => FieldLine(fields[i]))
  }

  /** The hint lines joined by newlines. */
  function FieldDescriptions(fields: seq<TemplateField>): string {
    Join(FieldLines(fields), "\n")
  }

  /** Reading the hint block back line by line gives exactly one line per field, in order. */
  lemma FieldDescriptionsLines(fields: seq<TemplateField>)
    requires |fields| >= 1 && SingleLineFields(fields)
    ensures Split(FieldDescriptions(fields), "\n") == FieldLines(fields)
  {
    var ls := FieldLines(fields);
    forall i | 0 <= i < |ls| ensures SeparatorFree(ls[i], "\n") {
      assert '\n' !in fields[i].labelText && '\n' !in fields[i].placeholder;
      assert '\n' !in ls[i];
      SeparatorFreeChar(ls[i], '\n');
    }
    SplitJoin(ls, "\n");
  }

  const PromptOpening := "你是一个专业的产品概念生成专家。请根据以下信息生成一个"
  const PromptClosing := "只返回JSON，不要其他解释。"

  /** The line of the example JSON object that names the key `k`. */
  function ExampleKeyLine(k: string): string {
    "\"" + k + "\": \"内容\""
  }

  /**
   * `buildPrompt`: names the template, embeds the context, lists every field's
   * hint, shows the first two keys as an example object and asks for JSON only.
   */
  function BuildPrompt(t: Template, context: string): (p: string)
    requires |t.structure| >= 2
    ensures PromptOpening + t.name + "。" <= p
    ensures Contains(p, context)
    ensures Contains(p, FieldDescriptions(t.structure))
    ensures Contains(p, ExampleKeyLine(t.structure[0].key))
    ensures Contains(p, ExampleKeyLine(t.structure[1].key))
    ensures |PromptClosing| <= |p| && p[|p| - |PromptClosing|..] == PromptClosing
  {
    var opening := PromptOpening + t.name + "。";
    var key0 := ExampleKeyLine(t.structure[0].key);
    var key1 := ExampleKeyLine(t.structure[1].key);
    var fields := FieldDescriptions(t.structure);
    var middle := PromptMiddle(context, fields, key0, key1);
    FrameEnds(opening, middle, PromptClosing);
    FrameContains(opening, middle, PromptClosing, context);
    FrameContains(opening, middle, PromptClosing, fields);
    FrameContains(opening, middle, PromptClosing, key0);
    FrameContains(opening, middle, PromptClosing, key1);
    opening + middle + PromptClosing
  }

  /** The prompt between its opening sentence and its closing instruction. */
  function PromptMiddle(context: string, fields: string, key0: string, key1: string): (m: string)
    ensures Contains(m, context) && Contains(m, fields) && Contains(m, key0) && Contains(m, key1)
  {
    var p5 := PromptHead(context, fields);
    var p6 := p5 + key0;
    ContainsSuffix(p5, key0);
    ContainsExtend(p5, context, key0);
    ContainsExtend(p5, fields, key0);
    var p7 := p6 + ",\n  ";
    ContainsExtend(p6, context, ",\n  ");
    ContainsExtend(p6, fields, ",\n  ");
    ContainsExtend(p6, key0, ",\n  ");
    var p8 := p7 + key1;
    ContainsSuffix(p7, key1);
    ContainsExtend(p7, context, key1);
    ContainsExtend(p7, fields, key1);
    ContainsExtend(p7, key0, key1);
    var m := p8 + ",\n  ...\n}\n\n";
    ContainsExtend(p8, context, ",\n  ...\n}\n\n");
    ContainsExtend(p8, fields, ",\n  ...\n}\n\n");
    ContainsExtend(p8, key0, ",\n  ...\n}\n\n");
    ContainsExtend(p8, key1, ",\n  ...\n}\n\n");
    m
  }

  /** The prompt from the context up to the example object. */
  function PromptHead(context: string, fields: string): (h: string)
    ensures Contains(h, context) && Contains(h, fields)
  {
    var p1 := "\n\n";
    var p2 := p1 + context;
    ContainsSuffix(p1, context);
    var p3 := p2 + "\n\n请生成以下字段内容：\n";
    ContainsExtend(p2, context, "\n\n请生成以下字段内容：\n");
    var p4 := p3 + fields;
    ContainsSuffix(p3, fields);
    ContainsExtend(p3, context, fields);
    var p5 := p4 + PromptRequirements;
    ContainsExtend(p4, context, PromptRequirements);
    ContainsExtend(p4, fields, PromptRequirements);
    p5
  }

  /** The fixed instructions between the field hints and the example object. */
  const PromptRequirements :=
    "\n\n要求：\n1. 每个字段内容简洁有力，突出重点\n2. 使用专业但不晦涩的语言\n3. 内容要有数据支撑，避免空洞\n4. 字段内容要相互呼应，形成完整的概念\n\n请以JSON格式返回，格式如下：\n{\n  "

  // ---------------------------------------------------------------------------
  // JSON span recovery

  /** `s[i..j+1]` is a match of `\{[\s\S]*\}`: it opens with `{` and closes with a later `}`. */
  predicate BraceSpan(s: string, i: int, j: int) {
    0 <= i < j < |s| && s[i] == '{' && s[j] == '}'
  }

  /**
   * The match a JavaScript regex engine reports for `\{[\s\S]*\}`: the
   * leftmost start, and at that start the longest (greedy) match.
   */
  ghost predicate LeftmostGreedy(s: string, i: int, j: int) {
    && BraceSpan(s, i, j)
    && (forall i', j' | BraceSpan(s, i', j') :: i <= i')
    && (forall j' | BraceSpan(s, i, j') :: j' <= j)
  }

  /**
   * `content.match(/\{[\s\S]*\}/)` as a pair of bounds: there is a match exactly
   * when the first `{` comes before the last `}`, and then it runs from the one
   * to the other.
   */
  function MatchBraces(s: string): (r: Option<(nat, nat)>)
    ensures r.Some? ==> LeftmostGreedy(s, r.value.0, r.value.1)
    ensures r.None? ==> forall i, j :: !BraceSpan(s, i, j)
    ensures r.Some? <==> (IndexOfChar(s, '{').Some? && LastIndexOfChar(s, '}').Some?
                          && IndexOfChar(s, '{').value < LastIndexOfChar(s, '}').value)
  {
    var first := IndexOfChar(s, '{');
    var last := LastIndexOfChar(s, '}');
    if first.Some? && last.Some? && first.value < last.value then Some((first.value, last.value))
    else None
  }

  /** The matched text itself, braces included. */
  function JsonSpan(s: string): (r: Option<string>)
    ensures r.Some? ==> |r.value| >= 2 && r.value[0] == '{' && r.value[|r.value| - 1] == '}'
    ensures r.Some? <==> exists i, j :: BraceSpan(s, i, j)
    ensures r.Some? ==> exists i, j :: LeftmostGreedy(s, i, j) && r.value == s[i..j + 1]
    ensures r.Some? ==>
      && IndexOfChar(s, '{').Some? && LastIndexOfChar(s, '}').Some?
      && IndexOfChar(s, '{').value < LastIndexOfChar(s, '}').value
      && r.value == s[IndexOfChar(s, '{').value..LastIndexOfChar(s, '}').value + 1]
  {
    match MatchBraces(s)
    case None => None
    case Some((i, j)) => Some(s[i..j + 1])
  }

  // ---------------------------------------------------------------------------
  // Content generation and fallback

  /**
   * The default content: `forEach` writes each field's placeholder under its
   * key, so every field key is present and a repeated key keeps its last value.
   */
  function Placeholders(fields: seq<TemplateField>): (m: map<string, string>)
    ensures forall k :: k in m <==> k in FieldKeys(fields)
  {
    if |fields| == 0 then map[]
    else
      var init := fields[..|fields| - 1];
      var f := fields[|fields| - 1];
      assert forall k :: k in FieldKeys(fields) <==> k in FieldKeys(init) || k == f.key by {
        assert FieldKeys(fields) == FieldKeys(init) + [f.key];
      }
      Placeholders(init)[f.key := f.placeholder]
  }

  /** A field whose key no later field repeats has its own hint in the default content. */
  lemma {:induction false} PlaceholdersLastWins(fields: seq<TemplateField>, i: nat)
    requires i < |fields|
    requires forall j | i < j < |fields| :: fields[j].key != fields[i].key
    ensures fields[i].key in Placeholders(fields) && Placeholders(fields)[fields[i].key] == fields[i].placeholder
    decreases |fields|
  {
    var init := fields[..|fields| - 1];
    if i < |fields| - 1 {
      assert init[i] == fields[i];
      assert fields[|fields| - 1].key != fields[i].key;
      PlaceholdersLastWins(init, i);
    }
  }

  /** With distinct keys, the default content maps each field's key to that field's placeholder. */
  lemma PlaceholdersOfDistinctKeys(fields: seq<TemplateField>)
    requires KeysDistinct(fields)
    ensures forall i | 0 <= i < |fields| :: Placeholders(fields)[fields[i].key] == fields[i].placeholder
  {
    forall i | 0 <= i < |fields|
      ensures Placeholders(fields)[fields[i].key] == fields[i].placeholder
    {
      PlaceholdersLastWins(fields, i);
    }
  }

  /** `response.ok`: a status in the 200 range. */
  predicate IsOk(status: int) {
    200 <= status < 300
  }

  /**
   * The text the handler reads from a reply: none when the call threw or the
   * status is not ok (the handler throws), else the message content, or ''.
   */
  function ModelText(reply: LlmReply): (r: Option<string>)
    ensures r.None? <==> reply.LlmThrown? || !IsOk(reply.status)
    ensures r.Some? ==> (r.value == "" <==> !Truthy(reply.content))
    ensures r.Some? && Truthy(reply.content) ==> r.value == reply.content.value
  {
    if reply.LlmReplied? && IsOk(reply.status) then Some(Or(reply.content, "")) else None
  }

  /**
   * `generateContent`: the parsed JSON object when the reply is ok, its text
   * holds a brace span and that span parses; the default content otherwise.
   * The parsed object is returned as it is, without checking its keys.
   */
  function GenerateContent(t: Template, reply: LlmReply, parse: string -> Option<map<string, string>>): (r: map<string, string>)
    ensures ModelText(reply).None? ==> r == Placeholders(t.structure)
    ensures ModelText(reply).Some? && JsonSpan(ModelText(reply).value).None? ==> r == Placeholders(t.structure)
    ensures ModelText(reply).Some? && JsonSpan(ModelText(reply).value).Some? ==>
      r == parse(JsonSpan(ModelText(reply).value).value).GetOr(Placeholders(t.structure))
    ensures r != Placeholders(t.structure) ==>
      exists span :: JsonSpan(ModelText(reply).GetOr("")) == Some(span) && parse(span) == Some(r)
  {
    var fallback := Placeholders(t.structure);
    match ModelText(reply)
    case None => fallback
    case Some(text) =>
      match JsonSpan(text)
      case None => fallback
      case Some(span) => parse(span).GetOr(fallback)
  }

  /** Whenever generation degrades, the content has exactly the template's keys, each with its placeholder. */
  lemma FallbackHasTemplateKeys(t: Template, reply: LlmReply, parse: string -> Option<map<string, string>>)
    requires KeysDistinct(t.structure)
    requires ModelText(reply).None?
      || JsonSpan(ModelText(reply).value).None?
      || parse(JsonSpan(ModelText(reply).value).value).None?
    ensures GenerateContent(t, reply, parse).Keys == set i | 0 <= i < |t.structure| :: t.structure[i].key
    ensures forall i | 0 <= i < |t.structure| ::
      GenerateContent(t, reply, parse)[t.structure[i].key] == t.structure[i].placeholder
  {
    var r := GenerateContent(t, reply, parse);
    assert r == Placeholders(t.structure);
    PlaceholdersOfDistinctKeys(t.structure);
    forall k | k in r ensures k in set i | 0 <= i < |t.structure| :: t.structure[i].key {
      var i :| 0 <= i < |FieldKeys(t.structure)| && FieldKeys(t.structure)[i] == k;
    }
  }

  // ---------------------------------------------------------------------------
  // The handler

  /**
   * `POST /api/generate`: checks the template id, looks the template up,
   * builds the context, and only then sends one prompt and shapes the reply.
   */
  function Post(req: GenerateRequest, reply: LlmReply, parse: string -> Option<map<string, string>>, elapsed: nat): (run: GenerateRun)
    ensures !Truthy(req.templateId) ==> run == GenerateRun(Rejected(ApiError(400, "请选择模板")), [])
    ensures Truthy(req.templateId) && FindTemplate(req.templateId.value).None? ==>
      run == GenerateRun(Rejected(ApiError(400, "模板不存在")), [])
    ensures run.response.Rejected? <==> run.prompts == []
    ensures run.response.Rejected? ==> run.response.error.status == 400
    ensures Truthy(req.templateId) && FindTemplate(req.templateId.value).Some? && BuildContext(req).Err? ==>
      run == GenerateRun(Rejected(BuildContext(req).error), [])
    ensures run.response.Generated? ==>
      && Truthy(req.templateId)
      && FindTemplate(req.templateId.value).Some?
      && BuildContext(req).Ok?
      && var t := FindTemplate(req.templateId.value).value;
         && t.id == req.templateId.value
         && run.prompts == [BuildPrompt(t, BuildContext(req).value.text)]
         && run.response.content == GenerateContent(t, reply, parse)
         && run.response.sources == Dedup(BuildContext(req).value.sources)
         && run.response.duration == elapsed
    ensures Truthy(req.templateId) && FindTemplate(req.templateId.value).Some? ==>
      (run.response.Generated? <==> BuildContext(req).Ok?)
  {
    if !Truthy(req.templateId) then GenerateRun(Rejected(ApiError(400, "请选择模板")), [])
    else
      match FindTemplate(req.templateId.value)
      case None => GenerateRun(Rejected(ApiError(400, "模板不存在")), [])
      case Some(t) =>
        match BuildContext(req)
        case Err(e) => GenerateRun(Rejected(e), [])
        case Ok(ctx) =>
          var prompt := BuildPrompt(t, ctx.text);
          GenerateRun(Generated(GenerateContent(t, reply, parse), elapsed, Dedup(ctx.sources)), [prompt])
  }

  /**
   * When the handler answers with content (a known template and a context that
   * builds), the returned sources are distinct, no more than the selected hits,
   * and empty for non-topic entries.
   */
  lemma SourcesAreDistinctSelectedLabels(req: GenerateRequest, reply: LlmReply, parse: string -> Option<map<string, string>>, elapsed: nat)
    requires Truthy(req.templateId) && FindTemplate(req.templateId.value).Some? && BuildContext(req).Ok?
    ensures var sources := Post(req, reply, parse, elapsed).response.sources;
      && NoDuplicates(sources)
      && |sources| <= |req.selectedResults.GetOr([])|
      && (forall s :: s in sources <==> ParseEntryType(req.entryType) == Some(Topic) && s in SourcesOf(req.selectedResults.GetOr([])))
  {
  }

  // ---------------------------------------------------------------------------
  // Worked scenarios

  /** A pasted text shorter than fifty characters is refused before any model call. */
  lemma ShortTextRejected(text: string, reply: LlmReply, parse: string -> Option<map<string, string>>)
    requires |text| < MinTextLength
    ensures var req := GenerateRequest("text", Some("product-concept"), None, None, Some(text), None);
      Post(req, reply, parse, 0) == GenerateRun(Rejected(ApiError(400, "请输入至少50个字符")), [])
  {
    assert FindTemplate("product-concept") == Some(ProductConcept());
    assert ParseEntryType("text") == Some(Text);
  }

  /** Two selected hits from the same site are reported as one source. */
  lemma RepeatedSourceReportedOnce(hit: SearchResult, topic: string, templateId: string, reply: LlmReply,
                                   parse: string -> Option<map<string, string>>)
    requires topic != "" && templateId != "" && FindTemplate(templateId).Some?
    ensures var req := GenerateRequest("topic", Some(templateId), Some(topic), Some([hit, hit]), None, None);
      Post(req, reply, parse, 0).response.sources == [hit.source]
  {
    var req := GenerateRequest("topic", Some(templateId), Some(topic), Some([hit, hit]), None, None);
    TopicTwiceContext(req, hit);
    DedupTwice(hit.source);
  }

  /** A topic request that selects the same hit twice builds a context naming its source twice. */
  lemma TopicTwiceContext(req: GenerateRequest, hit: SearchResult)
    requires req.entryType == "topic" && Truthy(req.topic) && req.selectedResults == Some([hit, hit])
    ensures BuildContext(req).Ok? && BuildContext(req).value.sources == [hit.source, hit.source]
  {
    assert ParseEntryType("topic") == Some(Topic);
    assert SourcesOf([hit, hit]) == [hit.source, hit.source];
  }

  lemma DedupTwice(x: string)
    ensures Dedup([x, x]) == [x]
  {
    var twice := [x, x];
    assert twice[..1] == [x];
    assert [x][..0] == [];
  }
}
