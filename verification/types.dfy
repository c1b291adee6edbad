/**
 * The entities of `src/types/index.ts` and its three static catalogues:
 * the card templates, the card size presets and the suggested topics.
 */
module Types {
  import opened Wrappers

  // ---------------------------------------------------------------------------
  // Entry kinds

  /** How the user supplies source material. */
  datatype EntryType = Topic | File | Text | Image

  /** The wire name of an entry kind. */
  function EntryTypeName(e: EntryType): string {
    match e
    case Topic => "topic"
    case File => "file"
    case Text => "text"
    case Image => "image"
  }

  /** Reads a wire name back: exactly the four names are recognised, each as its own kind. */
  function ParseEntryType(s: string): (r: Option<EntryType>)
    ensures r.Some? ==> EntryTypeName(r.value) == s
    ensures forall e: EntryType :: EntryTypeName(e) == s ==> r == Some(e)
  {
    if s == "topic" then Some(Topic)
    else if s == "file" then Some(File)
    else if s == "text" then Some(Text)
    else if s == "image" then Some(Image)
    else None
  }

  // ---------------------------------------------------------------------------
  // Search results

  /**
   * One search hit as the client holds it. `selected` is optional in the
   * TypeScript type; an absent flag reads as not selected.
   */
  datatype SearchResult = SearchResult(
    id: string,
    title: string,
    snippet: string,
    url: string,
    source: string,
    selected: Option<bool>)

  /** JavaScript truthiness of the optional `selected` flag. */
  predicate IsSelected(r: SearchResult) {
    r.selected == Some(true)
  }

  // ---------------------------------------------------------------------------
  // Templates

  /** One slot of a template (`labelText` is the TypeScript field `label`); `placeholder` is both the prompt hint and the fallback value. */
  datatype TemplateField = TemplateField(
    key: string,
    labelText: string,
    placeholder: string,
    required: bool,
    maxLength: Option<int>)

  /** A named, ordered schema of fields. */
  datatype Template = Template(
    id: string,
    name: string,
    description: string,
    icon: string,
    structure: seq<TemplateField>,
    scenario: string)

  /** The field keys of a template, in field order. */
  function FieldKeys(fields: seq<TemplateField>): (ks: seq<string>)
    ensures |ks| == |fields|
    ensures forall i | 0 <= i < |fields| :: ks[i] == fields[i].key
  {
    seq(|fields|, i requires 0 <= i < |fields| => fields[i].key)
  }

  /** No two fields of the list share a key. */
  predicate KeysDistinct(fields: seq<TemplateField>) {
    forall i, j | 0 <= i < j < |fields| :: fields[i].key != fields[j].key
  }

  /** Every length limit that is present is positive. */
  predicate MaxLengthsPositive(fields: seq<TemplateField>) {
    forall i | 0 <= i < |fields| && fields[i].maxLength.Some? :: fields[i].maxLength.value > 0
  }

  /**
   * What the generation pipeline relies on of a template: at least the two
   * fields its prompt quotes, distinct keys, and positive length limits.
   */
  predicate WellFormedTemplate(t: Template) {
    && |t.structure| >= 2
    && KeysDistinct(t.structure)
    && MaxLengthsPositive(t.structure)
  }

  /** No label or placeholder spans a line break. */
  predicate SingleLineFields(fields: seq<TemplateField>) {
    forall i | 0 <= i < |fields| :: '\n' !in fields[i].labelText && '\n' !in fields[i].placeholder
  }

  /** No two templates of the list share an id. */
  predicate TemplateIdsDistinct(ts: seq<Template>) {
    forall i, j | 0 <= i < j < |ts| :: ts[i].id != ts[j].id
  }

  function Field(key: string, labelText: string, placeholder: string, required: bool, maxLength: int): TemplateField {
    TemplateField(key, labelText, placeholder, required, Some(maxLength))
  }

  /** The fields of the `product-concept` template, in order. */
  function ProductConceptFields(): seq<TemplateField> {
    [
      Field("name", "产品名称", "请输入产品名称", true, 20),
      Field("tagline", "一句话介绍", "用一句话描述产品价值", true, 50),
      Field("targetUser", "目标用户", "描述目标用户群体", true, 100),
      Field("features", "核心功能", "列出3-5个核心功能", true, 200),
      Field("differentiation", "差异化优势", "与竞品相比的优势", false, 150)
    ]
  }

  lemma ProductConceptKeysDistinct()
    ensures |ProductConceptFields()| == 5 && KeysDistinct(ProductConceptFields()) && MaxLengthsPositive(ProductConceptFields())
  {
  }

  lemma ProductConceptSingleLine()
    ensures SingleLineFields(ProductConceptFields())
  {
  }

  /** The `product-concept` template. */
  function ProductConcept(): (t: Template)
    ensures WellFormedTemplate(t) && |t.structure| == 5
    ensures SingleLineFields(t.structure)
  {
    ProductConceptKeysDistinct();
    ProductConceptSingleLine();
    Template("product-concept", "产品概念卡", "适用于新产品创意展示", "💡", ProductConceptFields(), "新产品创意")
  }

  /** The fields of the `marketing-creative` template, in order. */
  function MarketingCreativeFields(): seq<TemplateField> {
    [
      Field("theme", "活动主题", "请输入活动主题", true, 30),
      Field("painPoint", "用户痛点", "描述用户面临的问题", true, 100),
      Field("solution", "解决方案", "你的产品如何解决", true, 150),
      Field("cta", "行动号召", "希望用户做什么", true, 50),
      Field("highlights", "卖点提炼", "3个核心卖点", false, 100)
    ]
  }

  lemma MarketingCreativeKeysDistinct()
    ensures |MarketingCreativeFields()| == 5 && KeysDistinct(MarketingCreativeFields()) && MaxLengthsPositive(MarketingCreativeFields())
  {
  }

  lemma MarketingCreativeSingleLine()
    ensures SingleLineFields(MarketingCreativeFields())
  {
  }

  /** The `marketing-creative` template. */
  function MarketingCreative(): (t: Template)
    ensures WellFormedTemplate(t) && |t.structure| == 5
    ensures SingleLineFields(t.structure)
  {
    MarketingCreativeKeysDistinct();
    MarketingCreativeSingleLine();
    Template("marketing-creative", "营销创意卡", "适用于营销活动策划", "📣", MarketingCreativeFields(), "营销活动")
  }

  /** The fields of the `brand-story` template, in order. */
  function BrandStoryFields(): seq<TemplateField> {
    [
      Field("philosophy", "品牌理念", "品牌的核心价值观", true, 100),
      Field("story", "创始故事", "品牌诞生的故事", true, 200),
      Field("values", "品牌价值观", "3个核心价值", true, 100),
      Field("vision", "品牌愿景", "未来的目标", false, 100)
    ]
  }

  lemma BrandStoryKeysDistinct()
    ensures |BrandStoryFields()| == 4 && KeysDistinct(BrandStoryFields()) && MaxLengthsPositive(BrandStoryFields())
  {
  }

  lemma BrandStorySingleLine()
    ensures SingleLineFields(BrandStoryFields())
  {
  }

  /** The `brand-story` template. */
  function BrandStory(): (t: Template)
    ensures WellFormedTemplate(t) && |t.structure| == 4
    ensures SingleLineFields(t.structure)
  {
    BrandStoryKeysDistinct();
    BrandStorySingleLine();
    Template("brand-story", "品牌故事卡", "适用于品牌宣传", "📖", BrandStoryFields(), "品牌宣传")
  }

  /** The fields of the `feature-intro` template, in order. */
  function FeatureIntroFields(): seq<TemplateField> {
    [
      Field("featureName", "功能名称", "请输入功能名称", true, 20),
      Field("problem", "解决问题", "该功能解决什么问题", true, 100),
      Field("usage", "使用方法", "用户如何使用", true, 150),
      Field("value", "用户价值", "用户能获得什么", true, 100)
    ]
  }

  lemma FeatureIntroKeysDistinct()
    ensures |FeatureIntroFields()| == 4 && KeysDistinct(FeatureIntroFields()) && MaxLengthsPositive(FeatureIntroFields())
  {
  }

  lemma FeatureIntroSingleLine()
    ensures SingleLineFields(FeatureIntroFields())
  {
  }

  /** The `feature-intro` template. */
  function FeatureIntro(): (t: Template)
    ensures WellFormedTemplate(t) && |t.structure| == 4
    ensures SingleLineFields(t.structure)
  {
    FeatureIntroKeysDistinct();
    FeatureIntroSingleLine();
    Template("feature-intro", "功能介绍卡", "适用于功能推广", "⚡", FeatureIntroFields(), "功能推广")
  }

  /** The fields of the `comparison-review` template, in order. */
  function ComparisonReviewFields(): seq<TemplateField> {
    [
      Field("products", "对比产品", "列出对比的产品", true, 100),
      Field("pros", "优势分析", "各产品的优势", true, 150),
      Field("cons", "劣势分析", "各产品的劣势", true, 150),
      Field("recommendation", "推荐建议", "你的推荐和理由", true, 100)
    ]
  }

  lemma ComparisonReviewKeysDistinct()
    ensures |ComparisonReviewFields()| == 4 && KeysDistinct(ComparisonReviewFields()) && MaxLengthsPositive(ComparisonReviewFields())
  {
  }

  lemma ComparisonReviewSingleLine()
    ensures SingleLineFields(ComparisonReviewFields())
  {
  }

  /** The `comparison-review` template. */
  function ComparisonReview(): (t: Template)
    ensures WellFormedTemplate(t) && |t.structure| == 4
    ensures SingleLineFields(t.structure)
  {
    ComparisonReviewKeysDistinct();
    ComparisonReviewSingleLine();
    Template("comparison-review", "对比评测卡", "适用于产品对比", "⚖️", ComparisonReviewFields(), "产品评测")
  }

  /** The `TEMPLATES` catalogue: five templates with distinct ids, each well formed with at least four fields. */
  function Templates(): (ts: seq<Template>)
    ensures |ts| == 5
    ensures TemplateIdsDistinct(ts)
    ensures forall i | 0 <= i < |ts| :: WellFormedTemplate(ts[i]) && |ts[i].structure| >= 4
    ensures forall i | 0 <= i < |ts| :: SingleLineFields(ts[i].structure)
  {
    [ProductConcept(), MarketingCreative(), BrandStory(), FeatureIntro(), ComparisonReview()]
  }

  /** The first template of `ts` whose id is `id`, as `Array.prototype.find` returns it. */
  function FindById(ts: seq<Template>, id: string): (r: Option<Template>)
    ensures r.Some? ==> r.value in ts && r.value.id == id
    ensures r.None? ==> forall i | 0 <= i < |ts| :: ts[i].id != id
    ensures r.Some? ==> exists i | 0 <= i < |ts| :: ts[i] == r.value && forall j | 0 <= j < i :: ts[j].id != id
  {
    if |ts| == 0 then None
    else if ts[0].id == id then Some(ts[0])
    else
      var r := FindById(ts[1..], id);
      assert r.Some? ==> exists i | 0 <= i < |ts| :: ts[i] == r.value && forall j | 0 <= j < i :: ts[j].id != id by {
        if r.Some? {
          var i :| 0 <= i < |ts| - 1 && ts[1..][i] == r.value && forall j | 0 <= j < i :: ts[1..][j].id != id;
          assert ts[i + 1] == r.value;
          forall j | 0 <= j < i + 1 ensures ts[j].id != id {
            if j > 0 {
              assert ts[j] == ts[1..][j - 1];
            }
          }
        }
      }
      r
  }

  /**
   * `TEMPLATES.find(t => t.id === id)`: the catalogue template with that id
   * when there is one, and then a well-formed one with at least four fields.
   */
  function FindTemplate(id: string): (r: Option<Template>)
    ensures r.Some? ==> r.value in Templates() && r.value.id == id
    ensures r.Some? ==> WellFormedTemplate(r.value) && |r.value.structure| >= 4
    ensures r.Some? ==> SingleLineFields(r.value.structure)
    ensures r.None? ==> forall t | t in Templates() :: t.id != id
  {
    FindById(Templates(), id)
  }

  /** The `product-concept` template: its five keys and placeholders, in order. */
  lemma ProductConceptTemplate()
    ensures FindTemplate("product-concept").Some?
    ensures var t := FindTemplate("product-concept").value;
      && t.name == "产品概念卡"
      && FieldKeys(t.structure) == ["name", "tagline", "targetUser", "features", "differentiation"]
      && t.structure[0].placeholder == "请输入产品名称"
      && t.structure[1].placeholder == "用一句话描述产品价值"
      && t.structure[2].placeholder == "描述目标用户群体"
      && t.structure[3].placeholder == "列出3-5个核心功能"
      && t.structure[4].placeholder == "与竞品相比的优势"
  {
  }

  // ---------------------------------------------------------------------------
  // Card size presets

  datatype CardSpec = Xiaohongshu | Moments | Wechat | Poster

  datatype CardSpecConfig = CardSpecConfig(id: CardSpec, name: string, width: nat, height: nat, platform: string)

  /** How many presets of `cs` are for `spec`. */
  function CountSpec(cs: seq<CardSpecConfig>, spec: CardSpec): nat {
    if |cs| == 0 then 0 else (if cs[0].id == spec then 1 else 0) + CountSpec(cs[1..], spec)
  }

  /** The `CARD_SPECS` entries, in declaration order. */
  function CardSpecTable(): seq<CardSpecConfig> {
    [
      CardSpecConfig(Xiaohongshu, "小红书", 1080, 1440, "小红书笔记"),
      CardSpecConfig(Moments, "朋友圈", 1080, 1080, "微信朋友圈"),
      CardSpecConfig(Wechat, "公众号", 900, 383, "公众号封面"),
      CardSpecConfig(Poster, "海报", 1080, 1440, "线下海报")
    ]
  }

  /** The `CARD_SPECS` catalogue: one preset for each card size, no more. */
  function CardSpecs(): (cs: seq<CardSpecConfig>)
    ensures |cs| == 4
    ensures forall spec: CardSpec :: CountSpec(cs, spec) == 1
  {
    EachSpecOnce();
    CardSpecTable()
  }

  lemma EachSpecOnce()
    ensures |CardSpecTable()| == 4
    ensures forall spec: CardSpec :: CountSpec(CardSpecTable(), spec) == 1
  {
    var cs := CardSpecTable();
    forall spec: CardSpec ensures CountSpec(cs, spec) == 1 {
      assert CountSpec(cs[4..], spec) == 0;
      assert cs[3..][1..] == cs[4..];
      assert cs[2..][1..] == cs[3..];
      assert cs[1..][1..] == cs[2..];
      assert CountSpec(cs[3..], spec) == (if spec == Poster then 1 else 0);
      assert CountSpec(cs[2..], spec) == (if spec in {Wechat, Poster} then 1 else 0);
      assert CountSpec(cs[1..], spec) == (if spec in {Moments, Wechat, Poster} then 1 else 0);
    }
  }

  // ---------------------------------------------------------------------------
  // Image styles

  datatype ImageStyle = Minimal | Tech | Warm | Business

  /** The wire name of an image style. */
  function ImageStyleName(s: ImageStyle): string {
    match s
    case Minimal => "minimal"
    case Tech => "tech"
    case Warm => "warm"
    case Business => "business"
  }

  /** Reads a wire name back: exactly the four names are recognised, each as its own style. */
  function ParseImageStyle(s: string): (r: Option<ImageStyle>)
    ensures r.Some? ==> ImageStyleName(r.value) == s
    ensures forall st: ImageStyle :: ImageStyleName(st) == s ==> r == Some(st)
  {
    if s == "minimal" then Some(Minimal)
    else if s == "tech" then Some(Tech)
    else if s == "warm" then Some(Warm)
    else if s == "business" then Some(Business)
    else None
  }

  // ---------------------------------------------------------------------------
  // History records

  /**
   * A saved generation. `createdAt` is the instant the record was made, in
   * milliseconds since the epoch: the number `new Date(createdAt).getTime()`
   * recovers from the ISO text the handler stores.
   */
  datatype HistoryRecord = HistoryRecord(
    id: string,
    topic: string,
    entryType: EntryType,
    templateId: string,
    templateName: string,
    content: map<string, string>,
    imageUrl: Option<string>,
    cardSpec: CardSpec,
    thumbnail: Option<string>,
    createdAt: int)

  // ---------------------------------------------------------------------------
  // Suggested topics

  datatype HotTopic = HotTopic(id: string, name: string, icon: string)

  /** The `HOT_TOPICS` catalogue: six suggestions with distinct ids. */
  function HotTopics(): (ts: seq<HotTopic>)
    ensures |ts| == 6
    ensures forall i, j | 0 <= i < j < |ts| :: ts[i].id != ts[j].id
  {
    [
      HotTopic("1", "AI工具", "🤖"),
      HotTopic("2", "健康管理", "💪"),
      HotTopic("3", "知识付费", "📚"),
      HotTopic("4", "效率工具", "⚡"),
      HotTopic("5", "宠物经济", "🐱"),
      HotTopic("6", "银发市场", "👴")
    ]
  }
}
