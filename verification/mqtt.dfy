/**
 * The MQTT connector's pure parts: its configuration defaults, the topic
 * built from a template for each outgoing message, and the retain flag of the
 * publication. Connecting, subscribing and publishing are not modelled.
 */
module MqttConnector {
  import opened Domain
  import opened Strings

  const EqNamePlaceholder := "<EQNAME>"
  const CategoryPlaceholder := "<CATEGORY>"
  const TagNamePlaceholder := "<TAGNAME>"

  const DefaultTopicTemplate := "<EQNAME>/<CATEGORY>/<TAGNAME>"
  const DefaultTagDataCategory := "EdgeTagChange"
  const DefaultEventCategory := "EdgeEvent"
  /** The segment for a category that is neither tag data nor an event. */
  const FallbackCategory := "EdgeMessage"

  /** The connector's topic settings. */
  datatype ConnectorConfig = ConnectorConfig(topicTemplate: string, tagDataCategory: string, eventCategory: string)

  /** A configured setting, or its default when the key is not configured. */
  function Setting(settings: map<string, string>, key: string, default: string): (v: string)
    ensures key in settings ==> v == settings[key]
    ensures key !in settings ==> v == default
  {
    if key in settings then settings[key] else default
  }

  /** The settings the connector reads at construction, each defaulted when absent. */
  function NewConnectorConfig(settings: map<string, string>): ConnectorConfig
  {
    ConnectorConfig(
      Setting(settings, "TOPIC_TEMPLATE", DefaultTopicTemplate),
      Setting(settings, "TAG_DATA_CATEGORY", DefaultTagDataCategory),
      Setting(settings, "EVENT_CATEGORY", DefaultEventCategory))
  }

  /** With nothing configured, the connector uses its three defaults; a configured key overrides its default. */
  lemma NewConnectorConfigDefaults(settings: map<string, string>)
    ensures NewConnectorConfig(map[]) == ConnectorConfig(DefaultTopicTemplate, DefaultTagDataCategory, DefaultEventCategory)
    ensures "TOPIC_TEMPLATE" in settings ==> NewConnectorConfig(settings).topicTemplate == settings["TOPIC_TEMPLATE"]
    ensures "TAG_DATA_CATEGORY" in settings ==> NewConnectorConfig(settings).tagDataCategory == settings["TAG_DATA_CATEGORY"]
    ensures "EVENT_CATEGORY" in settings ==> NewConnectorConfig(settings).eventCategory == settings["EVENT_CATEGORY"]
  {
  }

  /** The topic segment for a message category. */
  function CategorySegment(cfg: ConnectorConfig, category: string): string
  {
    if category == "TAGDATA" then cfg.tagDataCategory
    else if category == "EVENT" then cfg.eventCategory
    else FallbackCategory
  }

  /**
   * The topic of a message: the template with every `<EQNAME>` replaced by the
   * owning asset, then every `<CATEGORY>` by the category's segment, then
   * every `<TAGNAME>` by the item name, each step on the previous one's output.
   */
  function BuildTopic(cfg: ConnectorConfig, tag: StdMessage): string
  {
    var withEq := ReplaceAll(cfg.topicTemplate, EqNamePlaceholder, tag.owningAsset);
    var withCategory := ReplaceAll(withEq, CategoryPlaceholder, CategorySegment(cfg, tag.category));
    ReplaceAll(withCategory, TagNamePlaceholder, tag.itemName)
  }

  /** A template without placeholders is the topic of every message. */
  lemma TopicWithoutPlaceholders(cfg: ConnectorConfig, tag: StdMessage)
    requires !Occurs(cfg.topicTemplate, EqNamePlaceholder)
    requires !Occurs(cfg.topicTemplate, CategoryPlaceholder)
    requires !Occurs(cfg.topicTemplate, TagNamePlaceholder)
    ensures BuildTopic(cfg, tag) == cfg.topicTemplate
  {
    ReplaceAllNoMatch(cfg.topicTemplate, EqNamePlaceholder, tag.owningAsset);
    ReplaceAllNoMatch(cfg.topicTemplate, CategoryPlaceholder, CategorySegment(cfg, tag.category));
    ReplaceAllNoMatch(cfg.topicTemplate, TagNamePlaceholder, tag.itemName);
  }

  /** The default template is three placeholders separated by `/`. */
  lemma DefaultTemplateSegments()
    ensures DefaultTopicTemplate == EqNamePlaceholder + "/" + CategoryPlaceholder + "/" + TagNamePlaceholder
    ensures '/' !in EqNamePlaceholder && '/' !in CategoryPlaceholder && '/' !in TagNamePlaceholder
    ensures !Occurs(CategoryPlaceholder, EqNamePlaceholder) && !Occurs(TagNamePlaceholder, EqNamePlaceholder)
    ensures !Occurs(TagNamePlaceholder, CategoryPlaceholder)
  {
    TemplateConcat();
    EqNameNotInOthers();
    CategoryNotInTagName();
  }

  /** The default template as its parts, none of which holds a `/`. */
  lemma TemplateConcat()
    ensures DefaultTopicTemplate == EqNamePlaceholder + "/" + CategoryPlaceholder + "/" + TagNamePlaceholder
    ensures '/' !in EqNamePlaceholder && '/' !in CategoryPlaceholder && '/' !in TagNamePlaceholder
  {
  }

  /** `<EQNAME>` holds a `Q` that the other two placeholders lack. */
  lemma EqNameNotInOthers()
    ensures !Occurs(CategoryPlaceholder, EqNamePlaceholder) && !Occurs(TagNamePlaceholder, EqNamePlaceholder)
  {
    assert EqNamePlaceholder[2] == 'Q' && 'Q' !in CategoryPlaceholder && 'Q' !in TagNamePlaceholder;
    NoOccurrenceWithoutChar(CategoryPlaceholder, EqNamePlaceholder, 2);
    NoOccurrenceWithoutChar(TagNamePlaceholder, EqNamePlaceholder, 2);
  }

  /** `<CATEGORY>` holds a `C` that `<TAGNAME>` lacks. */
  lemma CategoryNotInTagName()
    ensures !Occurs(TagNamePlaceholder, CategoryPlaceholder)
  {
    assert CategoryPlaceholder[1] == 'C' && 'C' !in TagNamePlaceholder;
    NoOccurrenceWithoutChar(TagNamePlaceholder, CategoryPlaceholder, 1);
  }

  /** No default category segment holds a `<`, so none holds `<TAGNAME>`. */
  lemma TagNameNotInDefaultSegments()
    ensures !Occurs(DefaultTagDataCategory, TagNamePlaceholder)
    ensures !Occurs(DefaultEventCategory, TagNamePlaceholder)
    ensures !Occurs(FallbackCategory, TagNamePlaceholder)
  {
    assert TagNamePlaceholder[0] == '<';
    assert '<' !in DefaultTagDataCategory && '<' !in DefaultEventCategory && '<' !in FallbackCategory;
    NoOccurrenceWithoutChar(DefaultTagDataCategory, TagNamePlaceholder, 0);
    NoOccurrenceWithoutChar(DefaultEventCategory, TagNamePlaceholder, 0);
    NoOccurrenceWithoutChar(FallbackCategory, TagNamePlaceholder, 0);
  }

  /**
   * The default template yields `asset/segment/item`, where the segment is the
   * category's, provided the asset name holds no `<CATEGORY>` or `<TAGNAME>`
   * and the segment no `<TAGNAME>`: a placeholder inside an inserted value is
   * rewritten by the later steps.
   */
  lemma DefaultTemplateTopic(cfg: ConnectorConfig, tag: StdMessage)
    requires cfg.topicTemplate == DefaultTopicTemplate
    requires !Occurs(tag.owningAsset, CategoryPlaceholder) && !Occurs(tag.owningAsset, TagNamePlaceholder)
    requires !Occurs(CategorySegment(cfg, tag.category), TagNamePlaceholder)
    ensures BuildTopic(cfg, tag) == tag.owningAsset + "/" + CategorySegment(cfg, tag.category) + "/" + tag.itemName
  {
    var a, seg, n := tag.owningAsset, CategorySegment(cfg, tag.category), tag.itemName;
    var e, c, t := EqNamePlaceholder, CategoryPlaceholder, TagNamePlaceholder;
    DefaultTemplateSegments();

    ReplaceAllInPath(e, c, t, e, a);
    ReplaceAllWhole(e, a);
    ReplaceAllNoMatch(c, e, a);
    ReplaceAllNoMatch(t, e, a);
    var s1 := a + "/" + c + "/" + t;
    assert ReplaceAll(cfg.topicTemplate, e, a) == s1;

    ReplaceAllInPath(a, c, t, c, seg);
    ReplaceAllNoMatch(a, c, seg);
    ReplaceAllWhole(c, seg);
    ReplaceAllNoMatch(t, c, seg);
    var s2 := a + "/" + seg + "/" + t;
    assert ReplaceAll(s1, c, seg) == s2;

    ReplaceAllInPath(a, seg, t, t, n);
    ReplaceAllNoMatch(a, t, n);
    ReplaceAllNoMatch(seg, t, n);
    ReplaceAllWhole(t, n);
  }

  /** With the default settings, tag data goes to `asset/EdgeTagChange/item`. */
  lemma DefaultTagDataTopic(tag: StdMessage)
    requires tag.category == "TAGDATA"
    requires !Occurs(tag.owningAsset, CategoryPlaceholder) && !Occurs(tag.owningAsset, TagNamePlaceholder)
    ensures BuildTopic(NewConnectorConfig(map[]), tag) == tag.owningAsset + "/" + DefaultTagDataCategory + "/" + tag.itemName
  {
    var cfg := NewConnectorConfig(map[]);
    NewConnectorConfigDefaults(map[]);
    TagNameNotInDefaultSegments();
    DefaultTemplateTopic(cfg, tag);
  }

  /** With the default settings, events go to `asset/EdgeEvent/item`. */
  lemma DefaultEventTopic(tag: StdMessage)
    requires tag.category == "EVENT"
    requires !Occurs(tag.owningAsset, CategoryPlaceholder) && !Occurs(tag.owningAsset, TagNamePlaceholder)
    ensures BuildTopic(NewConnectorConfig(map[]), tag) == tag.owningAsset + "/" + DefaultEventCategory + "/" + tag.itemName
  {
    var cfg := NewConnectorConfig(map[]);
    NewConnectorConfigDefaults(map[]);
    TagNameNotInDefaultSegments();
    DefaultTemplateTopic(cfg, tag);
  }

  /** Whatever the configured categories, a message that is neither tag data nor an event goes under `EdgeMessage`. */
  lemma OtherCategoryTopic(cfg: ConnectorConfig, tag: StdMessage)
    requires cfg.topicTemplate == DefaultTopicTemplate
    requires tag.category != "TAGDATA" && tag.category != "EVENT"
    requires !Occurs(tag.owningAsset, CategoryPlaceholder) && !Occurs(tag.owningAsset, TagNamePlaceholder)
    ensures BuildTopic(cfg, tag) == tag.owningAsset + "/" + FallbackCategory + "/" + tag.itemName
  {
    TagNameNotInDefaultSegments();
    DefaultTemplateTopic(cfg, tag);
  }

  /** An asset name holding `<TAGNAME>` has it replaced by the item name too. */
  lemma PlaceholderInAssetIsRewritten(itemName: string)
    ensures var tag := StdMessage("<TAGNAME>", "", itemName, Nil, "TAGDATA");
            BuildTopic(NewConnectorConfig(map[]), tag) == itemName + "/" + DefaultTagDataCategory + "/" + itemName
  {
    var tag := StdMessage("<TAGNAME>", "", itemName, Nil, "TAGDATA");
    var cfg := NewConnectorConfig(map[]);
    NewConnectorConfigDefaults(map[]);
    var e, c, t := EqNamePlaceholder, CategoryPlaceholder, TagNamePlaceholder;
    var seg := DefaultTagDataCategory;
    assert CategorySegment(cfg, tag.category) == seg;
    assert tag.owningAsset == t;
    var s1 := ReplaceAll(cfg.topicTemplate, e, t);
    EqNameStep(t);
    var s2 := ReplaceAll(s1, c, seg);
    CategoryNotInTagName();
    CategoryStep(t, seg);
    TagNameNotInDefaultSegments();
    TagNameStep(seg, itemName);
  }

  /** The first step of the default template puts the asset name in front. */
  lemma EqNameStep(a: string)
    ensures ReplaceAll(DefaultTopicTemplate, EqNamePlaceholder, a) == a + "/" + CategoryPlaceholder + "/" + TagNamePlaceholder
  {
    var e, c, t := EqNamePlaceholder, CategoryPlaceholder, TagNamePlaceholder;
    DefaultTemplateSegments();
    ReplaceAllInPath(e, c, t, e, a);
    ReplaceAllWhole(e, a);
    ReplaceAllNoMatch(c, e, a);
    ReplaceAllNoMatch(t, e, a);
  }

  /** For an asset without `<CATEGORY>`, the second step fills in the category segment only. */
  lemma CategoryStep(a: string, seg: string)
    requires !Occurs(a, CategoryPlaceholder)
    ensures ReplaceAll(a + "/" + CategoryPlaceholder + "/" + TagNamePlaceholder, CategoryPlaceholder, seg)
            == a + "/" + seg + "/" + TagNamePlaceholder
  {
    var c, t := CategoryPlaceholder, TagNamePlaceholder;
    TemplateConcat();
    CategoryNotInTagName();
    ReplaceAllInPath(a, c, t, c, seg);
    ReplaceAllNoMatch(a, c, seg);
    ReplaceAllNoMatch(t, c, seg);
    ReplaceAllWhole(c, seg);
  }

  /** With `<TAGNAME>` as the asset and a segment without it, the last step replaces both tag-name placeholders. */
  lemma TagNameStep(seg: string, itemName: string)
    requires !Occurs(seg, TagNamePlaceholder)
    ensures ReplaceAll(TagNamePlaceholder + "/" + seg + "/" + TagNamePlaceholder, TagNamePlaceholder, itemName)
            == itemName + "/" + seg + "/" + itemName
  {
    var t := TagNamePlaceholder;
    TemplateConcat();
    ReplaceAllInPath(t, seg, t, t, itemName);
    ReplaceAllWhole(t, itemName);
    ReplaceAllNoMatch(seg, t, itemName);
  }

  /** The publication of a message: QoS 0, retained exactly when it is tag data. */
  datatype Publication = Publication(topic: string, qos: nat, retain: bool)

  function Publish(cfg: ConnectorConfig, tag: StdMessage): (p: Publication)
    ensures p.topic == BuildTopic(cfg, tag) && p.qos == 0
  {
    Publication(BuildTopic(cfg, tag), 0, tag.category == "TAGDATA")
  }

  /** Only tag data is retained by the broker; events and other messages are not. */
  lemma RetainOnlyTagData(cfg: ConnectorConfig, tag: StdMessage)
    ensures Publish(cfg, tag).retain <==> tag.category == "TAGDATA"
    ensures tag.category == "EVENT" ==> !Publish(cfg, tag).retain
  {
  }
}
