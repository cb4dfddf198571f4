/**
 * The article body renderer (`src/components/ArticleRenderer.tsx`) as a map from blocks
 * to an abstract description of what is drawn: the element, its class and its text.
 */
module ArticleRenderer {

  import opened Wrappers
  import opened Types

  /** The tag name `h${level}`: with no level it is the string "hundefined", which no element has. */
  datatype HeadingTag = Tag(level: int) | UndefinedTag

  /** A rendered picture: its source, its alternative text and the caption line, if any. */
  datatype Picture = Picture(src: string, alt: string, caption: Option<string>)

  datatype Node =
    | HeadingNode(tag: HeadingTag, headingClass: Option<string>, text: string)
    | ParagraphNode(className: string, text: string)
    | QuoteNode(className: string, text: string)
    | ListNode(ordered: bool, className: string, items: seq<string>)
    | ImageBox(picture: Option<Picture>)
    | RuleNode
    | NoNode

  /** The keyed `div` around each block. */
  datatype Wrapper = Wrapper(key: string, body: Node)

  const ParagraphClass: string := "text-muted-foreground mb-4 leading-relaxed"
  const QuoteClass: string :=
    "border-l-4 border-gmina-primary pl-4 py-2 mb-4 italic text-muted-foreground bg-gray-50 rounded-r"
  const OrderedClass: string := "list-decimal list-inside mb-4 space-y-2 text-muted-foreground"
  const BulletClass: string := "list-disc list-inside mb-4 space-y-2 text-muted-foreground"

  /** The `headingClasses` table: one class for each level from 1 to 6, nothing for other keys. */
  function HeadingClass(key: int): (r: Option<string>)
    ensures r.Some? <==> 1 <= key <= 6
  {
    if key == 1 then Some("text-3xl font-bold text-foreground mb-6 mt-8")
    else if key == 2 then Some("text-2xl font-semibold text-foreground mb-4 mt-6")
    else if key == 3 then Some("text-xl font-semibold text-foreground mb-3 mt-5")
    else if key == 4 then Some("text-lg font-semibold text-foreground mb-2 mt-4")
    else if key == 5 then Some("text-base font-semibold text-foreground mb-2 mt-3")
    else if key == 6 then Some("text-sm font-semibold text-foreground mb-1 mt-2")
    else None
  }

  /** `section.level || 2`: an absent level and level 0 are both falsy. */
  function HeadingKey(level: Option<int>): (k: int)
    ensures level.None? ==> k == 2
    ensures level.Some? && level.value != 0 ==> k == level.value
    ensures level == Some(0) ==> k == 2
  {
    if level.None? || level.value == 0 then 2 else level.value
  }

  /** `renderSection(section)`. */
  function RenderSection(section: ArticleSection): (r: Node)
    ensures section.kind == Heading <==> r.HeadingNode?
    ensures section.kind == Paragraph <==> r.ParagraphNode?
    ensures section.kind == Quote <==> r.QuoteNode?
    ensures section.kind == List <==> r.ListNode?
    ensures section.kind == Image <==> r.ImageBox?
    ensures section.kind == Divider <==> r.RuleNode?
    ensures section.kind.Other? <==> r.NoNode?
    ensures (r.HeadingNode? || r.ParagraphNode? || r.QuoteNode?) ==> r.text == section.content
  {
    match section.kind
    case Heading =>
      var tag := if section.level.Some? then Tag(section.level.value) else UndefinedTag;
      HeadingNode(tag, HeadingClass(HeadingKey(section.level)), section.content)
    case Paragraph => ParagraphNode(ParagraphClass, section.content)
    case Quote => QuoteNode(QuoteClass, section.content)
    case List =>
      var numbered := section.listType == Some(Numbered);
      ListNode(numbered, if numbered then OrderedClass else BulletClass,
               if section.listItems.Some? then section.listItems.value else [])
    case Image =>
      if Truthy(section.imageUrl) then
        ImageBox(Some(Picture(section.imageUrl.value, OrElse(section.imageCaption, section.content),
                              if Truthy(section.imageCaption) then section.imageCaption else None)))
      else ImageBox(None)
    case Divider => RuleNode
    case Other(_) => NoNode
  }

  /** A heading of level 1 to 6 gets the element and the class of that level. */
  lemma HeadingLevelsAgree(section: ArticleSection)
    requires section.kind == Heading && section.level.Some? && 1 <= section.level.value <= 6
    ensures RenderSection(section).tag == Tag(section.level.value)
    ensures RenderSection(section).headingClass == HeadingClass(section.level.value)
  {
  }

  /**
   * The class falls back to level 2 but the element does not: a heading without a level
   * is styled as level 2 inside an element named "hundefined", and level 0 as level 2
   * inside "h0".
   */
  lemma HeadingFallbackMismatch(section: ArticleSection)
    requires section.kind == Heading && (section.level.None? || section.level == Some(0))
    ensures RenderSection(section).headingClass == HeadingClass(2)
    ensures RenderSection(section).tag != Tag(2)
  {
  }

  /** A heading level outside 1 to 6, other than 0, gets no class at all. */
  lemma HeadingOutOfRangeUnstyled(section: ArticleSection)
    requires section.kind == Heading && section.level.Some?
    requires section.level.value != 0 && !(1 <= section.level.value <= 6)
    ensures RenderSection(section).headingClass.None?
  {
  }

  /** A list is ordered exactly when it is numbered, and shows its items one by one, in order. */
  lemma ListRendering(section: ArticleSection)
    requires section.kind == List
    ensures RenderSection(section).ordered <==> section.listType == Some(Numbered)
    ensures RenderSection(section).className == if section.listType == Some(Numbered) then OrderedClass else BulletClass
    ensures section.listItems.Some? ==> RenderSection(section).items == section.listItems.value
    ensures section.listItems.None? ==> RenderSection(section).items == []
  {
  }

  /**
   * An image block without an address draws an empty box; with one, the alternative text
   * is the caption or else the block text, and the caption line appears only for a caption.
   */
  lemma ImageRendering(section: ArticleSection)
    requires section.kind == Image
    ensures RenderSection(section).picture.None? <==> !Truthy(section.imageUrl)
    ensures Truthy(section.imageUrl) ==>
      && RenderSection(section).picture.value.src == section.imageUrl.value
      && RenderSection(section).picture.value.alt == (if Truthy(section.imageCaption) then section.imageCaption.value else section.content)
      && (RenderSection(section).picture.value.caption.Some? <==> Truthy(section.imageCaption))
  {
  }

  /** The whole body: nothing for a missing or empty list, else one keyed wrapper per block, in order. */
  function RenderArticle(sections: Option<seq<ArticleSection>>): (r: Option<seq<Wrapper>>)
    ensures r.None? <==> sections.None? || sections.value == []
    ensures r.Some? ==> |r.value| == |sections.value|
    ensures r.Some? ==> forall i :: 0 <= i < |r.value| ==>
      r.value[i].key == sections.value[i].id && r.value[i].body == RenderSection(sections.value[i])
  {
    if sections.None? || |sections.value| == 0 then None
    else Some(seq(|sections.value|, i requires 0 <= i < |sections.value| =>
                  Wrapper(sections.value[i].id, RenderSection(sections.value[i]))))
  }
}
