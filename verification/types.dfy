/**
 * The records the CMS works on. `ArticleSection`, the CMS `Article` and `User` are not
 * declared in the repository's type files shown here; they are reconstructed from how
 * the editor, the renderer, the article form and the dashboard build and read them.
 */
module Types {

  import opened Wrappers

  /** The `type` of a content block. `Other` is any other tag read back from storage. */
  datatype SectionType = Heading | Paragraph | Quote | List | Image | Divider | Other(name: string)

  datatype ListType = Bullet | Numbered

  /** One typed content block of an article body. */
  datatype ArticleSection = ArticleSection(
    id: string,
    kind: SectionType,
    content: string,
    level: Option<int>,
    listType: Option<ListType>,
    listItems: Option<seq<string>>,
    imageUrl: Option<string>,
    imageCaption: Option<string>)

  /** A `Partial<ArticleSection>`: the fields present are the ones to overwrite. */
  datatype SectionPatch = SectionPatch(
    id: Option<string>,
    kind: Option<SectionType>,
    content: Option<string>,
    level: Option<int>,
    listType: Option<ListType>,
    listItems: Option<seq<string>>,
    imageUrl: Option<string>,
    imageCaption: Option<string>)

  const NoChanges: SectionPatch := SectionPatch(None, None, None, None, None, None, None, None)

  /** `{ ...section, ...updates }`. */
  function Merge(section: ArticleSection, updates: SectionPatch): (r: ArticleSection)
    ensures updates == NoChanges ==> r == section
    ensures updates.id.Some? ==> r.id == updates.id.value
    ensures updates.id.None? ==> r.id == section.id
    ensures updates.kind.Some? ==> r.kind == updates.kind.value
    ensures updates.kind.None? ==> r.kind == section.kind
    ensures updates.content.Some? ==> r.content == updates.content.value
    ensures updates.content.None? ==> r.content == section.content
    ensures r.level == (if updates.level.Some? then updates.level else section.level)
    ensures r.listType == (if updates.listType.Some? then updates.listType else section.listType)
    ensures r.listItems == (if updates.listItems.Some? then updates.listItems else section.listItems)
    ensures r.imageUrl == (if updates.imageUrl.Some? then updates.imageUrl else section.imageUrl)
    ensures r.imageCaption == (if updates.imageCaption.Some? then updates.imageCaption else section.imageCaption)
  {
    ArticleSection(
      Override(updates.id, section.id),
      Override(updates.kind, section.kind),
      Override(updates.content, section.content),
      OverrideOpt(updates.level, section.level),
      OverrideOpt(updates.listType, section.listType),
      OverrideOpt(updates.listItems, section.listItems),
      OverrideOpt(updates.imageUrl, section.imageUrl),
      OverrideOpt(updates.imageCaption, section.imageCaption))
  }

  /** Merging the same updates twice is merging them once. */
  lemma MergeIdempotent(section: ArticleSection, updates: SectionPatch)
    ensures Merge(Merge(section, updates), updates) == Merge(section, updates)
  {
  }

  datatype ArticleStatus = Draft | Published | Archived

  datatype Role = Admin | Editor | Moderator

  /** An editorial account, reduced to what the CMS copies into articles. */
  datatype User = User(id: string, name: string, email: string, role: Role)

  /** The catalogue's article record (`src/types/index.ts`), as the mock fixtures hold it. */
  datatype BaseArticle = BaseArticle(
    id: string,
    title: string,
    excerpt: string,
    content: string,
    category: string,
    publishedAt: string,
    readTime: int,
    imageUrl: Option<string>,
    slug: string)

  /** The CMS article: the catalogue record plus editorial fields. */
  datatype Article = Article(
    id: string,
    title: string,
    excerpt: string,
    content: string,
    formattedContent: seq<ArticleSection>,
    category: string,
    publishedAt: string,
    readTime: int,
    imageUrl: Option<string>,
    slug: string,
    seoTitle: Option<string>,
    seoDescription: Option<string>,
    status: ArticleStatus,
    tags: seq<string>,
    author: User,
    createdAt: string,
    updatedAt: string)

  /** JavaScript truthiness of an optional string: present and not empty. */
  predicate Truthy(s: Option<string>) {
    s.Some? && s.value != []
  }

  /** `a || b` on optional strings. */
  function OrElse(a: Option<string>, b: string): (r: string)
    ensures Truthy(a) ==> r == a.value
    ensures !Truthy(a) ==> r == b
  {
    if Truthy(a) then a.value else b
  }
}
