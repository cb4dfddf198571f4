/**
 * The article table of the CMS dashboard (`src/components/cms/CMSDashboard.tsx`): seeding
 * from the catalogue fixtures, save and delete, search with a status filter, the counts
 * per status, and the labels shown for a status. The collection kept under the
 * `cms_articles` key is the field `stored`.
 */
module CMSDashboard {

  import opened Wrappers
  import opened Seqs
  import opened Text
  import opened Types

  /** `handleSaveArticle`: an edited article replaces every article with its id, a new one is appended. */
  function SaveInto(articles: seq<Article>, editing: Option<Article>, data: Article): (r: seq<Article>)
    ensures editing.None? ==> r == articles + [data]
    ensures editing.Some? ==> |r| == |articles|
    ensures editing.Some? ==> forall i :: 0 <= i < |r| ==>
      r[i] == if articles[i].id == editing.value.id then data else articles[i]
    decreases |articles|
  {
    if editing.None? then articles + [data]
    else if articles == [] then []
    else
      [if articles[0].id == editing.value.id then data else articles[0]] + SaveInto(articles[1..], editing, data)
  }

  /** `handleDeleteArticle(id)` once confirmed: every article with the id goes, the rest keep their order. */
  function DeleteArticle(articles: seq<Article>, id: string): (r: seq<Article>)
    ensures forall i :: 0 <= i < |r| ==> r[i].id != id
    ensures forall a: Article :: a.id != id ==> multiset(r)[a] == multiset(articles)[a]
    ensures IsSubsequence(r, articles)
  {
    FilterIsSubsequence(articles, (a: Article) => a.id != id);
    FilterMultiset(articles, (a: Article) => a.id != id);
    Filter(articles, (a: Article) => a.id != id)
  }

  /** Deleting a newly saved article whose id was not in use gives back the table before the save. */
  lemma DeleteUndoesNewSave(articles: seq<Article>, data: Article)
    requires forall i :: 0 <= i < |articles| ==> articles[i].id != data.id
    ensures DeleteArticle(SaveInto(articles, None, data), data.id) == articles
  {
    FilterAppend(articles, [data], (a: Article) => a.id != data.id);
    FilterAll(articles, (a: Article) => a.id != data.id);
  }

  /** After saving an edit, the saved record sits wherever the edited id was, and the old one is gone. */
  lemma SaveEditReplaces(articles: seq<Article>, edited: Article, data: Article, i: nat)
    requires i < |articles|
    ensures articles[i].id == edited.id ==> SaveInto(articles, Some(edited), data)[i] == data
    ensures data.id == edited.id ==>
      (articles[i].id == edited.id <==> SaveInto(articles, Some(edited), data)[i].id == edited.id)
  {
  }

  /** The status choice of the table: `'all'` or one status. */
  datatype StatusFilter = AllStatuses | OnlyStatus(status: ArticleStatus)

  /** One article's test in `filteredArticles`. */
  predicate Matches(article: Article, query: string, filter: StatusFilter) {
    && (Contains(ToLower(article.title), ToLower(query)) || Contains(ToLower(article.excerpt), ToLower(query)))
    && (filter == AllStatuses || filter == OnlyStatus(article.status))
  }

  /** `filteredArticles`: the articles that match, in table order. */
  function Filtered(articles: seq<Article>, query: string, filter: StatusFilter): (r: seq<Article>)
    ensures forall a :: a in r <==> a in articles && Matches(a, query, filter)
    ensures forall a :: multiset(r)[a] == if Matches(a, query, filter) then multiset(articles)[a] else 0
    ensures IsSubsequence(r, articles)
  {
    FilterIsSubsequence(articles, (a: Article) => Matches(a, query, filter));
    FilterMembers(articles, (a: Article) => Matches(a, query, filter));
    FilterMultiset(articles, (a: Article) => Matches(a, query, filter));
    Filter(articles, (a: Article) => Matches(a, query, filter))
  }

  /** Every string contains the empty string. */
  lemma ContainsEmpty(s: string)
    ensures Contains(s, [])
  {
    assert IsPrefix([], s);
  }

  /** An empty search with the filter on `'all'` shows every article. */
  lemma EmptySearchShowsAll(articles: seq<Article>)
    ensures Filtered(articles, "", AllStatuses) == articles
  {
    forall i | 0 <= i < |articles| ensures Matches(articles[i], "", AllStatuses) {
      ContainsEmpty(ToLower(articles[i].title));
    }
    FilterAll(articles, (a: Article) => Matches(a, "", AllStatuses));
  }

  /** The test `a.status === status`. */
  function WithStatus(status: ArticleStatus): Article -> bool {
    (a: Article) => a.status == status
  }

  datatype Stats = Stats(total: nat, published: nat, drafts: nat, archived: nat)

  /** `stats`: the table size and the number of articles in each status. */
  function ComputeStats(articles: seq<Article>): (r: Stats)
    ensures r.total == |articles|
    ensures r.published == Count(articles, WithStatus(Published))
    ensures r.drafts == Count(articles, WithStatus(Draft))
    ensures r.archived == Count(articles, WithStatus(Archived))
    ensures r.published + r.drafts + r.archived == r.total
  {
    StatusCountsAddUp(articles);
    Stats(|articles|, Count(articles, WithStatus(Published)), Count(articles, WithStatus(Draft)),
          Count(articles, WithStatus(Archived)))
  }

  /** Every article is in exactly one of the three statuses, so the three counts add up to the total. */
  lemma {:induction false} StatusCountsAddUp(articles: seq<Article>)
    ensures Count(articles, WithStatus(Published)) + Count(articles, WithStatus(Draft))
      + Count(articles, WithStatus(Archived)) == |articles|
  {
    if articles != [] {
      StatusCountsAddUp(articles[1..]);
    }
  }

  /** A catalogue article given the editorial fields: published, created and updated at publication, empty body and tags. */
  function SeedArticle(base: BaseArticle, author: User): (r: Article)
    ensures r.id == base.id && r.title == base.title && r.excerpt == base.excerpt
    ensures r.content == base.content && r.category == base.category && r.slug == base.slug
    ensures r.readTime == base.readTime && r.imageUrl == base.imageUrl
    ensures r.status == Published && r.author == author
    ensures r.createdAt == base.publishedAt && r.updatedAt == base.publishedAt && r.publishedAt == base.publishedAt
    ensures r.formattedContent == [] && r.tags == []
    ensures r.seoTitle.None? && r.seoDescription.None?
  {
    Article(base.id, base.title, base.excerpt, base.content, [], base.category, base.publishedAt,
            base.readTime, base.imageUrl, base.slug, None, None, Published, [], author,
            base.publishedAt, base.publishedAt)
  }

  /** The effect on load: an empty store is seeded from the fixtures, otherwise the store is shown. */
  function Seed(stored: seq<Article>, mock: seq<BaseArticle>, author: User): (r: seq<Article>)
    ensures stored != [] ==> r == stored
    ensures stored == [] ==> |r| == |mock| && forall i :: 0 <= i < |mock| ==> r[i] == SeedArticle(mock[i], author)
  {
    if |stored| == 0 then seq(|mock|, i requires 0 <= i < |mock| => SeedArticle(mock[i], author))
    else stored
  }

  /** A freshly seeded table counts every article as published. */
  lemma SeededAllPublished(mock: seq<BaseArticle>, author: User)
    ensures ComputeStats(Seed([], mock, author)).published == |mock|
    ensures ComputeStats(Seed([], mock, author)).drafts == 0
  {
    var seeded := Seed([], mock, author);
    FilterAll(seeded, WithStatus(Published));
    assert forall i :: 0 <= i < |seeded| ==> !WithStatus(Draft)(seeded[i]);
    FilterMultiset(seeded, WithStatus(Draft));
    assert multiset(Filter(seeded, WithStatus(Draft))) == multiset{};
  }

  /** `getStatusLabel`. */
  function StatusLabel(status: ArticleStatus): string {
    match status
    case Published => "Opublikowane"
    case Draft => "Szkic"
    case Archived => "Archiwum"
  }

  /** `getStatusBadgeVariant`. */
  function BadgeVariant(status: ArticleStatus): string {
    match status
    case Published => "default"
    case Draft => "secondary"
    case Archived => "outline"
  }

  /** Different statuses are shown with different labels and different badges. */
  lemma StatusDisplayDistinct(s: ArticleStatus, t: ArticleStatus)
    requires s != t
    ensures StatusLabel(s) != StatusLabel(t)
    ensures BadgeVariant(s) != BadgeVariant(t)
  {
  }

  /** The dashboard's state: the table, the stored collection, the article being edited and whether the form is open. */
  class Dashboard {
    var articles: seq<Article>
    var stored: seq<Article>
    var editing: Option<Article>
    var showForm: bool

    /** A dashboard over the stored collection, before the load effect has run. */
    constructor(stored: seq<Article>)
      ensures this.stored == stored && articles == [] && editing.None? && !showForm
    {
      this.stored := stored;
      articles := [];
      editing := None;
      showForm := false;
    }

    /** The load effect: seeds and stores the fixtures when the store is empty, else shows the store. */
    method Load(mock: seq<BaseArticle>, author: User)
      modifies this
      ensures articles == Seed(old(stored), mock, author)
      ensures stored == articles
      ensures editing == old(editing) && showForm == old(showForm)
    {
      var storedArticles := stored;
      if |storedArticles| == 0 {
        var initial := seq(|mock|, i requires 0 <= i < |mock| => SeedArticle(mock[i], author));
        articles := initial;
        stored := initial;
      } else {
        articles := storedArticles;
      }
    }

    /** `handleSaveArticle(articleData)`: table and store updated, the form closed. */
    method SaveArticle(data: Article)
      modifies this
      ensures articles == SaveInto(old(articles), old(editing), data)
      ensures stored == articles && editing.None? && !showForm
    {
      var updated := SaveInto(articles, editing, data);
      articles := updated;
      stored := updated;
      showForm := false;
      editing := None;
    }

    /** `handleDeleteArticle(id)` once the user has confirmed. */
    method Delete(id: string)
      modifies this
      ensures articles == DeleteArticle(old(articles), id)
      ensures stored == articles && editing == old(editing) && showForm == old(showForm)
    {
      var updated := DeleteArticle(articles, id);
      articles := updated;
      stored := updated;
    }

    /** The edit button of a row. */
    method BeginEdit(article: Article)
      modifies this
      ensures editing == Some(article) && showForm
      ensures articles == old(articles) && stored == old(stored)
    {
      editing := Some(article);
      showForm := true;
    }

    /** The "new article" button: opens the form and leaves `editing` as it is. */
    method BeginNew()
      modifies this
      ensures showForm && editing == old(editing)
      ensures articles == old(articles) && stored == old(stored)
    {
      showForm := true;
    }

    /** The form's cancel callback. */
    method Cancel()
      modifies this
      ensures !showForm && editing.None?
      ensures articles == old(articles) && stored == old(stored)
    {
      showForm := false;
      editing := None;
    }
  }
}
