/**
 * The logic of the article editing form (`src/components/cms/ArticleForm.tsx`): field
 * edits with the automatic slug, the tag list, validation, the reading-time estimate and
 * the article record a submission produces. The clock (`now`) and the fresh id
 * (`Date.now().toString()`) come in as parameters.
 */
module ArticleForm {

  import opened Wrappers
  import opened Seqs
  import opened Text
  import opened Utils
  import opened Types

  /** The form's text inputs; the error record is keyed by them. */
  datatype FormField = Title | Excerpt | Content | Category | ImageUrl | Slug | SeoTitle | SeoDescription

  /** The `formData` record. */
  datatype FormData = FormData(
    title: string,
    excerpt: string,
    content: string,
    category: string,
    imageUrl: string,
    slug: string,
    seoTitle: string,
    seoDescription: string,
    status: ArticleStatus,
    tags: seq<string>)

  /** The form's state apart from the sections, which the section editor owns. */
  datatype FormState = FormState(data: FormData, newTag: string, errors: map<FormField, string>)

  /** The state of a fresh form: every text empty, status draft, no tags, no errors. */
  const InitialForm: FormState :=
    FormState(FormData("", "", "", "", "", "", "", "", Draft, []), "", map[])

  /** A fresh form with no sections fails exactly the five checked rules, so it cannot be submitted as it is. */
  lemma InitialFormFailsChecked()
    ensures forall f: FormField :: Fails(InitialForm.data, [], f) <==> f in Checked
  {
  }

  function Value(data: FormData, field: FormField): string {
    match field
    case Title => data.title
    case Excerpt => data.excerpt
    case Content => data.content
    case Category => data.category
    case ImageUrl => data.imageUrl
    case Slug => data.slug
    case SeoTitle => data.seoTitle
    case SeoDescription => data.seoDescription
  }

  /** The record with one text field replaced. */
  function WithValue(data: FormData, field: FormField, value: string): (r: FormData)
    ensures Value(r, field) == value
    ensures forall g :: g != field ==> Value(r, g) == Value(data, g)
    ensures r.status == data.status && r.tags == data.tags
  {
    match field
    case Title => data.(title := value)
    case Excerpt => data.(excerpt := value)
    case Content => data.(content := value)
    case Category => data.(category := value)
    case ImageUrl => data.(imageUrl := value)
    case Slug => data.(slug := value)
    case SeoTitle => data.(seoTitle := value)
    case SeoDescription => data.(seoDescription := value)
  }

  /**
   * The form filled from an existing article: absent optional texts become "", and the
   * article's blocks become the editor's sections.
   */
  function LoadArticle(article: Article): (r: (FormData, seq<ArticleSection>))
    ensures r.0.title == article.title && r.0.excerpt == article.excerpt && r.0.content == article.content
    ensures r.0.category == article.category && r.0.slug == article.slug
    ensures r.0.imageUrl == OrElse(article.imageUrl, "")
    ensures r.0.seoTitle == OrElse(article.seoTitle, "")
    ensures r.0.seoDescription == OrElse(article.seoDescription, "")
    ensures r.0.status == article.status && r.0.tags == article.tags
    ensures r.1 == article.formattedContent
  {
    (FormData(article.title, article.excerpt, article.content, article.category,
              OrElse(article.imageUrl, ""), article.slug,
              OrElse(article.seoTitle, ""), OrElse(article.seoDescription, ""),
              article.status, article.tags),
     article.formattedContent)
  }

  /**
   * `handleInputChange(field, value)`: the field takes the value, a new title also
   * replaces the slug by the title's slug, and a pending error on the field is blanked.
   */
  function InputChange(state: FormState, field: FormField, value: string): (r: FormState)
    ensures field != Title ==> Value(r.data, field) == value
    ensures field == Title ==> r.data.title == value && r.data.slug == Slugify(value)
    ensures r.data.status == state.data.status && r.data.tags == state.data.tags && r.newTag == state.newTag
    ensures field in state.errors && state.errors[field] != "" ==> r.errors == state.errors[field := ""]
    ensures !(field in state.errors && state.errors[field] != "") ==> r.errors == state.errors
  {
    var changed := WithValue(state.data, field, value);
    var data := if field == Title then changed.(slug := Slugify(value)) else changed;
    var errors := if field in state.errors && state.errors[field] != "" then state.errors[field := ""] else state.errors;
    FormState(data, state.newTag, errors)
  }

  /** A field edit changes no other field, except that a title edit also sets the slug. */
  lemma InputChangeKeepsOtherFields(state: FormState, field: FormField, value: string, other: FormField)
    requires other != field && !(field == Title && other == Slug)
    ensures Value(InputChange(state, field, value).data, other) == Value(state.data, other)
  {
  }

  /** The slug a title edit produces always has the shape of a slug. */
  lemma TitleEditGivesSlug(state: FormState, value: string)
    ensures IsSlug(InputChange(state, Title, value).data.slug)
  {
  }

  /** A non-empty text with no white space at either end, as `trim()` leaves it. */
  predicate IsTrimmedTag(t: string) {
    t != [] && !IsWhitespace(t[0]) && !IsWhitespace(t[|t| - 1])
  }

  /** The tag list holds no repetitions, and only trimmed, non-empty tags. */
  predicate TagsWellFormed(tags: seq<string>) {
    Distinct(tags) && forall i :: 0 <= i < |tags| ==> IsTrimmedTag(tags[i])
  }

  /**
   * `addTag()`: the trimmed input joins the tags when it is not blank and not there
   * already, and only then is the input cleared.
   */
  function AddTag(state: FormState): (r: FormState)
    ensures var tag := Trim(state.newTag);
      tag != [] && tag !in state.data.tags ==>
        r.data.tags == state.data.tags + [tag] && r.newTag == ""
    ensures var tag := Trim(state.newTag);
      !(tag != [] && tag !in state.data.tags) ==> r == state
    ensures r.data == state.data.(tags := r.data.tags) && r.errors == state.errors
  {
    var tag := Trim(state.newTag);
    if tag != [] && tag !in state.data.tags then
      FormState(state.data.(tags := state.data.tags + [tag]), "", state.errors)
    else state
  }

  /** `removeTag(tag)`: every copy of the tag goes, the others keep their order. */
  function RemoveTag(state: FormState, tag: string): (r: FormState)
    ensures tag !in r.data.tags
    ensures forall t :: t != tag ==> multiset(r.data.tags)[t] == multiset(state.data.tags)[t]
    ensures IsSubsequence(r.data.tags, state.data.tags)
    ensures r.data == state.data.(tags := r.data.tags) && r.newTag == state.newTag && r.errors == state.errors
  {
    var tags := Filter(state.data.tags, (t: string) => t != tag);
    FilterIsSubsequence(state.data.tags, (t: string) => t != tag);
    FilterMembers(state.data.tags, (t: string) => t != tag);
    FilterMultiset(state.data.tags, (t: string) => t != tag);
    FormState(state.data.(tags := tags), state.newTag, state.errors)
  }

  /** Adding a tag keeps the tag list well formed. */
  lemma AddTagKeepsTagsWellFormed(state: FormState)
    requires TagsWellFormed(state.data.tags)
    ensures TagsWellFormed(AddTag(state).data.tags)
  {
    var tag := Trim(state.newTag);
    var tags := state.data.tags;
    if tag != [] && tag !in tags {
      TrimmedIsTag(state.newTag);
      DistinctAppend(tags, tag);
      var added := tags + [tag];
      forall i | 0 <= i < |added| ensures IsTrimmedTag(added[i]) {
        if i < |tags| {
          assert added[i] == tags[i];
        }
      }
    }
  }

  /** A non-empty trimmed input is a well-formed tag. */
  lemma TrimmedIsTag(s: string)
    requires Trim(s) != []
    ensures IsTrimmedTag(Trim(s))
  {
  }

  /** Removing a tag keeps the tag list well formed. */
  lemma RemoveTagKeepsTagsWellFormed(state: FormState, tag: string)
    requires TagsWellFormed(state.data.tags)
    ensures TagsWellFormed(RemoveTag(state, tag).data.tags)
  {
    var tags := state.data.tags;
    var kept := RemoveTag(state, tag).data.tags;
    FilterDistinct(tags, (t: string) => t != tag);
    FilterMembers(tags, (t: string) => t != tag);
    forall i | 0 <= i < |kept| ensures IsTrimmedTag(kept[i]) {
      assert kept[i] in tags;
    }
  }

  /** The outcome of the five rules, in the order they are checked: `true` where a rule fails. */
  datatype Verdict = Verdict(title: bool, excerpt: bool, category: bool, slug: bool, content: bool)

  /**
   * The rules: title, excerpt and slug must not be blank, a category must be chosen, and
   * the content may be blank only when there are sections.
   */
  function Judge(data: FormData, sections: seq<ArticleSection>): Verdict {
    Verdict(IsBlank(data.title), IsBlank(data.excerpt), data.category == "", IsBlank(data.slug),
            IsBlank(data.content) && |sections| == 0)
  }

  /** The verdict's entry for a field; only five fields have rules. */
  predicate Flagged(v: Verdict, field: FormField) {
    match field
    case Title => v.title
    case Excerpt => v.excerpt
    case Category => v.category
    case Slug => v.slug
    case Content => v.content
    case _ => false
  }

  /** A validation rule that fails for this field. */
  predicate Fails(data: FormData, sections: seq<ArticleSection>, field: FormField) {
    Flagged(Judge(data, sections), field)
  }

  function Message(field: FormField): (r: string)
    ensures r != [] <==> field in Checked
  {
    match field
    case Title => "Tytuł jest wymagany"
    case Excerpt => "Zajawka jest wymagana"
    case Category => "Kategoria jest wymagana"
    case Slug => "Slug jest wymagany"
    case Content => "Treść artykułu jest wymagana"
    case _ => ""
  }

  /** The fields that have a rule. */
  const Checked: set<FormField> := {Title, Excerpt, Category, Slug, Content}

  /** One rule's step: the field's message is recorded when the rule fails. */
  function Record(errors: map<FormField, string>, field: FormField, failed: bool): map<FormField, string> {
    if failed then errors[field := Message(field)] else errors
  }

  /** The error record after the five rules have been checked in order. */
  function Collected(v: Verdict): map<FormField, string> {
    Record(Record(Record(Record(Record(map[], Title, v.title), Excerpt, v.excerpt), Category, v.category),
      Slug, v.slug), Content, v.content)
  }

  /** The record holds exactly the fields whose rule failed. */
  lemma CollectedKeys(v: Verdict)
    ensures forall f: FormField :: f in Collected(v) <==> Flagged(v, f)
    ensures Collected(v).Keys <= Checked
  {
  }

  /** Each recorded field carries its own message. */
  lemma CollectedMessages(v: Verdict)
    ensures forall f: FormField :: f in Collected(v) ==> Collected(v)[f] == Message(f)
  {
  }

  /** `!s.trim()`: the string is blank. */
  method TrimmedEmpty(s: string) returns (empty: bool)
    ensures empty <==> IsBlank(s)
  {
    TrimEmptyIffBlank(s);
    empty := Trim(s) == [];
  }

  /**
   * `validateForm()`: one error per failed rule, under the field's name and with the
   * field's message, and success exactly when no rule fails.
   */
  method ValidateForm(data: FormData, sections: seq<ArticleSection>) returns (errors: map<FormField, string>, ok: bool)
    ensures forall f: FormField :: f in errors <==> Fails(data, sections, f)
    ensures forall f: FormField :: f in errors ==> errors[f] == Message(f)
    ensures errors.Keys <= Checked
    ensures ok <==> forall f: FormField :: !Fails(data, sections, f)
  {
    var titleBlank := TrimmedEmpty(data.title);
    var excerptBlank := TrimmedEmpty(data.excerpt);
    var slugBlank := TrimmedEmpty(data.slug);
    var contentBlank := TrimmedEmpty(data.content);
    var v := Verdict(titleBlank, excerptBlank, data.category == "", slugBlank, contentBlank && |sections| == 0);
    assert v == Judge(data, sections);
    errors := map[];
    errors := Record(errors, Title, v.title);
    errors := Record(errors, Excerpt, v.excerpt);
    errors := Record(errors, Category, v.category);
    errors := Record(errors, Slug, v.slug);
    errors := Record(errors, Content, v.content);
    JudgedRecord(data, sections);
    ok := |errors| == 0;
  }

  /** The record the five rules leave for a form, in terms of the rules that fail for it. */
  lemma JudgedRecord(data: FormData, sections: seq<ArticleSection>)
    ensures var e := Collected(Judge(data, sections));
      && (forall f: FormField :: f in e <==> Fails(data, sections, f))
      && (forall f: FormField :: f in e ==> e[f] == Message(f))
      && e.Keys <= Checked
      && (|e| == 0 <==> forall f: FormField :: !Fails(data, sections, f))
  {
    var v := Judge(data, sections);
    var e := Collected(v);
    CollectedKeys(v);
    CollectedMessages(v);
    if |e| != 0 {
      assert e.Keys != {};
    }
  }

  /** Pieces of `s.split(' ')`. */
  function Pieces(s: string): (r: nat)
    ensures r >= 1
  {
    |Split(s, ' ')|
  }

  /** What one block adds to the word count: its text, when it has any, and its list items. */
  function SectionWords(section: ArticleSection): nat {
    (if section.content != "" then Pieces(section.content) else 0)
    + (if section.listItems.Some? then Pieces(Join(section.listItems.value, " ")) else 0)
  }

  /** Total over the blocks, counted from the back so that the count grows block by block. */
  function SectionsWords(sections: seq<ArticleSection>): nat
    decreases |sections|
  {
    if sections == [] then 0
    else SectionsWords(sections[..|sections| - 1]) + SectionWords(sections[|sections| - 1])
  }

  /** The word count of the form's `calculateReadTime`. */
  function FormWordCount(content: string, sections: seq<ArticleSection>): nat {
    Pieces(content) + SectionsWords(sections)
  }

  /** `calculateReadTime(content, sections)`: accumulates the count block by block. */
  method FormReadTime(content: string, sections: seq<ArticleSection>) returns (minutes: nat)
    ensures minutes == Max(1, CeilDiv(FormWordCount(content, sections), WordsPerMinute))
    ensures minutes >= 1
  {
    var wordCount := Pieces(content);
    var i := 0;
    while i < |sections|
      invariant 0 <= i <= |sections|
      invariant wordCount == Pieces(content) + SectionsWords(sections[..i])
    {
      var section := sections[i];
      if section.content != "" {
        wordCount := wordCount + Pieces(section.content);
      }
      if section.listItems.Some? {
        wordCount := wordCount + Pieces(Join(section.listItems.value, " "));
      }
      assert sections[..i + 1][..i] == sections[..i];
      i := i + 1;
    }
    assert sections[..i] == sections;
    minutes := Max(1, CeilDiv(wordCount, WordsPerMinute));
  }

  /** A text counts one word more than it has single spaces; the empty text counts one. */
  lemma PiecesCountsSpaces(s: string)
    ensures Pieces(s) == Occurrences(s, ' ') + 1
  {
    SplitLength(s, ' ');
  }

  /** A list block counts one word per item plus one per space inside the items. */
  lemma ListWords(items: seq<string>)
    requires items != []
    ensures Pieces(Join(items, " ")) == |items| + SumOccurrences(items, ' ')
  {
    SplitLength(Join(items, " "), ' ');
    JoinOccurrences(items, ' ');
  }

  /** Every block adds to the count at least as many words as it has list items. */
  lemma {:induction false} WordsCoverBlocks(content: string, sections: seq<ArticleSection>)
    ensures FormWordCount(content, sections) >= 1 + ItemCount(sections)
    decreases |sections|
  {
    PiecesCountsSpaces(content);
    if sections != [] {
      var last := sections[|sections| - 1];
      WordsCoverBlocks(content, sections[..|sections| - 1]);
      if last.listItems.Some? && last.listItems.value != [] {
        ListWords(last.listItems.value);
      }
    }
  }

  /** The number of list items over all blocks. */
  function ItemCount(sections: seq<ArticleSection>): nat
    decreases |sections|
  {
    if sections == [] then 0
    else
      var last := sections[|sections| - 1];
      ItemCount(sections[..|sections| - 1]) + (if last.listItems.Some? then |last.listItems.value| else 0)
  }

  /** `x || undefined` for a form text. */
  function NonEmpty(s: string): (r: Option<string>)
    ensures r.None? <==> s == ""
    ensures r.Some? ==> r.value == s
  {
    if s == "" then None else Some(s)
  }

  /**
   * The article record `handleSubmit(status)` builds. An edited article keeps its id and
   * creation time, a new one takes the fresh id and `now`; only a published article has a
   * publication time, the earlier one if there was one.
   */
  function BuildArticle(data: FormData, sections: seq<ArticleSection>, status: ArticleStatus,
                        editing: Option<Article>, author: User, now: string, newId: string,
                        minutes: nat): (r: Article)
    ensures editing.Some? && editing.value.id != "" ==> r.id == editing.value.id
    ensures !(editing.Some? && editing.value.id != "") ==> r.id == newId
    ensures editing.Some? && editing.value.createdAt != "" ==> r.createdAt == editing.value.createdAt
    ensures !(editing.Some? && editing.value.createdAt != "") ==> r.createdAt == now
    ensures r.updatedAt == now
    ensures status != Published ==> r.publishedAt == ""
    ensures status == Published && editing.Some? && editing.value.publishedAt != "" ==>
      r.publishedAt == editing.value.publishedAt
    ensures status == Published && !(editing.Some? && editing.value.publishedAt != "") ==> r.publishedAt == now
    ensures r.status == status && r.author == author && r.readTime == minutes
    ensures r.title == data.title && r.excerpt == data.excerpt && r.content == data.content
    ensures r.category == data.category && r.slug == data.slug && r.tags == data.tags
    ensures r.formattedContent == sections
    ensures r.imageUrl == NonEmpty(data.imageUrl)
    ensures r.seoTitle == NonEmpty(data.seoTitle) && r.seoDescription == NonEmpty(data.seoDescription)
  {
    var id := if editing.Some? && editing.value.id != "" then editing.value.id else newId;
    var createdAt := if editing.Some? && editing.value.createdAt != "" then editing.value.createdAt else now;
    var publishedAt :=
      if status == Published then
        (if editing.Some? && editing.value.publishedAt != "" then editing.value.publishedAt else now)
      else "";
    Article(id, data.title, data.excerpt, data.content, sections, data.category, publishedAt,
            minutes, NonEmpty(data.imageUrl), data.slug, NonEmpty(data.seoTitle),
            NonEmpty(data.seoDescription), status, data.tags, author, createdAt, now)
  }

  /**
   * Loading an article into the form and submitting it unchanged with its own status
   * gives back the same article, apart from the reading time, the author and the update
   * time, as long as its ids and times are set and its optional texts are not empty.
   */
  lemma ResubmitKeepsArticle(article: Article, author: User, now: string, newId: string, minutes: nat)
    requires article.id != "" && article.createdAt != ""
    requires article.imageUrl != Some("") && article.seoTitle != Some("") && article.seoDescription != Some("")
    requires article.status == Published <==> article.publishedAt != ""
    ensures var (data, sections) := LoadArticle(article);
      BuildArticle(data, sections, article.status, Some(article), author, now, newId, minutes)
        == article.(readTime := minutes, author := author, updatedAt := now)
  {
  }

  /**
   * `handleSubmit(status)`: validates, and only when validation passes builds the article
   * handed to `onSave`. The errors are the form's new error record.
   */
  method Submit(data: FormData, sections: seq<ArticleSection>, status: ArticleStatus,
                editing: Option<Article>, author: User, now: string, newId: string)
    returns (errors: map<FormField, string>, article: Option<Article>)
    ensures article.None? <==> exists f: FormField :: Fails(data, sections, f)
    ensures article.Some? ==>
      article.value == BuildArticle(data, sections, status, editing, author, now, newId,
                   Max(1, CeilDiv(FormWordCount(data.content, sections), WordsPerMinute)))
    ensures article.Some? ==>
      && !IsBlank(article.value.title) && !IsBlank(article.value.excerpt)
      && article.value.category != "" && !IsBlank(article.value.slug)
      && (!IsBlank(article.value.content) || article.value.formattedContent != [])
    ensures forall f: FormField :: f in errors <==> Fails(data, sections, f)
  {
    var ok;
    errors, ok := ValidateForm(data, sections);
    if !ok {
      article := None;
      return;
    }
    var minutes := FormReadTime(data.content, sections);
    article := Some(BuildArticle(data, sections, status, editing, author, now, newId, minutes));
    assert !Fails(data, sections, Title) && !Fails(data, sections, Excerpt) && !Fails(data, sections, Category);
    assert !Fails(data, sections, Slug) && !Fails(data, sections, Content);
  }
}
